/**
 * The subcommand selection in `main` (main.go `main`): a version flag
 * wins over everything; otherwise the first positional argument picks
 * server or client mode, and anything else shows the help text.
 */
module Dispatch {

  /** What a terminal outcome prints before exiting. */
  datatype Shown = VersionString | HelpText

  /** The outcome of `main` once its own flags are parsed. */
  datatype Command =
    /** Print `shown`, then `os.Exit(status)`. */
    | Exit(status: int, shown: Shown)
    /** Run server mode on the remaining arguments. */
    | RunServer(args: seq<string>)
    /** Run client mode on the remaining arguments. */
    | RunClient(args: seq<string>)

  /**
   * `version` and `v` are the values of `--version` and `-v`; `args` are the
   * positional arguments left after them.
   */
  function Select(version: bool, v: bool, args: seq<string>): (c: Command)
    ensures version || v ==> c == Exit(0, VersionString)
    ensures c.RunServer? <==> !version && !v && |args| > 0 && args[0] == "server"
    ensures c.RunClient? <==> !version && !v && |args| > 0 && args[0] == "client"
    ensures c.RunServer? || c.RunClient? ==> args == [args[0]] + c.args
    ensures c.Exit? ==> c.status == 0
    ensures c == Exit(0, HelpText) <==> !version && !v && (|args| == 0 || args[0] !in {"server", "client"})
  {
    if version || v then Exit(0, VersionString)
    else
      var subcmd := if |args| > 0 then args[0] else "";
      var rest := if |args| > 0 then args[1..] else args;
      if subcmd == "server" then RunServer(rest)
      else if subcmd == "client" then RunClient(rest)
      else Exit(0, HelpText)
  }
}
