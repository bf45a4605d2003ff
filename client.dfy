/**
 * Client mode once its flags are parsed (main.go `client`): the
 * positional arguments become the server and its remotes, auth falls back
 * to the environment, and `--hostname` and `--sni` set the Host header and
 * the TLS server name.
 */
module Client {
  import opened Settings
  import HttpHeader

  /** The client flags as the flag package leaves them, with the positional arguments. */
  datatype ClientFlags = ClientFlags(
    fingerprint: string, auth: string,
    keepAlive: int, maxRetryCount: int, maxRetryInterval: int,  // durations in nanoseconds, passed through
    proxy: string,
    tlsCA: string, tlsSkipVerify: bool, tlsCert: string, tlsKey: string,
    headers: HttpHeader.Header,  // what the `--header` occurrences collected
    hostname: string, sni: string, pid: bool, verbose: bool,
    args: seq<string>)

  datatype TlsConfig = TlsConfig(ca: string, skipVerify: bool, cert: string, key: string, serverName: string)

  /** `chclient.Config`, as far as this entry point fills it in. */
  datatype ClientConfig = ClientConfig(
    fingerprint: string, auth: string,
    keepAlive: int, maxRetryCount: int, maxRetryInterval: int,
    server: string, remotes: seq<string>, proxy: string,
    headers: HttpHeader.Header, tls: TlsConfig)

  /** How the client path ends once the flags are parsed. */
  datatype ClientRun =
    /** `log.Fatalf`: the process exits with this message and no client is built. */
    | Fatal(message: string)
    /** Build a client from `config` and connect. */
    | Connect(config: ClientConfig, debug: bool, writePid: bool)

  const RemotesRequired: string := "A server and at least one remote is required"

  /**
   * The resolved client run: the server and remotes split off the
   * positional arguments, and each overridable setting the first non-empty
   * of its sources, `--sni` ranking above `--hostname` for the server name.
   */
  function ClientSpec(f: ClientFlags, env: Env): (r: ClientRun)
    ensures r.Fatal? <==> |f.args| < 2
    ensures r.Connect? ==> [r.config.server] + r.config.remotes == f.args && r.config.remotes != []
    ensures r.Connect? && f.sni != "" ==> r.config.tls.serverName == f.sni
  {
    if |f.args| < 2 then Fatal(RemotesRequired)
    else
      Connect(ClientConfig(
                f.fingerprint, FirstNonEmpty([f.auth, Getenv(env, "AUTH")]),
                f.keepAlive, f.maxRetryCount, f.maxRetryInterval,
                f.args[0], f.args[1..], f.proxy,
                if f.hostname != "" then HttpHeader.Set(f.headers, "Host", f.hostname) else f.headers,
                TlsConfig(f.tlsCA, f.tlsSkipVerify, f.tlsCert, f.tlsKey, FirstNonEmpty([f.sni, f.hostname]))),
              f.verbose, f.pid)
  }

  /**
   * The body of `client` between flag parsing and building the client: a
   * chain of checks that overwrite the configuration one step at a time.
   */
  method ResolveClient(f: ClientFlags, env: Env) returns (run: ClientRun)
    ensures run == ClientSpec(f, env)
  {
    var args := f.args;
    if |args| < 2 {
      return Fatal(RemotesRequired);
    }
    var config := ClientConfig(
      f.fingerprint, f.auth, f.keepAlive, f.maxRetryCount, f.maxRetryInterval,
      args[0], args[1..], f.proxy, f.headers,
      TlsConfig(f.tlsCA, f.tlsSkipVerify, f.tlsCert, f.tlsKey, ""));
    if config.auth == "" {
      config := config.(auth := Getenv(env, "AUTH"));
    }
    if f.hostname != "" {
      config := config.(headers := HttpHeader.Set(config.headers, "Host", f.hostname));
      config := config.(tls := config.tls.(serverName := f.hostname));
    }
    if f.sni != "" {
      config := config.(tls := config.tls.(serverName := f.sni));
    }
    run := Connect(config, f.verbose, f.pid);
    Chain2(f.auth, Getenv(env, "AUTH"));
    Chain2(f.sni, f.hostname);
  }

  /** Fewer than two positional arguments is fatal, with the message the source logs. */
  lemma TooFewArguments(f: ClientFlags, env: Env)
    ensures ClientSpec(f, env).Fatal? <==> |f.args| < 2
    ensures ClientSpec(f, env).Fatal? ==> ClientSpec(f, env).message == RemotesRequired
  {
  }

  /** Otherwise the first argument is the server and the rest, at least one, are the remotes. */
  lemma ServerAndRemotes(f: ClientFlags, env: Env)
    requires |f.args| >= 2
    ensures var c := ClientSpec(f, env).config;
      && c.server == f.args[0] && c.remotes == f.args[1..]
      && |c.remotes| >= 1 && [c.server] + c.remotes == f.args
  {
  }

  /** Auth is `--auth`, else `AUTH`. */
  lemma ClientAuth(f: ClientFlags, env: Env)
    requires |f.args| >= 2
    ensures ClientSpec(f, env).config.auth == if f.auth != "" then f.auth else Getenv(env, "AUTH")
  {
    Chain2(f.auth, Getenv(env, "AUTH"));
  }

  /**
   * `--hostname` makes its value the one Host header value and the TLS
   * server name; `--sni` then overrides the server name, so `--sni` wins
   * when both are given. Headers under other names are untouched.
   */
  lemma HostnameAndSni(f: ClientFlags, env: Env)
    requires |f.args| >= 2
    ensures var c := ClientSpec(f, env).config;
      && (f.hostname != "" ==> HttpHeader.ValuesAt(c.headers, "Host") == [f.hostname])
      && (f.hostname == "" ==> c.headers == f.headers)
      && (forall k :: k != "Host" ==> HttpHeader.ValuesAt(c.headers, k) == HttpHeader.ValuesAt(f.headers, k))
      && c.tls.serverName == (if f.sni != "" then f.sni else f.hostname)
  {
    HttpHeader.CanonicalHost();
    Chain2(f.sni, f.hostname);
  }
}
