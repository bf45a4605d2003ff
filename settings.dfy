/**
 * The sources a setting is resolved from: the process environment and the
 * fixed precedence order in which flags, environment variables and
 * defaults are consulted.
 */
module Settings {

  /** The process environment, as `os.Getenv` sees it. */
  type Env = map<string, string>

  /** `os.Getenv`: a variable that is not set reads as the empty string. */
  function Getenv(env: Env, name: string): (r: string)
    ensures name in env ==> r == env[name]
    ensures r == "" <==> name !in env || env[name] == ""
  {
    if name in env then env[name] else ""
  }

  /** Setting one variable leaves every other variable as it reads. */
  lemma GetenvOther(env: Env, name: string, x: string, other: string)
    requires other != name
    ensures Getenv(env[name := x], other) == Getenv(env, other)
  {
  }

  /**
   * A precedence chain: the first non-empty candidate, or "" when every
   * candidate is empty. The candidates are listed from the highest
   * precedence (the command-line flag) to the lowest (a literal default).
   */
  function FirstNonEmpty(candidates: seq<string>): (r: string)
    ensures |candidates| > 0 && candidates[|candidates| - 1] != "" ==> r != ""
  {
    if |candidates| == 0 then ""
    else if candidates[0] != "" then candidates[0]
    else FirstNonEmpty(candidates[1..])
  }

  /**
   * A chain resolves to "" exactly when every source is empty, and
   * otherwise to a source every higher-ranked source of which is empty.
   */
  lemma {:induction false} FirstNonEmptyChoice(candidates: seq<string>)
    ensures var r := FirstNonEmpty(candidates);
      && (r == "" <==> forall i :: 0 <= i < |candidates| ==> candidates[i] == "")
      && (r != "" ==> exists i :: 0 <= i < |candidates| && candidates[i] == r
                                  && forall j :: 0 <= j < i ==> candidates[j] == "")
  {
    if |candidates| > 0 && candidates[0] == "" {
      var tail := candidates[1..];
      FirstNonEmptyChoice(tail);
      assert forall i :: 1 <= i < |candidates| ==> candidates[i] == tail[i - 1];
      var r := FirstNonEmpty(tail);
      if r != "" {
        var i :| 0 <= i < |tail| && tail[i] == r && forall j :: 0 <= j < i ==> tail[j] == "";
        assert candidates[i + 1] == r;
      }
    }
  }

  /** A two-source chain: `a` when set, else `b`. */
  lemma Chain2(a: string, b: string)
    ensures FirstNonEmpty([a, b]) == if a != "" then a else b
  {
    assert [a, b][1..] == [b];
    assert [b][1..] == [];
    assert FirstNonEmpty([b]) == if b != "" then b else FirstNonEmpty([]);
  }

  /** A three-source chain: `a`, else `b`, else `c`. */
  lemma Chain3(a: string, b: string, c: string)
    ensures FirstNonEmpty([a, b, c]) == if a != "" then a else if b != "" then b else c
  {
    assert [a, b, c][1..] == [b, c];
    Chain2(b, c);
  }

  /** A four-source chain: `a`, else `b`, else `c`, else `d`. */
  lemma Chain4(a: string, b: string, c: string, d: string)
    ensures FirstNonEmpty([a, b, c, d]) == if a != "" then a else if b != "" then b else if c != "" then c else d
  {
    assert [a, b, c, d][1..] == [b, c, d];
    Chain3(b, c, d);
  }
}
