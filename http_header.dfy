/**
 * The part of Go's `net/http.Header` that the client configuration uses:
 * a map from canonical header names to their lists of values, with `Add`
 * (append a value) and `Set` (replace all values by one).
 */
module HttpHeader {

  type Header = map<string, seq<string>>

  /** Characters that may appear in a header field name (RFC 7230 section 3.2.6 "token"). */
  predicate IsTokenChar(c: char)
  {
    || 'a' <= c <= 'z' || 'A' <= c <= 'Z' || '0' <= c <= '9'
    || c == '!' || c == '#' || c == '$' || c == '%' || c == '&' || c == '\'' || c == '*'
    || c == '+' || c == '-' || c == '.' || c == '^' || c == '_' || c == '`' || c == '|' || c == '~'
  }

  function ToUpper(c: char): char
  {
    if 'a' <= c <= 'z' then (c as int - 32) as char else c
  }

  function ToLower(c: char): char
  {
    if 'A' <= c <= 'Z' then (c as int + 32) as char else c
  }

  /**
   * Upper-case the first letter of each '-'-separated word and lower-case the
   * rest; `upper` says whether the first character starts a word.
   */
  function TitleCase(s: string, upper: bool): (r: string)
    ensures |r| == |s|
    ensures forall i :: 0 <= i < |s| ==> (r[i] == '-' <==> s[i] == '-')
    ensures forall i :: 0 <= i < |s| ==> ToLower(r[i]) == ToLower(s[i])
  {
    if s == [] then []
    else
      var rest := TitleCase(s[1..], s[0] == '-');
      var r := [if upper then ToUpper(s[0]) else ToLower(s[0])] + rest;
      assert forall i :: 1 <= i < |s| ==> r[i] == rest[i - 1] && s[i] == s[1..][i - 1];
      r
  }

  lemma {:induction false} TitleCaseKeepsTokens(s: string, upper: bool)
    requires forall i :: 0 <= i < |s| ==> IsTokenChar(s[i])
    ensures forall i :: 0 <= i < |s| ==> IsTokenChar(TitleCase(s, upper)[i])
  {
    if s != [] {
      TitleCaseKeepsTokens(s[1..], s[0] == '-');
      assert forall i :: 1 <= i < |s| ==> TitleCase(s, upper)[i] == TitleCase(s[1..], s[0] == '-')[i - 1];
    }
  }

  lemma {:induction false} TitleCaseIdempotent(s: string, upper: bool)
    ensures TitleCase(TitleCase(s, upper), upper) == TitleCase(s, upper)
  {
    if s != [] {
      var t := TitleCase(s, upper);
      assert t[1..] == TitleCase(s[1..], s[0] == '-');
      assert t[0] == '-' <==> s[0] == '-';
      TitleCaseIdempotent(s[1..], s[0] == '-');
    }
  }

  /**
   * The canonical form of a header name, as `net/textproto`'s
   * `CanonicalMIMEHeaderKey` documents it: a name made only of token
   * characters is title-cased word by word ("content-type" becomes
   * "Content-Type"); any other name is left as it is.
   */
  function CanonicalKey(k: string): (r: string)
    ensures |r| == |k|
    ensures forall i :: 0 <= i < |k| ==> ToLower(r[i]) == ToLower(k[i])
  {
    if forall i :: 0 <= i < |k| ==> IsTokenChar(k[i]) then TitleCase(k, true) else k
  }

  /** A canonical name is its own canonical form. */
  lemma CanonicalKeyIdempotent(k: string)
    ensures CanonicalKey(CanonicalKey(k)) == CanonicalKey(k)
  {
    if forall i :: 0 <= i < |k| ==> IsTokenChar(k[i]) {
      TitleCaseKeepsTokens(k, true);
      TitleCaseIdempotent(k, true);
    }
  }

  /** "Host", the header the client's `--hostname` sets, is already canonical. */
  lemma CanonicalHost()
    ensures CanonicalKey("Host") == "Host"
  {
    var k := "Host";
    assert forall i :: 0 <= i < |k| ==> IsTokenChar(k[i]);
    assert k[1..] == "ost" && "ost"[1..] == "st" && "st"[1..] == "t" && "t"[1..] == "";
    assert TitleCase("t", false) == "t";
    assert TitleCase("st", false) == "st";
    assert TitleCase("ost", false) == "ost";
    assert TitleCase(k, true) == "Host";
  }

  /** The values stored under exactly `k`; a missing name has none. */
  function ValuesAt(h: Header, k: string): seq<string>
  {
    if k in h then h[k] else []
  }

  /** `Header.Add`: append `v` to the values of the canonical form of `k`. */
  function Add(h: Header, k: string, v: string): (r: Header)
    ensures r.Keys == h.Keys + {CanonicalKey(k)}
    ensures ValuesAt(r, CanonicalKey(k)) == ValuesAt(h, CanonicalKey(k)) + [v]
    ensures forall k' :: k' != CanonicalKey(k) ==> ValuesAt(r, k') == ValuesAt(h, k')
  {
    var ck := CanonicalKey(k);
    h[ck := ValuesAt(h, ck) + [v]]
  }

  /** `Header.Set`: make `v` the one value of the canonical form of `k`. */
  function Set(h: Header, k: string, v: string): (r: Header)
    ensures r.Keys == h.Keys + {CanonicalKey(k)}
    ensures ValuesAt(r, CanonicalKey(k)) == [v]
    ensures forall k' :: k' != CanonicalKey(k) ==> ValuesAt(r, k') == ValuesAt(h, k')
  {
    h[CanonicalKey(k) := [v]]
  }
}
