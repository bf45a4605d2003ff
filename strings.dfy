/**
 * The few functions of Go's `strings` package that the command-line entry
 * point uses: `Index`, `Join` and `TrimSpace`. Go strings are byte strings;
 * here a string is a sequence of characters.
 */
module Strings {

  /** `sub` occurs in `s` starting at position `j`. */
  predicate OccursAt(s: string, sub: string, j: int)
  {
    0 <= j && j + |sub| <= |s| && s[j..j + |sub|] == sub
  }

  lemma OccursInTail(s: string, sub: string)
    requires |s| > 0
    ensures forall j :: 1 <= j ==> (OccursAt(s, sub, j) <==> OccursAt(s[1..], sub, j - 1))
  {
    forall j | 1 <= j
      ensures OccursAt(s, sub, j) <==> OccursAt(s[1..], sub, j - 1)
    {
      if j + |sub| <= |s| {
        assert s[1..][j - 1..j - 1 + |sub|] == s[j..j + |sub|];
      }
    }
  }

  /** `strings.Index`: the first position at which `sub` occurs in `s`, or -1. */
  function Index(s: string, sub: string): (r: int)
    ensures -1 <= r <= |s|
    ensures r >= 0 ==> OccursAt(s, sub, r)
    ensures forall j :: 0 <= j && (r < 0 || j < r) ==> !OccursAt(s, sub, j)
    decreases |s|
  {
    if |s| < |sub| then -1
    else if s[..|sub|] == sub then 0
    else
      var k := Index(s[1..], sub);
      OccursInTail(s, sub);
      if k < 0 then -1 else k + 1
  }

  /** Searching for a one-character string finds the first occurrence of that character. */
  lemma IndexOfChar(s: string, c: char)
    ensures Index(s, [c]) < 0 <==> c !in s
    ensures Index(s, [c]) >= 0 ==> s[Index(s, [c])] == c && c !in s[..Index(s, [c])]
  {
    forall j | 0 <= j < |s|
      ensures OccursAt(s, [c], j) <==> s[j] == c
    {
      assert s[j..j + 1] == [s[j]];
    }
    var r := Index(s, [c]);
    if c in s {
      var j :| 0 <= j < |s| && s[j] == c;
      assert OccursAt(s, [c], j);
    }
    if r >= 0 {
      forall j | 0 <= j < r
        ensures s[..r][j] != c
      {
        assert !OccursAt(s, [c], j);
      }
    }
  }

  /**
   * `strings.Join`: the elements with `sep` between each adjacent pair; its
   * length is theirs plus one separator per adjacent pair.
   */
  function Join(elems: seq<string>, sep: string): (r: string)
    ensures |r| == TotalLength(elems) + if elems == [] then 0 else (|elems| - 1) * |sep|
  {
    if |elems| == 0 then ""
    else if |elems| == 1 then elems[0]
    else elems[0] + sep + Join(elems[1..], sep)
  }

  /** The sum of the lengths of the elements. */
  function TotalLength(elems: seq<string>): nat
  {
    if elems == [] then 0 else |elems[0]| + TotalLength(elems[1..])
  }

  /** The rendering of a non-empty list starts with its first element and ends with its last. */
  lemma {:induction false} JoinEnds(elems: seq<string>, sep: string)
    requires |elems| > 0
    ensures elems[0] <= Join(elems, sep)
    ensures var r, last := Join(elems, sep), elems[|elems| - 1];
            |last| <= |r| && r[|r| - |last|..] == last
  {
    if |elems| > 1 {
      var rest := Join(elems[1..], sep);
      JoinEnds(elems[1..], sep);
      assert elems[1..][|elems[1..]| - 1] == elems[|elems| - 1];
      var r := elems[0] + sep + rest;
      assert r[|r| - |rest|..] == rest;
    }
  }

  /** Joining one more element puts the separator and that element at the end. */
  lemma {:induction false} JoinAppend(elems: seq<string>, x: string, sep: string)
    ensures Join(elems + [x], sep) == if elems == [] then x else Join(elems, sep) + sep + x
  {
    if |elems| == 0 {
      assert elems + [x] == [x];
    } else if |elems| == 1 {
      assert elems + [x] == [elems[0], x];
    } else {
      calc {
        Join(elems + [x], sep);
        { assert (elems + [x])[1..] == elems[1..] + [x]; }
        elems[0] + sep + Join(elems[1..] + [x], sep);
        { JoinAppend(elems[1..], x, sep); }
        elems[0] + sep + (Join(elems[1..], sep) + sep + x);
      }
    }
  }

  /**
   * `strings.Split` for a non-empty separator: the pieces between successive
   * occurrences of `sep`, taken from the left. It is the inverse of `Join`.
   */
  function Split(s: string, sep: string): (r: seq<string>)
    requires |sep| > 0
    ensures |r| >= 1
    decreases |s|
  {
    var i := Index(s, sep);
    if i < 0 then [s] else [s[..i]] + Split(s[i + |sep|..], sep)
  }

  /** The separator that `multiFlag` renders its entries with. */
  const ListSeparator: string := ", "

  /** When `x` has no ", " in it, the first ", " of `x + ", " + rest` is the one after `x`. */
  lemma FirstSeparator(x: string, rest: string)
    requires Index(x, ListSeparator) < 0
    ensures Index(x + ListSeparator + rest, ListSeparator) == |x|
  {
    var s := x + ListSeparator + rest;
    assert s[|x|..|x| + 2] == ListSeparator;
    assert OccursAt(s, ListSeparator, |x|);
    forall j | 0 <= j < |x|
      ensures !OccursAt(s, ListSeparator, j)
    {
      if j + 2 <= |x| {
        assert s[j..j + 2] == x[j..j + 2];
        assert !OccursAt(x, ListSeparator, j);
      } else {
        assert s[j + 1] == ',';
        assert s[j..j + 2][1] == ',';
      }
    }
  }

  /** Splitting a list joined with ", " gives the list back, when no entry holds ", ". */
  lemma {:induction false} SplitJoin(elems: seq<string>)
    requires |elems| >= 1
    requires forall i :: 0 <= i < |elems| ==> Index(elems[i], ListSeparator) < 0
    ensures Split(Join(elems, ListSeparator), ListSeparator) == elems
  {
    var x := elems[0];
    assert Index(x, ListSeparator) < 0;
    if |elems| > 1 {
      var tail := elems[1..];
      var rest := Join(tail, ListSeparator);
      assert Join(elems, ListSeparator) == x + ListSeparator + rest;
      SplitAtFirstSeparator(x, rest);
      forall i | 0 <= i < |tail|
        ensures Index(tail[i], ListSeparator) < 0
      {
        assert tail[i] == elems[i + 1];
      }
      SplitJoin(tail);
      assert elems == [x] + tail;
    }
  }

  /** An entry without ", " followed by ", " splits off as the first piece. */
  lemma SplitAtFirstSeparator(x: string, rest: string)
    requires Index(x, ListSeparator) < 0
    ensures Split(x + ListSeparator + rest, ListSeparator) == [x] + Split(rest, ListSeparator)
  {
    var s := x + ListSeparator + rest;
    FirstSeparator(x, rest);
    assert s[..|x|] == x;
    assert s[|x| + 2..] == rest;
  }

  /**
   * The white space `strings.TrimSpace` removes: Unicode's White_Space
   * property, which is what Go's `unicode.IsSpace` reports.
   */
  predicate IsSpace(c: char)
  {
    c in WhiteSpace
  }

  /**
   * U+0009 to U+000D, space, U+0085, U+00A0, U+1680, U+2000 to U+200A,
   * U+2028, U+2029, U+202F, U+205F and U+3000.
   */
  const WhiteSpace: string :=
    "\U{9}\U{A}\U{B}\U{C}\U{D} \U{85}\U{A0}\U{1680}"
    + "\U{2000}\U{2001}\U{2002}\U{2003}\U{2004}\U{2005}\U{2006}\U{2007}\U{2008}\U{2009}\U{200A}"
    + "\U{2028}\U{2029}\U{202F}\U{205F}\U{3000}"

  predicate AllSpace(s: string)
  {
    forall i :: 0 <= i < |s| ==> IsSpace(s[i])
  }

  /** Neither end of `s` is white space. */
  predicate Trimmed(s: string)
  {
    s == [] || (!IsSpace(s[0]) && !IsSpace(s[|s| - 1]))
  }

  /** Every character of `s` from position `lo` up to `hi` is white space. */
  predicate SpaceBetween(s: string, lo: nat, hi: nat)
    requires hi <= |s|
  {
    forall i :: lo <= i < hi ==> IsSpace(s[i])
  }

  /** `s` without its leading white space, all of which is removed. */
  function TrimLeft(s: string): (r: string)
    ensures |r| <= |s| && r == s[|s| - |r|..]
    ensures SpaceBetween(s, 0, |s| - |r|)
    ensures r == [] || !IsSpace(r[0])
  {
    if |s| > 0 && IsSpace(s[0]) then
      var r := TrimLeft(s[1..]);
      TrimLeftStep(s, r);
      r
    else s
  }

  lemma TrimLeftStep(s: string, r: string)
    requires |s| > 0 && IsSpace(s[0])
    requires |r| <= |s| - 1 && r == s[1..][|s| - 1 - |r|..]
    requires SpaceBetween(s[1..], 0, |s| - 1 - |r|)
    ensures r == s[|s| - |r|..]
    ensures SpaceBetween(s, 0, |s| - |r|)
  {
    assert s[1..][|s| - 1 - |r|..] == s[|s| - |r|..];
    forall i | 0 <= i < |s| - |r|
      ensures IsSpace(s[i])
    {
      if i > 0 {
        assert s[i] == s[1..][i - 1];
      }
    }
  }

  /** `s` without its trailing white space, all of which is removed. */
  function TrimRight(s: string): (r: string)
    ensures |r| <= |s| && r == s[..|r|]
    ensures SpaceBetween(s, |r|, |s|)
    ensures r == [] || !IsSpace(r[|r| - 1])
  {
    if |s| > 0 && IsSpace(s[|s| - 1]) then
      var r := TrimRight(s[..|s| - 1]);
      TrimRightStep(s, r);
      r
    else s
  }

  lemma TrimRightStep(s: string, r: string)
    requires |s| > 0 && IsSpace(s[|s| - 1])
    requires |r| <= |s| - 1 && r == s[..|s| - 1][..|r|]
    requires SpaceBetween(s[..|s| - 1], |r|, |s| - 1)
    ensures r == s[..|r|]
    ensures SpaceBetween(s, |r|, |s|)
  {
    assert s[..|s| - 1][..|r|] == s[..|r|];
    forall i | |r| <= i < |s|
      ensures IsSpace(s[i])
    {
      if i < |s| - 1 {
        assert s[i] == s[..|s| - 1][i];
      }
    }
  }

  /**
   * `strings.TrimSpace`: `s` without its leading and trailing white space.
   * What is left is the part of `s` between two all-space ends
   * (`TrimSpaceMiddle`).
   */
  function TrimSpace(s: string): (r: string)
    ensures Trimmed(r) && |r| <= |s|
  {
    TrimRightKeepsStart(TrimLeft(s));
    TrimRight(TrimLeft(s))
  }

  /** Trimming the right end keeps the first character of what remains. */
  lemma TrimRightKeepsStart(t: string)
    ensures TrimRight(t) == [] || TrimRight(t)[0] == t[0]
  {
  }

  /**
   * The trimmed text is a slice of `s` with nothing but white space on
   * either side of it; the white space before it is what `TrimLeft` removed.
   */
  lemma {:induction false} TrimSpaceMiddle(s: string)
    ensures var r, lo := TrimSpace(s), LeadingSpace(s);
            lo <= |s| - |r| && r == s[lo..lo + |r|]
            && SpaceBetween(s, 0, lo) && SpaceBetween(s, lo + |r|, |s|)
  {
    TrimSpaceUnfold(s);
    TrimBothEnds(s, TrimLeft(s), TrimSpace(s), LeadingSpace(s));
  }

  /** How many characters `TrimLeft` removes from the front of `s`. */
  function LeadingSpace(s: string): nat
  {
    |s| - |TrimLeft(s)|
  }

  lemma TrimSpaceUnfold(s: string)
    ensures TrimSpace(s) == TrimRight(TrimLeft(s))
  {
  }

  lemma {:induction false} TrimBothEnds(s: string, t: string, r: string, lo: nat)
    requires lo == |s| - |t| && t == s[lo..] && SpaceBetween(s, 0, lo)
    requires |r| <= |t| && r == t[..|r|] && SpaceBetween(t, |r|, |t|)
    ensures lo <= |s| - |r| && r == s[lo..lo + |r|]
    ensures SpaceBetween(s, 0, lo) && SpaceBetween(s, lo + |r|, |s|)
  {
    forall i | lo + |r| <= i < |s|
      ensures IsSpace(s[i])
    {
      assert s[i] == t[i - lo];
    }
  }

  lemma {:induction false} TrimLeftPadded(pad: string, t: string)
    requires AllSpace(pad)
    requires t == [] || !IsSpace(t[0])
    ensures TrimLeft(pad + t) == t
  {
    if pad != [] {
      assert (pad + t)[1..] == pad[1..] + t;
      TrimLeftPadded(pad[1..], t);
    } else {
      assert pad + t == t;
    }
  }

  lemma {:induction false} TrimRightPadded(t: string, pad: string)
    requires AllSpace(pad)
    requires t == [] || !IsSpace(t[|t| - 1])
    ensures TrimRight(t + pad) == t
  {
    if pad != [] {
      assert (t + pad)[..|t + pad| - 1] == t + pad[..|pad| - 1];
      TrimRightPadded(t, pad[..|pad| - 1]);
    } else {
      assert t + pad == t;
    }
  }

  /**
   * Trimming undoes padding: text with no white space at either end,
   * surrounded by any white space, trims back to itself.
   */
  lemma TrimSpacePadded(pre: string, x: string, post: string)
    requires AllSpace(pre) && AllSpace(post) && Trimmed(x)
    ensures TrimSpace(pre + x + post) == x
  {
    if x == [] {
      assert pre + x + post == pre + post;
      assert AllSpace(pre + post);
      TrimLeftPadded(pre + post, []);
      assert pre + post + [] == pre + post;
    } else {
      assert pre + x + post == pre + (x + post);
      TrimLeftPadded(pre, x + post);
      TrimRightPadded(x, post);
    }
  }

  /** Trimming twice is trimming once. */
  lemma TrimSpaceIdempotent(s: string)
    ensures TrimSpace(TrimSpace(s)) == TrimSpace(s)
  {
    var r := TrimSpace(s);
    if r != [] {
      assert !IsSpace(r[0]) && !IsSpace(r[|r| - 1]);
      assert TrimLeft(r) == r;
      assert TrimRight(r) == r;
    }
  }
}
