/**
 * The two repeatable command-line flag values of the entry point:
 * `multiFlag`, which collects every occurrence of a flag into a list, and
 * `headerFlags`, which parses `Name: Value` occurrences into a header map.
 * The flag package calls `Set` once per occurrence, in command-line order.
 */
module Flags {
  import opened Wrappers
  import Strings
  import HttpHeader

  /** No entry of `values` contains the ", " that `multiFlag` renders them with. */
  predicate NoSeparator(values: seq<string>)
  {
    forall i :: 0 <= i < |values| ==> Strings.Index(values[i], Strings.ListSeparator) < 0
  }

  /** `multiFlag`: appends each occurrence of its flag to a list of strings. */
  class MultiFlag {
    var values: seq<string>

    constructor (initial: seq<string>)
      ensures values == initial
    {
      values := initial;
    }

    /**
     * `multiFlag.String`: the entries joined by ", ". A list that has entries,
     * none of which holds ", ", can be read back from the rendering.
     */
    function String(): (s: string)
      reads this
      ensures values == [] ==> s == ""
      ensures |values| > 0 && NoSeparator(values) ==> Strings.Split(s, Strings.ListSeparator) == values
    {
      RenderingReadsBack(values);
      Strings.Join(values, Strings.ListSeparator)
    }

    /** `multiFlag.Set`: always succeeds and puts `arg` after the earlier entries. */
    method Set(arg: string) returns (err: Option<string>)
      modifies this
      ensures err == None
      ensures values == old(values) + [arg]
      ensures String() == if old(values) == [] then arg
                          else old(String()) + Strings.ListSeparator + arg
    {
      Strings.JoinAppend(values, arg, Strings.ListSeparator);
      values := values + [arg];
      err := None;
    }

    /**
     * The flag package calling `Set` once per occurrence, in command-line
     * order: the list gains one entry per occurrence, in that order, after
     * the entries it had.
     */
    method SetAll(args: seq<string>)
      modifies this
      ensures values == old(values) + args
      ensures |values| == |old(values)| + |args|
    {
      var i := 0;
      while i < |args|
        invariant 0 <= i <= |args|
        invariant values == old(values) + args[..i]
      {
        var _ := Set(args[i]);
        assert args[..i + 1] == args[..i] + [args[i]];
        i := i + 1;
      }
      assert args[..|args|] == args;
    }
  }

  /** A non-empty list none of whose entries holds ", " can be read back from its rendering. */
  lemma RenderingReadsBack(values: seq<string>)
    ensures |values| > 0 && NoSeparator(values) ==>
              Strings.Split(Strings.Join(values, Strings.ListSeparator), Strings.ListSeparator) == values
  {
    if |values| > 0 && NoSeparator(values) {
      Strings.SplitJoin(values);
    }
  }

  /** One parsed `--header` argument. */
  datatype Field = Field(name: string, value: string)

  /** The error `headerFlags.Set` returns for an argument without a colon. */
  function InvalidHeader(arg: string): string
  {
    "Invalid header (" + arg + "). Should be in the format \"HeaderName: HeaderContent\""
  }

  /**
   * What `headerFlags.Set` makes of one argument: an error when it has no
   * colon; otherwise the name is everything before the first colon, as
   * written, and the value is everything after it with the white space at
   * both ends removed.
   */
  function ParseHeader(arg: string): (r: Result<Field>)
    ensures r.Err? <==> ':' !in arg
    ensures r.Err? ==> r.error == InvalidHeader(arg)
    ensures r.Ok? ==> var n := |r.value.name|;
                      && n < |arg| && arg[..n] == r.value.name && arg[n] == ':'
                      && ':' !in r.value.name
                      && r.value.value == Strings.TrimSpace(arg[n + 1..])
  {
    var index := Strings.Index(arg, [':']);
    FirstColon(arg, index);
    if index < 0 then Err(InvalidHeader(arg))
    else
      var name := arg[..index];
      Ok(Field(name, Strings.TrimSpace(arg[|name| + 1..])))
  }

  /** What the search for the first colon of `arg` tells `ParseHeader`. */
  lemma FirstColon(arg: string, index: int)
    requires index == Strings.Index(arg, [':'])
    ensures index < 0 <==> ':' !in arg
    ensures index >= 0 ==> index < |arg| && arg[index] == ':' && ':' !in arg[..index]
  {
    Strings.IndexOfChar(arg, ':');
  }

  /**
   * `Name: Value` round-trips: a name without a colon, a colon, any white
   * space, and a value with no white space at its ends parse back to that
   * name and value.
   */
  lemma ParseHeaderFormatted(name: string, pre: string, value: string, post: string)
    requires ':' !in name
    requires Strings.AllSpace(pre) && Strings.AllSpace(post) && Strings.Trimmed(value)
    ensures ParseHeader(name + ":" + (pre + value + post)) == Ok(Field(name, value))
  {
    var tail := pre + value + post;
    var head := name + ":";
    var arg := head + tail;
    assert arg[..|name|] == name by {
      assert arg[..|name|] == head[..|name|];
    }
    assert arg[|name|] == ':' by {
      assert arg[|name|] == head[|name|];
    }
    assert arg[|name| + 1..] == tail by {
      assert |head| == |name| + 1;
    }
    Strings.TrimSpacePadded(pre, value, post);
  }


  /** `headerFlags`: parses each occurrence of `--header` into a header map. */
  class HeaderFlags {
    var header: HttpHeader.Header

    constructor (h: HttpHeader.Header)
      ensures header == h
    {
      header := h;
    }

    /**
     * `headerFlags.Set`: on an argument without a colon, returns the error and
     * leaves the map as it was; otherwise adds the parsed value after the
     * values already stored under that name.
     */
    method Set(arg: string) returns (err: Option<string>)
      modifies this
      ensures ParseHeader(arg).Err? ==> err == Some(InvalidHeader(arg)) && header == old(header)
      ensures ParseHeader(arg).Ok? ==>
                err == None && header == HttpHeader.Add(old(header), ParseHeader(arg).value.name, ParseHeader(arg).value.value)
    {
      var index := Strings.Index(arg, [':']);
      FirstColon(arg, index);
      if index < 0 {
        assert ParseHeader(arg) == Err(InvalidHeader(arg));
        return Some(InvalidHeader(arg));
      }
      var key := arg[..index];
      var value := Strings.TrimSpace(arg[|key| + 1..]);
      assert ParseHeader(arg) == Ok(Field(key, value));
      header := HttpHeader.Add(header, key, value);
      err := None;
    }
  }

  /**
   * The header map after `headerFlags.Set` has been called on each argument
   * in turn, or the error of the first argument it refuses (the command line
   * is then rejected as a whole).
   */
  function ParseHeaders(h: HttpHeader.Header, args: seq<string>): (r: Result<HttpHeader.Header>)
    ensures r.Ok? <==> forall i :: 0 <= i < |args| ==> ':' in args[i]
    decreases |args|
  {
    if args == [] then Ok(h)
    else
      AllHaveColonSplit(args);
      match ParseHeader(args[0])
      case Err(e) => Err(e)
      case Ok(f) => ParseHeaders(HttpHeader.Add(h, f.name, f.value), args[1..])
  }

  /** Every argument has a colon exactly when the first one does and every later one does. */
  lemma AllHaveColonSplit(args: seq<string>)
    requires args != []
    ensures (forall i :: 0 <= i < |args| ==> ':' in args[i])
            <==> ':' in args[0] && forall j :: 0 <= j < |args[1..]| ==> ':' in args[1..][j]
  {
    assert forall j :: 0 <= j < |args[1..]| ==> args[1..][j] == args[j + 1];
  }

  /** The value one argument gives the name `k`: none, or its value if its canonical name is `k`. */
  function ValuesFor(arg: string, k: string): seq<string>
  {
    match ParseHeader(arg)
    case Err(_) => []
    case Ok(f) => if HttpHeader.CanonicalKey(f.name) == k then [f.value] else []
  }

  /** The values of those arguments whose canonical name is `k`, in argument order. */
  function ArrivedValues(args: seq<string>, k: string): seq<string>
    decreases |args|
  {
    if args == [] then [] else ValuesFor(args[0], k) + ArrivedValues(args[1..], k)
  }

  /**
   * Concatenation is associative. Stated on its own because, among the
   * facts about headers in scope where it is used, the solver does not find
   * it quickly.
   */
  lemma ConcatAssoc<T>(a: seq<T>, b: seq<T>, c: seq<T>)
    ensures a + b + c == a + (b + c)
  {
  }

  /** One well-formed argument: the map after it is the map before it plus its value. */
  lemma ParseHeadersStep(h: HttpHeader.Header, args: seq<string>, k: string)
    requires |args| > 0 && ':' in args[0]
    ensures var f := ParseHeader(args[0]).value;
            && ParseHeaders(h, args) == ParseHeaders(HttpHeader.Add(h, f.name, f.value), args[1..])
            && HttpHeader.ValuesAt(HttpHeader.Add(h, f.name, f.value), k) == HttpHeader.ValuesAt(h, k) + ValuesFor(args[0], k)
  {
    var r := ParseHeader(args[0]);
    assert r.Ok?;
    var f := r.value;
    assert ParseHeaders(h, args) == ParseHeaders(HttpHeader.Add(h, f.name, f.value), args[1..]);
    var before := HttpHeader.ValuesAt(h, k);
    var after := HttpHeader.ValuesAt(HttpHeader.Add(h, f.name, f.value), k);
    if HttpHeader.CanonicalKey(f.name) == k {
      assert ValuesFor(args[0], k) == [f.value];
      assert after == before + [f.value];
    } else {
      assert ValuesFor(args[0], k) == [];
      assert after == before;
      assert before + [] == before;
    }
  }

  /**
   * Repeated `--header` arguments keep their order of arrival: when every
   * argument has a colon, each name ends up with its earlier values followed
   * by the values given for it, in the order they were given.
   */
  lemma {:induction false} ParseHeadersKeepsOrder(h: HttpHeader.Header, args: seq<string>, k: string)
    requires forall i :: 0 <= i < |args| ==> ':' in args[i]
    ensures ParseHeaders(h, args).Ok?
    ensures HttpHeader.ValuesAt(ParseHeaders(h, args).value, k) == HttpHeader.ValuesAt(h, k) + ArrivedValues(args, k)
    decreases |args|
  {
    if args != [] {
      ParseHeadersStep(h, args, k);
      var f := ParseHeader(args[0]).value;
      var h' := HttpHeader.Add(h, f.name, f.value);
      AllHaveColonSplit(args);
      ParseHeadersKeepsOrder(h', args[1..], k);
      var before, mine, rest := HttpHeader.ValuesAt(h, k), ValuesFor(args[0], k), ArrivedValues(args[1..], k);
      assert ArrivedValues(args, k) == mine + rest;
      calc {
        HttpHeader.ValuesAt(ParseHeaders(h, args).value, k);
        HttpHeader.ValuesAt(ParseHeaders(h', args[1..]).value, k);
        HttpHeader.ValuesAt(h', k) + rest;
        before + mine + rest;
        { ConcatAssoc(before, mine, rest); }
        before + (mine + rest);
      }
    } else {
      assert HttpHeader.ValuesAt(h, k) + [] == HttpHeader.ValuesAt(h, k);
    }
  }

  /** The first argument without a colon rejects the whole list, with its own message. */
  lemma {:induction false} ParseHeadersFirstError(h: HttpHeader.Header, args: seq<string>, i: nat)
    requires i < |args| && ':' !in args[i]
    requires forall j :: 0 <= j < i ==> ':' in args[j]
    ensures ParseHeaders(h, args) == Err(InvalidHeader(args[i]))
    decreases i
  {
    if i > 0 {
      assert ':' in args[0];
      var f := ParseHeader(args[0]).value;
      var h' := HttpHeader.Add(h, f.name, f.value);
      assert ParseHeaders(h, args) == ParseHeaders(h', args[1..]);
      forall j | 0 <= j < i - 1
        ensures ':' in args[1..][j]
      {
        assert args[1..][j] == args[j + 1];
      }
      ParseHeadersFirstError(h', args[1..], i - 1);
    } else {
      ParseHeadersHeadError(h, args);
    }
  }

  /** An argument without a colon at the front of the list rejects it with that argument's message. */
  lemma ParseHeadersHeadError(h: HttpHeader.Header, args: seq<string>)
    requires |args| > 0 && ':' !in args[0]
    ensures ParseHeaders(h, args) == Err(InvalidHeader(args[0]))
  {
    assert ParseHeader(args[0]) == Err(InvalidHeader(args[0]));
  }
}
