/** The query-string serialiser `convertQuery` of src/index.ts: a left fold
    over the option entries that prefixes the first `name=value` pair with
    '?' and every later one with '&', and percent-encodes nothing. */
module Query {
  import opened Js

  /** One entry of `Object.entries(query)`: an option name and its value. */
  type Entry = (string, Value)

  /** The separator written before the pair at position `index`. */
  function Separator(index: nat): char {
    if index != 0 then '&' else '?'
  }

  /** `${name}=${value}`, arrays joined by ','. */
  function Pair(e: Entry): string {
    e.0 + "=" + Render(e.1)
  }

  /** `entries.reduce(step, acc)` started at position `index`. */
  function Reduce(entries: seq<Entry>, index: nat, acc: string): string
    requires index <= |entries|
    decreases |entries| - index
  {
    if index == |entries| then acc
    else Reduce(entries, index + 1, acc + [Separator(index)] + Pair(entries[index]))
  }

  /** The query suffix that `convertQuery` builds from the entries. */
  function ConvertQuery(entries: seq<Entry>): (q: string)
    ensures entries == [] <==> q == ""
    ensures entries != [] ==> q[0] == '?' && q[1..] == Join(Pairs(entries), '&')
  {
    if entries == [] then Reduce(entries, 0, "")
    else
      ReduceIsJoin(entries);
      Reduce(entries, 0, "")
  }

  /** The rendered pairs, in entry order. */
  function Pairs(entries: seq<Entry>): (ps: seq<string>)
    ensures |ps| == |entries|
  {
    seq(|entries|, i requires 0 <= i < |entries| => Pair(entries[i]))
  }

  /** The same fold over pairs that are already rendered. */
  function Fold(ps: seq<string>, index: nat, acc: string): string
    requires index <= |ps|
    decreases |ps| - index
  {
    if index == |ps| then acc
    else Fold(ps, index + 1, acc + [Separator(index)] + ps[index])
  }

  lemma {:induction false} ReduceIsFold(entries: seq<Entry>, index: nat, acc: string)
    requires index <= |entries|
    ensures Reduce(entries, index, acc) == Fold(Pairs(entries), index, acc)
    decreases |entries| - index
  {
    if index < |entries| {
      assert Pairs(entries)[index] == Pair(entries[index]);
      ReduceIsFold(entries, index + 1, acc + [Separator(index)] + Pair(entries[index]));
    }
  }

  /** What the fold appends from position `index` (at least 1) on: '&' then a pair, for each remaining pair. */
  function Rest(ps: seq<string>, index: nat): string
    requires index <= |ps|
    decreases |ps| - index
  {
    if index == |ps| then "" else "&" + (ps[index] + Rest(ps, index + 1))
  }

  lemma {:induction false} FoldAppendsRest(ps: seq<string>, index: nat, acc: string)
    requires 1 <= index <= |ps|
    ensures Fold(ps, index, acc) == acc + Rest(ps, index)
    decreases |ps| - index
  {
    if index < |ps| {
      var p, rest := ps[index], Rest(ps, index + 1);
      assert [Separator(index)] == "&";
      FoldAppendsRest(ps, index + 1, acc + "&" + p);
      Concat3(acc + "&", p, rest);
      Concat3(acc, "&", p + rest);
    } else {
      assert acc + "" == acc;
    }
  }

  lemma {:induction false} JoinIsRest(ps: seq<string>, index: nat)
    requires index < |ps|
    ensures Join(ps[index..], '&') == ps[index] + Rest(ps, index + 1)
    decreases |ps| - index
  {
    var tail := ps[index..];
    if index == |ps| - 1 {
      assert tail == [ps[index]];
      assert ps[index] + "" == ps[index];
    } else {
      assert tail[1..] == ps[index + 1..];
      JoinIsRest(ps, index + 1);
    }
  }

  /** The fold equals the reference form: "?" followed by the pairs joined by '&'. */
  lemma ReduceIsJoin(entries: seq<Entry>)
    requires entries != []
    ensures Reduce(entries, 0, "") == "?" + Join(Pairs(entries), '&')
  {
    var ps := Pairs(entries);
    var first, rest := "?" + ps[0], Rest(ps, 1);
    ReduceIsFold(entries, 0, "");
    assert [Separator(0)] == "?";
    assert "" + [Separator(0)] + ps[0] == first;
    assert Fold(ps, 0, "") == Fold(ps, 1, first);
    FoldAppendsRest(ps, 1, first);
    JoinIsRest(ps, 0);
    assert ps[0..] == ps;
    Concat3("?", ps[0], rest);
  }

  // ---------------------------------------------------------------------
  // Reading a query back: the partner of ConvertQuery.

  /** The position of the first `c` in `s`. */
  function IndexOf(s: string, c: char): (k: nat)
    requires c in s
    ensures k < |s| && s[k] == c && c !in s[..k]
  {
    if s[0] == c then 0
    else
      assert s[1..][IndexOf(s[1..], c)] == c;
      var k := 1 + IndexOf(s[1..], c);
      assert s[..k] == [s[0]] + s[1..][..k - 1];
      k
  }

  /** Splits one `name=value` piece at its first '='; a piece without '=' has an empty value. */
  function ParsePair(p: string): (string, string) {
    if '=' in p then
      var k := IndexOf(p, '=');
      (p[..k], p[k + 1..])
    else (p, "")
  }

  /** Reads a query suffix back into its (name, value) pairs; None when it
      is neither empty nor starts with '?'. */
  function ParseQuery(q: string): Option<seq<(string, string)>> {
    if q == "" then Some([])
    else if q[0] != '?' then None
    else
      var pieces := Split(q[1..], '&');
      Some(seq(|pieces|, i requires 0 <= i < |pieces| => ParsePair(pieces[i])))
  }

  /** Each entry's name and rendered value, in entry order. */
  function Rendered(entries: seq<Entry>): seq<(string, string)> {
    seq(|entries|, i requires 0 <= i < |entries| => (entries[i].0, Render(entries[i].1)))
  }

  /** No name holds '&' or '=', and no rendered value holds '&': the only
      inputs whose query can be read back, since nothing is percent-encoded. */
  predicate Unambiguous(entries: seq<Entry>) {
    forall i :: 0 <= i < |entries| ==>
      '&' !in entries[i].0 && '=' !in entries[i].0 && '&' !in Render(entries[i].1)
  }

  lemma ParsePairOfPair(name: string, value: string)
    requires '=' !in name
    ensures ParsePair(name + "=" + value) == (name, value)
  {
    var p := name + "=" + value;
    assert p[|name|] == '=';
    assert forall j :: 0 <= j < |name| ==> p[j] == name[j];
    var k := IndexOf(p, '=');
    assert k >= |name|;
    assert p[..k] == name by {
      assert k <= |name| by {
        assert forall j :: 0 <= j < k ==> p[..k][j] == p[j];
      }
    }
    assert p[k + 1..] == value;
  }

  /** Every pair of unambiguous entries is free of '&'. */
  lemma PairsHaveNoAmpersand(entries: seq<Entry>)
    requires Unambiguous(entries)
    ensures forall i :: 0 <= i < |entries| ==> '&' !in Pairs(entries)[i]
  {
    forall i | 0 <= i < |entries| ensures '&' !in Pairs(entries)[i] {
      assert Pairs(entries)[i] == entries[i].0 + "=" + Render(entries[i].1);
    }
  }

  /** Reading the query back gives every entry's name and rendered value, in entry order. */
  lemma QueryRoundTrip(entries: seq<Entry>)
    requires Unambiguous(entries)
    ensures ParseQuery(ConvertQuery(entries)) == Some(Rendered(entries))
  {
    if entries != [] {
      var q := ConvertQuery(entries);
      var ps := Pairs(entries);
      PairsHaveNoAmpersand(entries);
      SplitJoin(ps, '&');
      var pieces := Split(q[1..], '&');
      assert pieces == ps;
      var parsed := seq(|pieces|, i requires 0 <= i < |pieces| => ParsePair(pieces[i]));
      assert ParseQuery(q) == Some(parsed);
      forall i | 0 <= i < |entries| ensures parsed[i] == Rendered(entries)[i] {
        assert pieces[i] == entries[i].0 + "=" + Render(entries[i].1);
        ParsePairOfPair(entries[i].0, Render(entries[i].1));
      }
      assert parsed == Rendered(entries);
    }
  }

  // ---------------------------------------------------------------------
  // Counting separators.

  predicate IsSeparator(c: char) {
    c == '?' || c == '&'
  }

  /** The number of '?' and '&' characters in `s`. */
  function SeparatorCount(s: string): nat {
    if s == [] then 0 else (if IsSeparator(s[0]) then 1 else 0) + SeparatorCount(s[1..])
  }

  lemma {:induction false} SeparatorCountAppend(a: string, b: string)
    ensures SeparatorCount(a + b) == SeparatorCount(a) + SeparatorCount(b)
    decreases |a|
  {
    if a == [] {
      assert a + b == b;
    } else {
      assert (a + b)[1..] == a[1..] + b;
      SeparatorCountAppend(a[1..], b);
    }
  }

  lemma {:induction false} NoSeparators(s: string)
    requires '?' !in s && '&' !in s
    ensures SeparatorCount(s) == 0
    decreases |s|
  {
    if s != [] {
      assert s[0] in s;
      assert forall c :: c in s[1..] ==> c in s;
      NoSeparators(s[1..]);
    }
  }

  /** No name and no rendered value holds '?' or '&'. */
  predicate SeparatorFree(entries: seq<Entry>) {
    forall i :: 0 <= i < |entries| ==>
      '?' !in entries[i].0 && '&' !in entries[i].0 &&
      '?' !in Render(entries[i].1) && '&' !in Render(entries[i].1)
  }

  lemma {:induction false} ReduceSeparatorCount(entries: seq<Entry>, index: nat, acc: string)
    requires index <= |entries|
    requires SeparatorFree(entries)
    ensures SeparatorCount(Reduce(entries, index, acc)) == SeparatorCount(acc) + (|entries| - index)
    decreases |entries| - index
  {
    if index < |entries| {
      var e := entries[index];
      NoSeparators(Pair(e));
      SeparatorCountAppend(acc, [Separator(index)]);
      SeparatorCountAppend(acc + [Separator(index)], Pair(e));
      ReduceSeparatorCount(entries, index + 1, acc + [Separator(index)] + Pair(e));
    }
  }

  /** One separator per entry: the fold writes exactly one '?' or '&' before each pair. */
  lemma SeparatorsMatchEntries(entries: seq<Entry>)
    requires SeparatorFree(entries)
    ensures SeparatorCount(ConvertQuery(entries)) == |entries|
  {
    ReduceSeparatorCount(entries, 0, "");
  }

  // ---------------------------------------------------------------------
  // Consequences of the absence of percent-encoding, and worked examples.

  /** A single option gives `?name=value`. */
  lemma OneEntry(a: Entry)
    ensures ConvertQuery([a]) == "?" + Pair(a)
  {
    assert Pairs([a]) == [Pair(a)];
  }

  /** Two options give `?name=value&name=value`, in entry order. */
  lemma TwoEntries(a: Entry, b: Entry)
    ensures ConvertQuery([a, b]) == "?" + Pair(a) + "&" + Pair(b)
  {
    assert Pairs([a, b]) == [Pair(a), Pair(b)];
    assert Join([Pair(a), Pair(b)], '&') == Pair(a) + "&" + Pair(b);
  }

  /** A '&' and '=' inside a string value read as further pairs, and a ','
      inside an array element as a further element: two different option
      mappings give the same query (section 2.1 of RFC 3986 is not applied). */
  lemma DelimitersInValuesAreNotEscaped()
    ensures ConvertQuery([("q", Str("a&b=c"))]) == ConvertQuery([("q", Str("a")), ("b", Str("c"))])
    ensures ConvertQuery([("ids", Arr(["a,b"]))]) == ConvertQuery([("ids", Arr(["a", "b"]))])
  {
    OneEntry(("q", Str("a&b=c")));
    TwoEntries(("q", Str("a")), ("b", Str("c")));
    OneEntry(("ids", Arr(["a,b"])));
    OneEntry(("ids", Arr(["a", "b"])));
  }

  /** An `undefined` option is written out literally, and an empty array
      cannot be told from an empty string. */
  lemma UndefinedAndEmptyArrayRendering()
    ensures ConvertQuery([("draftKey", Undef)]) == "?draftKey=undefined"
    ensures ConvertQuery([("fields", Arr([]))]) == ConvertQuery([("fields", Str(""))])
  {
    OneEntry(("draftKey", Undef));
    OneEntry(("fields", Arr([])));
    OneEntry(("fields", Str("")));
  }

  lemma LimitPair()
    ensures Pair(("limit", Num(10))) == "limit=10"
  {
    assert Digits(1) == "1";
    assert Render(Num(10)) == "10";
  }

  lemma FieldsPair()
    ensures Pair(("fields", Arr(["id", "title"]))) == "fields=id,title"
  {
    assert Render(Arr(["id", "title"])) == "id,title";
  }

  /** `{limit: 10, fields: ['id', 'title']}` gives `?limit=10&fields=id,title`. */
  lemma LimitAndFieldsExample()
    ensures ConvertQuery([("limit", Num(10)), ("fields", Arr(["id", "title"]))]) == "?limit=10&fields=id,title"
  {
    LimitPair();
    FieldsPair();
    TwoEntries(("limit", Num(10)), ("fields", Arr(["id", "title"])));
  }
}
