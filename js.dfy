/** JavaScript semantics that the client relies on: optional values,
    truthiness, how a template literal renders a number, a boolean or
    `undefined`, and `Array.prototype.join` together with its inverse. */
module Js {

  /** `undefined` (None) or a present value. */
  datatype Option<T> = None | Some(value: T)

  /** A value of a query option: string, number, boolean, array of keys or `undefined`. */
  datatype Value = Str(s: string) | Num(n: int) | Bool(b: bool) | Arr(items: seq<string>) | Undef
  {
    /** JavaScript truthiness: the empty string, 0, false and undefined are falsy;
        every array is an object and therefore truthy. */
    predicate Truthy() {
      match this
      case Str(s) => s != ""
      case Num(n) => n != 0
      case Bool(b) => b
      case Arr(_) => true
      case Undef => false
    }
  }

  /** A configured key passes `if (!key)` exactly when it is present and non-empty. */
  predicate KeySet(key: Option<string>) {
    key.Some? && key.value != ""
  }

  /** A code point between '0' (48) and '9' (57). */
  predicate IsDigit(c: char) {
    48 <= c as int <= 57
  }

  /** The decimal digits of `n`, most significant first, without leading zeros. */
  function Digits(n: nat): (r: string)
    ensures |r| > 0
    ensures forall i :: 0 <= i < |r| ==> IsDigit(r[i])
    ensures r[0] == '0' ==> n == 0 && r == "0"
    decreases n
  {
    var last := [(48 + n % 10) as char];
    if n < 10 then last else Digits(n / 10) + last
  }

  /** The number a string of decimal digits denotes. */
  function DigitsValue(s: string): nat
    requires forall i :: 0 <= i < |s| ==> IsDigit(s[i])
  {
    if |s| == 0 then 0
    else
      assert IsDigit(s[|s| - 1]);
      DigitsValue(s[..|s| - 1]) * 10 + (s[|s| - 1] as int - 48)
  }

  lemma {:induction false} DigitsRoundTrip(n: nat)
    ensures DigitsValue(Digits(n)) == n
    decreases n
  {
    if n >= 10 {
      var d := Digits(n);
      assert d[..|d| - 1] == Digits(n / 10);
      DigitsRoundTrip(n / 10);
    }
  }

  /** `${n}` for an integer-valued number. */
  function DecimalString(n: int): (r: string)
    ensures |r| > 0
    ensures forall i :: 0 <= i < |r| ==> IsDigit(r[i]) || (i == 0 && r[i] == '-')
    ensures r[0] == '-' <==> n < 0
    ensures n < 0 ==> |r| > 1 && r[1] != '0'
    ensures r[0] == '0' ==> n == 0 && r == "0"
  {
    if n < 0 then "-" + Digits(-n) else Digits(n)
  }

  /** Reads back an optionally signed decimal string. */
  function DecimalValue(s: string): int
    requires |s| > 0
    requires forall i :: 0 <= i < |s| ==> IsDigit(s[i]) || (i == 0 && s[i] == '-')
  {
    if s[0] == '-' then 0 - DigitsValue(s[1..]) as int else DigitsValue(s)
  }

  lemma DecimalRoundTrip(n: int)
    ensures DecimalValue(DecimalString(n)) == n
  {
    if n < 0 {
      assert DecimalString(n)[1..] == Digits(-n);
      DigitsRoundTrip(-n);
    } else {
      DigitsRoundTrip(n);
    }
  }

  /** `xs.join(sep)`: the elements separated by `sep`, nothing escaped. */
  function Join(xs: seq<string>, sep: char): string {
    if |xs| == 0 then ""
    else if |xs| == 1 then xs[0]
    else xs[0] + ([sep] + Join(xs[1..], sep))
  }

  /** `s.split(sep)`: the pieces between occurrences of `sep`; never empty. */
  function Split(s: string, sep: char): (r: seq<string>)
    ensures |r| > 0
    decreases |s|
  {
    if |s| == 0 then [""]
    else if s[0] == sep then [""] + Split(s[1..], sep)
    else
      var rest := Split(s[1..], sep);
      [[s[0]] + rest[0]] + rest[1..]
  }

  /** A prefix free of `sep` is glued onto the first piece. */
  lemma {:induction false} SplitPrefix(a: string, t: string, sep: char)
    requires sep !in a
    ensures Split(a + t, sep) == [a + Split(t, sep)[0]] + Split(t, sep)[1..]
    decreases |a|
  {
    if |a| > 0 {
      assert a[0] in a;
      assert (a + t)[0] == a[0];
      assert (a + t)[1..] == a[1..] + t;
      assert sep !in a[1..] by {
        forall i | 0 <= i < |a[1..]| ensures a[1..][i] != sep {
          assert a[1..][i] == a[i + 1];
        }
      }
      SplitPrefix(a[1..], t, sep);
      assert [a[0]] + (a[1..] + Split(t, sep)[0]) == a + Split(t, sep)[0];
    } else {
      assert a == [];
      assert a + t == t;
      assert a + Split(t, sep)[0] == Split(t, sep)[0];
      assert [a + Split(t, sep)[0]] + Split(t, sep)[1..] == Split(t, sep);
    }
  }

  /** Splitting undoes joining when no element contains the separator and the
      list is non-empty (`[].join(sep)` and `[""].join(sep)` are both ""). */
  lemma {:induction false} SplitJoin(xs: seq<string>, sep: char)
    requires |xs| > 0
    requires forall i :: 0 <= i < |xs| ==> sep !in xs[i]
    ensures Split(Join(xs, sep), sep) == xs
    decreases |xs|
  {
    if |xs| == 1 {
      SplitPrefix(xs[0], "", sep);
      assert xs[0] + "" == xs[0];
    } else {
      var tail := Join(xs[1..], sep);
      SplitJoin(xs[1..], sep);
      SplitPrefix(xs[0], [sep] + tail, sep);
      assert ([sep] + tail)[1..] == tail;
      assert Split([sep] + tail, sep) == [""] + xs[1..];
      assert xs[0] + "" == xs[0];
      assert [xs[0]] + xs[1..] == xs;
    }
  }

  /** Regrouping a concatenation of three strings. */
  lemma Concat3(a: string, b: string, c: string)
    ensures (a + b) + c == a + (b + c)
  {
  }

  /** `${v}`, with arrays joined by ',' as `convertQuery` does explicitly.
      A number's text reads back to the number, and an array's text splits
      back into its elements when none of them holds ','. */
  function Render(v: Value): (r: string)
    ensures v.Num? ==>
              && |r| > 0
              && (forall i :: 0 <= i < |r| ==> IsDigit(r[i]) || (i == 0 && r[i] == '-'))
              && DecimalValue(r) == v.n
    ensures v.Arr? && |v.items| > 0 && (forall i :: 0 <= i < |v.items| ==> ',' !in v.items[i]) ==>
              Split(r, ',') == v.items
  {
    match v
    case Str(s) => s
    case Num(n) => DecimalRoundTrip(n); DecimalString(n)
    case Bool(b) => if b then "true" else "false"
    case Arr(items) =>
      if |items| > 0 && (forall i :: 0 <= i < |items| ==> ',' !in items[i]) then
        SplitJoin(items, ','); Join(items, ',')
      else Join(items, ',')
    case Undef => "undefined"
  }

  /** Numbers, booleans and `undefined` render without any query delimiter,
      so only strings and array elements can make a query ambiguous. */
  lemma ScalarRenderHasNoDelimiters(v: Value)
    requires v.Num? || v.Bool? || v.Undef?
    ensures '&' !in Render(v) && '?' !in Render(v) && '=' !in Render(v) && ',' !in Render(v)
  {
    if v.Num? {
      var r := DecimalString(v.n);
      forall c | c in r ensures c != '&' && c != '?' && c != '=' && c != ','
      {
        var i :| 0 <= i < |r| && r[i] == c;
      }
    }
  }

  /** An array value reads back element by element when no element holds ','. */
  lemma ArrayRenderRoundTrip(items: seq<string>)
    requires |items| > 0
    requires forall i :: 0 <= i < |items| ==> ',' !in items[i]
    ensures Split(Render(Arr(items)), ',') == items
  {
    SplitJoin(items, ',');
  }
}
