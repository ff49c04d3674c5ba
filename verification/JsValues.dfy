/** The JavaScript semantics the node relies on: the numbers `Number()` produces,
    JSON-like parameter values, truthiness, string conversion and `indexOf`. */
module JsValues {
  import opened Wrappers

  /** A JavaScript number as it occurs here: an integer or NaN. */
  datatype Num = Val(n: int) | NaN

  /** Truthiness of a number that may be `undefined`: only a defined, non-zero,
      non-NaN number is truthy. */
  predicate TruthyNum(x: Option<Num>) {
    x.Some? && x.value.Val? && x.value.n != 0
  }

  predicate IsDigit(c: char) {
    '0' <= c <= '9'
  }

  predicate AllDigits(s: string) {
    forall i :: 0 <= i < |s| ==> IsDigit(s[i])
  }

  /** The value of a string of decimal digits; the empty string has value 0. */
  function DigitsValue(s: string): nat
    requires AllDigits(s)
  {
    if |s| == 0 then 0
    else DigitsValue(s[..|s| - 1]) * 10 + (s[|s| - 1] as int - '0' as int)
  }

  /** `Number(x)` for a string element that may be missing. A missing element is
      NaN, a string of decimal digits (the empty string included) is its value,
      and every other string is taken to be NaN. */
  function ToNumber(x: Option<string>): (r: Num)
    ensures r.Val? <==> x.Some? && AllDigits(x.value)
    ensures r.Val? ==> r.n >= 0
    ensures x == Some("") ==> r == Val(0)
  {
    if x.None? then NaN
    else if AllDigits(x.value) then Val(DigitsValue(x.value))
    else NaN
  }

  function Digit(d: nat): (c: char)
    requires d < 10
    ensures IsDigit(c)
    ensures c as int - '0' as int == d
  {
    ['0', '1', '2', '3', '4', '5', '6', '7', '8', '9'][d]
  }

  /** `n.toString()` for a non-negative integer. */
  function DecimalText(n: nat): (s: string)
    ensures 1 <= |s|
    ensures AllDigits(s)
    ensures n != 0 ==> s[0] != '0'
  {
    if n < 10 then [Digit(n)] else DecimalText(n / 10) + [Digit(n % 10)]
  }

  /** `i.toString()` for any integer. */
  function IntText(i: int): string {
    if i < 0 then "-" + DecimalText(-i) else DecimalText(i)
  }

  /** `Number(n.toString())` gives `n` back. */
  lemma {:induction false} LemmaNumberOfDecimal(n: nat)
    ensures ToNumber(Some(DecimalText(n))) == Val(n)
    ensures DigitsValue(DecimalText(n)) == n
  {
    var s := DecimalText(n);
    if n >= 10 {
      LemmaNumberOfDecimal(n / 10);
      assert s[..|s| - 1] == DecimalText(n / 10);
      assert s[|s| - 1] == Digit(n % 10);
      assert DigitsValue(s) == DigitsValue(DecimalText(n / 10)) * 10 + n % 10;
    }
    assert DigitsValue(s) == n;
  }

  /** A JSON-like value held in a node parameter or a request body. */
  datatype Value =
    | Str(s: string)
    | Int(i: int)
    | Bool(b: bool)
    | Null
    | Obj(fields: map<string, Value>)
    | Arr(items: seq<Value>)

  /** Truthiness of a property that may be `undefined`. */
  predicate Truthy(v: Option<Value>) {
    match v
    case None => false
    case Some(Str(s)) => s != ""
    case Some(Int(i)) => i != 0
    case Some(Bool(b)) => b
    case Some(Null) => false
    case Some(Obj(_)) => true
    case Some(Arr(_)) => true
  }

  /** The property `k` of an object, or `undefined`. */
  function Get(m: map<string, Value>, k: string): (r: Option<Value>)
    ensures r.Some? <==> k in m
    ensures r.Some? ==> r.value == m[k]
  {
    if k in m then Some(m[k]) else None
  }

  /** `String(v)`: the text `+` produces when it concatenates `v` to a string. */
  function ValueText(v: Value): string {
    match v
    case Str(s) => s
    case Int(i) => IntText(i)
    case Bool(b) => if b then "true" else "false"
    case Null => "null"
    case Obj(_) => "[object Object]"
    case Arr(items) => ItemsText(items)
  }

  /** An array's text: its elements' texts joined by commas, with `null` as "". */
  function ItemsText(items: seq<Value>): string
    decreases items
  {
    if |items| == 0 then ""
    else
      var head := if items[0].Null? then "" else ValueText(items[0]);
      if |items| == 1 then head else head + "," + ItemsText(items[1..])
  }

  /** `s.indexOf(x)`: the position of the first occurrence of `x`, or -1. */
  function IndexOf<T(==)>(s: seq<T>, x: T): (r: int)
    ensures -1 <= r < |s|
    ensures r == -1 <==> x !in s
    ensures 0 <= r ==> s[r] == x
    ensures forall j :: 0 <= j < r ==> s[j] != x
  {
    if |s| == 0 then -1
    else if s[0] == x then 0
    else
      var k := IndexOf(s[1..], x);
      if k == -1 then -1 else k + 1
  }

  /** The elements of an array that may be `undefined` (`xs ?? []`). */
  function Items<T>(xs: Option<seq<T>>): seq<T> {
    xs.GetOr([])
  }

  /** `s.slice(0, k)`: the end position is clamped to the length. */
  function Slice<T>(s: seq<T>, k: nat): (r: seq<T>)
    ensures |r| == if k < |s| then k else |s|
    ensures r <= s
  {
    if k < |s| then s[..k] else s
  }
}
