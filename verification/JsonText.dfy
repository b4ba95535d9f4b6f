/**
 JSON values and how Prototype/include/IAS/json.h prints them.
 */
module JsonText {
  import opened JsonStrings

  datatype Member = Member(key: string, value: Json)

  /** `Object` lists its members as std::map does, by increasing key. A `double` is a real. */
  datatype Json =
    | Null
    | Boolean(b: bool)
    | Integral(n: int)
    | Floating(x: real)
    | String(s: string)
    | Array(items: seq<Json>)
    | Object(members: seq<Member>)

  /** The values of type `long`. */
  predicate IsLong(n: int) {
    -0x8000_0000_0000_0000 <= n <= 0x7FFF_FFFF_FFFF_FFFF
  }

  /** The order of std::string. */
  predicate Less(a: string, b: string) {
    b != [] && (a == [] || a[0] < b[0] || (a[0] == b[0] && Less(a[1..], b[1..])))
  }

  ghost predicate Sorted(ms: seq<Member>) {
    forall i, j :: 0 <= i < j < |ms| ==> Less(ms[i].key, ms[j].key)
  }

  /** What the C++ type guarantees. */
  ghost predicate WellFormed(v: Json) {
    match v
    case Integral(n) => IsLong(n)
    case Array(items) => forall i :: 0 <= i < |items| ==> WellFormed(items[i])
    case Object(ms) => Sorted(ms) && forall i :: 0 <= i < |ms| ==> WellFormed(ms[i].value)
    case _ => true
  }

  /** Every floating-point number, at any depth, is a multiple of 10^-6. */
  predicate FloatsExact(v: Json) {
    match v
    case Floating(x) => IsMicro(x)
    case Array(items) => forall i :: 0 <= i < |items| ==> FloatsExact(items[i])
    case Object(ms) => forall i :: 0 <= i < |ms| ==> FloatsExact(ms[i].value)
    case _ => true
  }

  predicate IsMicro(x: real) {
    (x * 1000000.0).Floor as real == x * 1000000.0
  }

  /** Every object key, at any depth, is in escaped form. */
  predicate KeysEscaped(v: Json) {
    match v
    case Array(items) => forall i :: 0 <= i < |items| ==> KeysEscaped(items[i])
    case Object(ms) =>
      && (forall i :: 0 <= i < |ms| ==> IsEscaped(ms[i].key))
      && (forall i :: 0 <= i < |ms| ==> KeysEscaped(ms[i].value))
    case _ => true
  }

  // ----- printing -----

  function Digit(d: nat): (c: char)
    requires d < 10
    ensures '0' <= c <= '9'
  {
    '0' + d as char
  }

  function NatText(n: nat): string {
    if n < 10 then [Digit(n)] else NatText(n / 10) + [Digit(n % 10)]
  }

  /** std::to_string */
  function IntText(n: int): string {
    if n < 0 then "-" + NatText(-n) else NatText(n)
  }

  /** The number of millionths closest to |x|, to even if two are equally close. */
  function Micros(x: real): nat {
    var y := (if x < 0.0 then -x else x) * 1000000.0;
    var n, rest := y.Floor, y - y.Floor as real;
    if rest < 0.5 || (rest == 0.5 && n % 2 == 0) then n else n + 1
  }

  /** The low `w` decimal digits of `n`. */
  function Digits(n: nat, w: nat): (r: string)
    ensures |r| == w
  {
    if w == 0 then "" else Digits(n / 10, w - 1) + [Digit(n % 10)]
  }

  /** std::to_string: six digits behind the point. */
  function FloatText(x: real): string {
    var m := Micros(x);
    (if x < 0.0 then "-" else "") + (NatText(m / 1000000) + "." + Digits(m % 1000000, 6))
  }

  function Pad(depth: nat): (r: string)
    ensures |r| == 2 * depth
  {
    seq(2 * depth, i => ' ')
  }

  function Dump(v: Json, depth: nat): string
    requires depth >= 1
    decreases v, 1, 0
  {
    match v
    case Null => "null"
    case Boolean(b) => if b then "true" else "false"
    case Integral(n) => IntText(n)
    case Floating(x) => FloatText(x)
    case String(s) => "\"" + Escape(s) + "\""
    case Array(items) => "[" + ItemsText(v, 0, depth)
    case Object(ms) => "{\n" + MembersText(v, 0, depth)
  }

  /** The items from `k` on, each behind its separator, and the closing bracket. */
  function ItemsText(v: Json, k: nat, depth: nat): string
    requires v.Array? && k <= |v.items| && depth >= 1
    decreases v, 0, |v.items| - k
  {
    if k == |v.items| then "]" else
    (if k == 0 then "" else ", ") + (Dump(v.items[k], depth + 1) + ItemsText(v, k + 1, depth))
  }

  /** The members from `k` on, each behind its separator and padding, and the closing line. */
  function MembersText(v: Json, k: nat, depth: nat): string
    requires v.Object? && k <= |v.members| && depth >= 1
    decreases v, 0, |v.members| - k
  {
    if k == |v.members| then "\n" + Pad(depth - 1) + "}" else
    (if k == 0 then "" else ",\n") + Pad(depth) +
      ("\"" + v.members[k].key + "\" : " + Dump(v.members[k].value, depth + 1) + MembersText(v, k + 1, depth))
  }
}
