/**
 The recursive-descent parser of Prototype/include/IAS/json.h as functions of the text and
 an offset, for every text: values, error returns, and `Crash` for a read behind the
 terminator or an exception of std::stol.
 */
module JsonParser {
  import opened JsonStrings
  import opened JsonText

  datatype Outcome = Parsed(value: Json, offset: nat) | Crash

  /** `str[i]`, which is the terminator at the end. */
  function At(str: string, i: nat): char
    requires i <= |str|
  {
    if i == |str| then '\0' else str[i]
  }

  predicate IsSpace(c: char) {
    c == ' ' || c == '\t' || c == '\n' || c == VT || c == FF || c == '\r'
  }

  /** consume_ws */
  function Skip(str: string, i: nat): (o: nat)
    requires i <= |str|
    ensures i <= o <= |str| && !IsSpace(At(str, o))
    decreases |str| - i
  {
    if IsSpace(At(str, i)) then Skip(str, i + 1) else i
  }

  // ----- strings -----

  predicate IsHex(c: char) {
    '0' <= c <= '9' || 'a' <= c <= 'f' || 'A' <= c <= 'F'
  }

  /** The loop of parse_string at the character `i`, after the characters `val`. */
  function StringFrom(str: string, i: nat, val: string): (r: Outcome)
    ensures r.Parsed? ==> r.offset > i
    decreases |str| - i
  {
    if i >= |str| then Crash else
    var c := str[i];
    if c == '\"' then Parsed(String(val), i + 1)
    else if c != '\\' then StringFrom(str, i + 1, val + [c])
    else
      var l := At(str, i + 1);
      if IsLetter(l) then StringFrom(str, i + 2, val + [Meaning(l)])
      else if l == '/' then StringFrom(str, i + 2, val + ['/'])
      else if l != 'u' then StringFrom(str, i + 2, val + ['\\'])
      else match HexFrom(str, i + 2, 4)
        case Unknown => Crash
        case No => Parsed(String(""), i + 1)
        case Yes => StringFrom(str, i + 6, val + "\\u" + str[i + 2..i + 6])
  }

  datatype Check = Yes | No | Unknown

  /** Whether `n` hexadecimal digits follow; unknown if that needs a read out of bounds. */
  function HexFrom(str: string, i: nat, n: nat): (r: Check)
    ensures r.Yes? ==> i + n <= |str| || n == 0
    decreases n
  {
    if n == 0 then Yes else
    if i > |str| then Unknown else
    if !IsHex(At(str, i)) then No else HexFrom(str, i + 1, n - 1)
  }

  // ----- numbers -----

  predicate IsDigit(c: char) {
    '0' <= c <= '9'
  }

  predicate IsNumeral(c: char) {
    IsDigit(c) || c == '-' || c == '.'
  }

  /** What may follow a number. */
  predicate IsDelimiter(c: char) {
    IsSpace(c) || c == ',' || c == ']' || c == '}'
  }

  /** The end of the numeral that starts at `i`. */
  function NumeralEnd(str: string, i: nat): (o: nat)
    requires i <= |str|
    ensures i <= o <= |str| && !IsNumeral(At(str, o))
    ensures forall k :: i <= k < o ==> IsNumeral(str[k])
    decreases |str| - i
  {
    if IsNumeral(At(str, i)) then NumeralEnd(str, i + 1) else i
  }

  function DigitsEnd(str: string, i: nat): (o: nat)
    requires i <= |str|
    ensures i <= o <= |str| && !IsDigit(At(str, o))
    ensures forall k :: i <= k < o ==> IsDigit(str[k])
    decreases |str| - i
  {
    if IsDigit(At(str, i)) then DigitsEnd(str, i + 1) else i
  }

  function DigitValue(c: char): nat
    requires IsDigit(c)
  {
    c as int - '0' as int
  }

  function DigitsValue(s: string): nat
    requires forall k :: 0 <= k < |s| ==> IsDigit(s[k])
  {
    if s == [] then 0 else 10 * DigitsValue(s[..|s| - 1]) + DigitValue(s[|s| - 1])
  }

  datatype Number = Long(n: int) | Exception

  /** std::stol on a text of digits, signs and points: an optional sign, then as many digits
      as there are; no digit or a value outside `long` raises an exception. */
  function Stol(val: string): Number {
    var start := if val != [] && val[0] == '-' then 1 else 0;
    var digits := val[start..DigitsEnd(val, start)];
    if digits == [] then Exception else
    var n: int := if start == 1 then 0 - DigitsValue(digits) else DigitsValue(digits);
    if IsLong(n) then Long(n) else Exception
  }

  datatype Decimal = Decimal(x: real) | NoDecimal

  function TenTo(e: int): (r: real)
    ensures r > 0.0
    decreases if e < 0 then -e else e
  {
    if e == 0 then 1.0 else if e > 0 then 10.0 * TenTo(e - 1) else TenTo(e + 1) / 10.0
  }

  function Scaled(x: real, e: int): real {
    x * TenTo(e)
  }

  function DigitRun(val: string, from: nat): (r: string)
    requires from <= |val|
    ensures forall k :: 0 <= k < |r| ==> IsDigit(r[k])
  {
    val[from..DigitsEnd(val, from)]
  }

  /** `n` with the point before its last `w` digits, with a sign. */
  function Decimals(minus: bool, n: nat, w: nat): real {
    var x := n as real / TenTo(w);
    if minus then -x else x
  }

  /** std::stod on a text of digits, signs and points: an optional sign, digits, and a point
      with more digits, as far as they go; without any digit it raises an exception. */
  function Stod(val: string): Decimal {
    var start := if val != [] && val[0] == '-' then 1 else 0;
    var whole, point := DigitRun(val, start), DigitsEnd(val, start);
    var frac := if At(val, point) == '.' then DigitRun(val, point + 1) else "";
    if whole + frac == [] then NoDecimal else
    Decimal(Decimals(start == 1, DigitsValue(whole + frac), |frac|))
  }

  /** What is multiplied with the power of ten: std::stod is used if there is a point. */
  function Mantissa(val: string): Decimal {
    if '.' in val then Stod(val) else
    match Stol(val)
    case Long(n) => Decimal(n as real)
    case Exception => NoDecimal
  }

  function FloatOutcome(m: Decimal, exp: int, offset: nat): Outcome {
    match m
    case NoDecimal => Crash
    case Decimal(x) => Parsed(Floating(Scaled(x, exp)), offset)
  }

  /** parse_number. The first character of an exponent is dropped, as the code does. */
  function ParseNumber(str: string, i: nat): (r: Outcome)
    requires i <= |str|
    ensures r.Parsed? ==> r.offset >= i
  {
    var end := NumeralEnd(str, i);
    var val, c := str[i..end], At(str, end);
    if c == 'E' || c == 'e' then
      if end + 1 == |str| then Crash else
      var minus := str[end + 1] == '-';
      var from := if minus then end + 3 else end + 2;
      if from > |str| then Crash else
      var stop := DigitsEnd(str, from);
      if !IsDelimiter(At(str, stop)) then Parsed(Null, stop + 1) else
      match Stol((if minus then "-" else "") + str[from..stop])
      case Exception => Crash
      case Long(exp) => FloatOutcome(Mantissa(val), exp, stop)
    else if !IsDelimiter(c) then Parsed(Null, end + 1)
    else if '.' in val then FloatOutcome(Stod(val), 0, end)
    else match Stol(val)
      case Exception => Crash
      case Long(n) => Parsed(Integral(n), end)
  }

  // ----- values -----

  /** std::map::operator[] followed by an assignment. */
  function Insert(ms: seq<Member>, key: string, value: Json): seq<Member> {
    if ms == [] then [Member(key, value)]
    else if Less(key, ms[0].key) then [Member(key, value)] + ms
    else if key == ms[0].key then [Member(key, value)] + ms[1..]
    else [ms[0]] + Insert(ms[1..], key, value)
  }

  /** Key.ToString() */
  function KeyText(v: Json): string {
    if v.String? then Escape(v.s) else ""
  }

  /** Whether `word` is what substr finds at `i`. */
  predicate Ahead(str: string, i: nat, word: string) {
    i + |word| <= |str| && str[i..i + |word|] == word
  }

  /** parse_next */
  function ParseNext(str: string, i: nat): (r: Outcome)
    ensures r.Parsed? ==> r.offset >= i
    decreases |str| + 1 - i, 1
  {
    if i > |str| then Crash else ParseValue(str, Skip(str, i))
  }

  /** parse_next behind the white space. */
  function ParseValue(str: string, i: nat): (r: Outcome)
    requires i <= |str|
    ensures r.Parsed? ==> r.offset >= i
    decreases |str| + 1 - i, 0
  {
    match At(str, i)
    case '[' =>
      var o := Skip(str, i + 1);
      if At(str, o) == ']' then Parsed(Array([]), o + 1) else Items(str, o, [])
    case '{' =>
      var o := Skip(str, i + 1);
      if At(str, o) == '}' then Parsed(Object([]), o + 1) else Members(str, o, [])
    case '\"' => StringFrom(str, i + 1, "")
    case 't' => ParseBool(str, i)
    case 'f' => ParseBool(str, i)
    case 'n' => if Ahead(str, i, "null") then Parsed(Null, i + 4) else Parsed(Null, i)
    case c => if IsDigit(c) || c == '-' then ParseNumber(str, i) else Parsed(Null, i)
  }

  function ParseBool(str: string, i: nat): (r: Outcome)
    ensures r.Parsed? && r.offset >= i
  {
    if Ahead(str, i, "true") then Parsed(Boolean(true), i + 4)
    else if Ahead(str, i, "false") then Parsed(Boolean(false), i + 5)
    else Parsed(Null, i)
  }

  /** The loop of parse_array, after the items `acc`. */
  function Items(str: string, i: nat, acc: seq<Json>): (r: Outcome)
    ensures r.Parsed? ==> r.offset >= i
    decreases |str| + 1 - i, 2
  {
    match ParseNext(str, i)
    case Crash => Crash
    case Parsed(v, j) =>
      if j > |str| then Crash else
      var o := Skip(str, j);
      if At(str, o) == ',' then Items(str, o + 1, acc + [v])
      else if At(str, o) == ']' then Parsed(Array(acc + [v]), o + 1)
      else Parsed(Array([]), o)
  }

  /** The loop of parse_object, after the members `acc`. */
  function Members(str: string, i: nat, acc: seq<Member>): (r: Outcome)
    ensures r.Parsed? ==> r.offset >= i
    decreases |str| + 1 - i, 2
  {
    match ParseNext(str, i)
    case Crash => Crash
    case Parsed(key, j) =>
      if j > |str| then Crash else
      var colon := Skip(str, j);
      if At(str, colon) != ':' then Parsed(Object(acc), colon) else
      match ParseNext(str, Skip(str, colon + 1))
      case Crash => Crash
      case Parsed(value, k) =>
        if k > |str| then Crash else
        var o := Skip(str, k);
        var ms := Insert(acc, KeyText(key), value);
        if At(str, o) == ',' then Members(str, o + 1, ms)
        else if At(str, o) == '}' then Parsed(Object(ms), o + 1)
        else Parsed(Object(ms), o)
  }
}
