/**
 String escapes of Prototype/include/IAS/json.h (section 7 of RFC 8259, without `\u` on
 output): `json_escape`, and which strings it can produce.
 */
module JsonStrings {

  const BS: char := '\U{08}'
  const VT: char := '\U{0B}'
  const FF: char := '\U{0C}'

  /** Characters that json_escape writes as a backslash and a letter. */
  predicate Special(c: char) {
    c == '\"' || c == '\\' || c == BS || c == FF || c == '\n' || c == '\r' || c == '\t'
  }

  function Letter(c: char): char
    requires Special(c)
  {
    if c == BS then 'b' else if c == FF then 'f' else if c == '\n' then 'n'
    else if c == '\r' then 'r' else if c == '\t' then 't' else c
  }

  predicate IsLetter(l: char) {
    l == '\"' || l == '\\' || l == 'b' || l == 'f' || l == 'n' || l == 'r' || l == 't'
  }

  function Meaning(l: char): (c: char)
    requires IsLetter(l)
    ensures Special(c) && Letter(c) == l
  {
    if l == 'b' then BS else if l == 'f' then FF else if l == 'n' then '\n'
    else if l == 'r' then '\r' else if l == 't' then '\t' else l
  }

  function EscapeChar(c: char): (r: string)
    ensures 1 <= |r| <= 2
  {
    if Special(c) then ['\\', Letter(c)] else [c]
  }

  function Escape(s: string): string {
    if s == [] then [] else EscapeChar(s[0]) + Escape(s[1..])
  }

  /** The loop of json_escape. */
  method JsonEscape(str: string) returns (output: string)
    ensures output == Escape(str)
  {
    hide EscapeChar;
    output := [];
    for i := 0 to |str|
      invariant output + Escape(str[i..]) == Escape(str)
    {
      assert str[i..][1..] == str[i + 1..];
      output := output + EscapeChar(str[i]);
    }
  }

  /** Whether `k` is the escaped form of some string. */
  predicate IsEscaped(k: string)
    decreases |k|
  {
    if k == [] then true
    else if k[0] == '\\' then |k| >= 2 && IsLetter(k[1]) && IsEscaped(k[2..])
    else !Special(k[0]) && IsEscaped(k[1..])
  }

  function Unescape(k: string): string
    requires IsEscaped(k)
    decreases |k|
  {
    if k == [] then []
    else if k[0] == '\\' then [Meaning(k[1])] + Unescape(k[2..])
    else [k[0]] + Unescape(k[1..])
  }

  lemma {:induction false} EscapeIsEscaped(s: string)
    ensures IsEscaped(Escape(s)) && Unescape(Escape(s)) == s
  {
    if s != [] {
      EscapeIsEscaped(s[1..]);
      var k := Escape(s);
      assert k[|EscapeChar(s[0])|..] == Escape(s[1..]);
      assert s == [s[0]] + s[1..];
    }
  }

  lemma {:induction false} UnescapeThenEscape(k: string)
    requires IsEscaped(k)
    ensures Escape(Unescape(k)) == k
    decreases |k|
  {
    if k != [] {
      var n := if k[0] == '\\' then 2 else 1;
      UnescapeThenEscape(k[n..]);
      assert Unescape(k)[1..] == Unescape(k[n..]);
      assert k == k[..n] + k[n..];
    }
  }
}
