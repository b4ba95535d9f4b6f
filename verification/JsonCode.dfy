/**
 The printer and the parser of Prototype/include/IAS/json.h in the form of the source:
 accumulating loops, and one `offset` that all parser functions advance. Each is proved
 against the functions of JsonText and JsonParser.
 */
module JsonCode {
  import opened JsonStrings
  import opened JsonText
  import opened JsonParser
  import opened JsonRoundTrip

  /** JSON::dump */
  method Print(v: Json, depth: nat) returns (s: string)
    requires depth >= 1
    ensures s == Dump(v, depth)
    decreases v
  {
    hide Escape, IntText, FloatText;
    var pad := "";
    for i := 0 to depth
      invariant pad == Pad(i)
    {
      pad := pad + "  ";
    }
    match v {
      case Null => s := "null";
      case Boolean(b) => s := if b then "true" else "false";
      case Integral(n) => s := IntText(n);
      case Floating(x) => s := FloatText(x);
      case String(t) =>
        var e := JsonEscape(t);
        s := "\"" + e + "\"";
      case Array(_) => s := PrintArray(v, depth);
      case Object(_) => s := PrintObject(v, depth, pad);
    }
  }

  method PrintArray(v: Json, depth: nat) returns (s: string)
    requires depth >= 1 && v.Array?
    ensures s == Dump(v, depth)
    decreases v, 0
  {
    s := "[";
    var skip := true;
    for i := 0 to |v.items|
      invariant s + ItemsText(v, i, depth) == "[" + ItemsText(v, 0, depth)
      invariant skip <==> i == 0
    {
      hide Dump, ItemsText;
      ghost var before := s;
      if !skip {
        s := s + ", ";
      }
      var t := Print(v.items[i], depth + 1);
      s := s + t;
      skip := false;
      NextItem(v, i, depth, before);
    }
    s := s + "]";
  }

  lemma NextItem(v: Json, i: nat, depth: nat, s: string)
    requires v.Array? && i < |v.items| && depth >= 1
    ensures var sep, t, rest := if i == 0 then "" else ", ", Dump(v.items[i], depth + 1), ItemsText(v, i + 1, depth);
      s + sep + t + rest == s + ItemsText(v, i, depth) && s + "" == s
  {
    hide Dump;
    var sep, t, rest := if i == 0 then "" else ", ", Dump(v.items[i], depth + 1), ItemsText(v, i + 1, depth);
    assert ItemsText(v, i, depth) == sep + (t + rest);
    Regroup(s, sep, "", t, rest);
    assert s + sep + "" == s + sep && sep + "" == sep;
  }

  method PrintObject(v: Json, depth: nat, pad: string) returns (s: string)
    requires depth >= 1 && v.Object? && pad == Pad(depth)
    ensures s == Dump(v, depth)
    decreases v, 0
  {
    s := "{\n";
    var skip := true;
    for i := 0 to |v.members|
      invariant s + MembersText(v, i, depth) == "{\n" + MembersText(v, 0, depth)
      invariant skip <==> i == 0
    {
      hide Dump, Pad, MembersText;
      ghost var before := s;
      if !skip {
        s := s + ",\n";
      }
      var t := Print(v.members[i].value, depth + 1);
      s := s + (pad + "\"" + v.members[i].key + "\" : " + t);
      skip := false;
      NextMember(v, i, depth, before);
    }
    assert pad[2..] == Pad(depth - 1);
    s := s + ("\n" + pad[2..] + "}");
  }

  lemma NextMember(v: Json, i: nat, depth: nat, s: string)
    requires v.Object? && i < |v.members| && depth >= 1
    ensures var sep, key := if i == 0 then "" else ",\n", v.members[i].key;
      var t, rest := Dump(v.members[i].value, depth + 1), MembersText(v, i + 1, depth);
      s + sep + (Pad(depth) + "\"" + key + "\" : " + t) + rest == s + MembersText(v, i, depth) && s + "" == s
  {
    hide Dump, Pad;
    var sep, key := if i == 0 then "" else ",\n", v.members[i].key;
    var t, rest := Dump(v.members[i].value, depth + 1), MembersText(v, i + 1, depth);
    var m := "\"" + key + "\" : " + t;
    assert MembersText(v, i, depth) == sep + Pad(depth) + (m + rest);
    Regroup(s, sep, Pad(depth), m, rest);
    Grouped(s + sep, Pad(depth), key, t);
  }

  lemma Grouped(a: string, pad: string, key: string, t: string)
    ensures a + (pad + "\"" + key + "\" : " + t) == a + pad + ("\"" + key + "\" : " + t)
  {
  }

  lemma Regroup(a: string, b: string, c: string, m: string, rest: string)
    ensures a + b + c + m + rest == a + (b + c + (m + rest))
  {
  }

  class Parser {
    const str: string
    var offset: nat

    constructor (str: string)
      ensures this.str == str && offset == 0
    {
      this.str, offset := str, 0;
    }

    /** The outcome `o` of parsing at the old offset is what was returned. */
    ghost predicate Agrees(o: Outcome, ok: bool, v: Json)
      reads this
    {
      o == if ok then Parsed(v, offset) else Crash
    }

    /** consume_ws */
    method ConsumeWs()
      requires offset <= |str|
      modifies this
      ensures offset == Skip(str, old(offset))
    {
      while IsSpace(At(str, offset))
        invariant offset <= |str| && Skip(str, offset) == Skip(str, old(offset))
        decreases |str| - offset
      {
        offset := offset + 1;
      }
    }

    /** parse_string; false if the text ends before the string does. */
    method ParseString() returns (ok: bool, v: Json)
      modifies this
      ensures Agrees(StringFrom(str, old(offset) + 1, ""), ok, v)
    {
      hide IsHex;
      v := Null;
      var val := "";
      offset := offset + 1;
      ghost var all := StringFrom(str, offset, "");
      while true
        invariant StringFrom(str, offset, val) == all
        decreases |str| - offset
      {
        if offset >= |str| {
          return false, v;
        }
        var c := str[offset];
        if c == '\"' {
          break;
        }
        if c == '\\' {
          offset := offset + 1;
          var l := At(str, offset);
          if IsLetter(l) {
            val := val + [Meaning(l)];
          } else if l == '/' {
            val := val + ['/'];
          } else if l == 'u' {
            var hex := HexFrom(str, offset + 1, 4);
            if hex.Unknown? {
              return false, v;
            }
            if hex.No? {
              return true, String("");
            }
            val := val + "\\u" + str[offset + 1..offset + 5];
            offset := offset + 4;
          } else {
            val := val + ['\\'];
          }
        } else {
          val := val + [c];
        }
        offset := offset + 1;
      }
      offset := offset + 1;
      ok, v := true, String(val);
    }

    /** The first loop of parse_number: the numeral, and the character behind it. */
    method ReadNumeral() returns (val: string, isDouble: bool, c: char)
      requires offset <= |str|
      modifies this
      ensures var end := NumeralEnd(str, old(offset));
        offset == end + 1 && val == str[old(offset)..end] && c == At(str, end) && (isDouble <==> '.' in val)
    {
      ghost var start := offset;
      val, isDouble := "", false;
      while true
        invariant start <= offset <= |str| && val == str[start..offset]
        invariant NumeralEnd(str, offset) == NumeralEnd(str, start) && (isDouble <==> '.' in val)
        decreases |str| - offset
      {
        c := At(str, offset);
        if !IsNumeral(c) {
          break;
        }
        val := val + [c];
        isDouble := isDouble || c == '.';
        offset := offset + 1;
      }
      offset := offset + 1;
    }

    /** The second loop: the digits of the exponent and the character behind them; false if
        the text ends before that. */
    method ReadDigits() returns (ok: bool, digits: string, c: char)
      modifies this
      ensures ok <==> old(offset) <= |str|
      ensures ok ==> var stop := DigitsEnd(str, old(offset));
        offset == stop + 1 && digits == str[old(offset)..stop] && c == At(str, stop)
    {
      ghost var start := offset;
      digits, c, ok := "", ' ', offset <= |str|;
      if !ok {
        return;
      }
      while true
        invariant start <= offset <= |str| && digits == str[start..offset]
        invariant DigitsEnd(str, offset) == DigitsEnd(str, start)
        decreases |str| - offset
      {
        c := At(str, offset);
        if !IsDigit(c) {
          break;
        }
        digits := digits + [c];
        offset := offset + 1;
      }
      offset := offset + 1;
    }

    /** parse_number; false if it reads behind the text or a conversion raises an exception. */
    method ParseNumber() returns (ok: bool, v: Json)
      requires offset <= |str|
      modifies this
      ensures Agrees(JsonParser.ParseNumber(str, old(offset)), ok, v)
    {
      hide NumeralEnd, DigitsEnd, Stol, Stod, Mantissa, Scaled, IsNumeral;
      v := Null;
      var val, isDouble, c := ReadNumeral();
      var exp := 0;
      var expStr := "";
      if c == 'E' || c == 'e' {
        c := At(str, offset);
        offset := offset + 1;
        if c == '-' {
          offset := offset + 1;
          expStr := "-";
        }
        var digits;
        ok, digits, c := ReadDigits();
        if !ok {
          return;
        }
        expStr := expStr + digits;
        if !IsDelimiter(c) {
          return true, Null;
        }
        var n := Stol(expStr);
        if n.Exception? {
          return false, Null;
        }
        exp := n.n;
        var m := Mantissa(val);
        if m.NoDecimal? {
          return false, Null;
        }
        offset := offset - 1;
        return true, Floating(Scaled(m.x, exp));
      }
      if !IsDelimiter(c) {
        return true, Null;
      }
      offset := offset - 1;
      if isDouble {
        var m := Stod(val);
        if m.NoDecimal? {
          return false, Null;
        }
        return true, Floating(Scaled(m.x, exp));
      }
      match Stol(val)
      case Exception => ok := false;
      case Long(n) => ok, v := true, Integral(n);
    }

    /** parse_bool */
    method ParseBool() returns (v: Json)
      modifies this
      ensures JsonParser.ParseBool(str, old(offset)) == Parsed(v, offset)
    {
      v := Null;
      if Ahead(str, offset, "true") {
        v := Boolean(true);
      } else if Ahead(str, offset, "false") {
        v := Boolean(false);
      } else {
        return;
      }
      offset := offset + if v.b then 4 else 5;
    }

    /** parse_null */
    method ParseNull() returns (v: Json)
      modifies this
      ensures v == Null && offset == old(offset) + if Ahead(str, old(offset), "null") then 4 else 0
    {
      v := Null;
      if Ahead(str, offset, "null") {
        offset := offset + 4;
      }
    }

    /** parse_array on a text with a bracket at the offset. */
    method ParseArray() returns (ok: bool, v: Json)
      requires offset < |str| && str[offset] == '['
      modifies this
      ensures Agrees(ParseValue(str, old(offset)), ok, v)
      decreases |str| + 1 - offset, 0
    {
      hide Skip, Members, StringFrom, JsonParser.ParseNumber, ParseValue, JsonParser.ParseNext;
      ArrayStep(str, offset);
      v := Null;
      ghost var start := offset;
      var items: seq<Json> := [];
      offset := offset + 1;
      ConsumeWs();
      if At(str, offset) == ']' {
        offset := offset + 1;
        return true, Array([]);
      }
      ghost var all := Items(str, offset, []);
      assert ParseValue(str, start) == all;
      while true
        invariant offset > start && Items(str, offset, items) == all
        decreases |str| + 1 - offset
      {
        var item;
        ok, item := ParseNext();
        if !ok || offset > |str| {
          return false, v;
        }
        items := items + [item];
        ConsumeWs();
        if At(str, offset) == ',' {
          offset := offset + 1;
        } else if At(str, offset) == ']' {
          offset := offset + 1;
          return true, Array(items);
        } else {
          return true, Array([]);
        }
      }
    }

    /** parse_object on a text with a brace at the offset. */
    method ParseObject() returns (ok: bool, v: Json)
      requires offset < |str| && str[offset] == '{'
      modifies this
      ensures Agrees(ParseValue(str, old(offset)), ok, v)
      decreases |str| + 1 - offset, 0
    {
      hide Skip, Items, StringFrom, JsonParser.ParseNumber, Insert, KeyText, ParseValue, JsonParser.ParseNext;
      ObjectStep(str, offset);
      v := Null;
      ghost var start := offset;
      var members: seq<Member> := [];
      offset := offset + 1;
      ConsumeWs();
      if At(str, offset) == '}' {
        offset := offset + 1;
        return true, Object([]);
      }
      ghost var all := Members(str, offset, []);
      assert ParseValue(str, start) == all;
      var stop := false;
      ok := true;
      while !stop
        invariant !stop ==> offset > start
        invariant if stop then Agrees(all, ok, v) else Members(str, offset, members) == all
        decreases !stop, |str| + 1 - offset
      {
        stop, ok, v, members := ParseMember(members);
      }
    }

    /** One pass of the loop in parse_object; `stop` if it returns. */
    method ParseMember(acc: seq<Member>) returns (stop: bool, ok: bool, v: Json, members: seq<Member>)
      modifies this
      ensures if stop then Agrees(Members(str, old(offset), acc), ok, v)
        else old(offset) < offset <= |str| + 1 && Members(str, old(offset), acc) == Members(str, offset, members)
      decreases |str| + 1 - offset, 2
    {
      hide Skip, Insert, KeyText, ParseValue, JsonParser.ParseNext;
      stop, v, members := true, Null, acc;
      var key, value;
      ok, key := ParseNext();
      if !ok || offset > |str| {
        ok := false;
        return;
      }
      ConsumeWs();
      if At(str, offset) != ':' {
        v := Object(members);
        return;
      }
      offset := offset + 1;
      ConsumeWs();
      ok, value := ParseNext();
      if !ok || offset > |str| {
        ok := false;
        return;
      }
      members := Insert(members, KeyText(key), value);
      ConsumeWs();
      if At(str, offset) == ',' {
        offset := offset + 1;
        stop := false;
      } else {
        if At(str, offset) == '}' {
          offset := offset + 1;
        }
        v := Object(members);
      }
    }

    /** parse_next */
    method ParseNext() returns (ok: bool, v: Json)
      modifies this
      ensures Agrees(JsonParser.ParseNext(str, old(offset)), ok, v)
      decreases |str| + 1 - offset, 1
    {
      hide Skip, Items, Members, StringFrom, JsonParser.ParseNumber;
      v := Null;
      if offset > |str| {
        return false, v;
      }
      ConsumeWs();
      var value := At(str, offset);
      if value == '[' {
        ok, v := ParseArray();
      } else if value == '{' {
        ok, v := ParseObject();
      } else if value == '\"' {
        ok, v := ParseString();
      } else if value == 't' || value == 'f' {
        ok := true;
        v := ParseBool();
      } else if value == 'n' {
        ok := true;
        v := ParseNull();
      } else if IsDigit(value) || value == '-' {
        ok, v := ParseNumber();
      } else {
        ok := true;
      }
    }
  }
}
