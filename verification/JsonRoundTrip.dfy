/**
 Parsing what was printed: inside any text, a printed value whose object keys are in escaped
 form is read back, with its floating-point numbers rounded to six decimals, and the parser
 stops behind it.
 */
module JsonRoundTrip {
  import opened JsonStrings
  import opened JsonText
  import opened JsonParser
  import opened JsonNumbers

  // ----- looking ahead -----

  lemma NoSkip(str: string, i: nat)
    requires i <= |str| && !IsSpace(At(str, i))
    ensures Skip(str, i) == i
  {
  }

  lemma {:induction false} SkipSpaces(str: string, i: nat, n: nat)
    requires i + n <= |str| && (forall k :: i <= k < i + n ==> IsSpace(str[k])) && !IsSpace(At(str, i + n))
    ensures Skip(str, i) == i + n
    decreases n
  {
    if n > 0 {
      SkipSpaces(str, i + 1, n - 1);
    }
  }

  // ----- strings -----

  /** One escaped character is read as that character. */
  lemma StringStep(str: string, i: nat, c: char, val: string)
    requires Ahead(str, i, EscapeChar(c))
    ensures StringFrom(str, i, val) == StringFrom(str, i + |EscapeChar(c)|, val + [c])
  {
    AheadAt(str, i, EscapeChar(c), 0);
    if Special(c) {
      AheadAt(str, i, EscapeChar(c), 1);
      assert Meaning(Letter(c)) == c;
    }
  }

  /** Reading an escaped string up to its closing quote gives the string back. */
  lemma {:induction false} StringParses(str: string, i: nat, s: string, val: string)
    requires Ahead(str, i, Escape(s) + "\"")
    ensures StringFrom(str, i, val) == Parsed(String(val + s), i + |Escape(s)| + 1)
    decreases |s|
  {
    hide EscapeChar, Ahead;
    if s == [] {
      AheadAt(str, i, Escape(s) + "\"", 0);
      assert val + s == val;
    } else {
      hide StringFrom;
      var e, rest := EscapeChar(s[0]), Escape(s[1..]) + "\"";
      assert Escape(s) + "\"" == e + rest;
      AheadSplit(str, i, e, rest);
      StringStep(str, i, s[0], val);
      StringParses(str, i + |e|, s[1..], val + [s[0]]);
      assert val + [s[0]] + s[1..] == val + s;
    }
  }

  /** Quoting and parsing any string is the identity. */
  lemma QuotedStringParses(s: string)
    ensures ParseNext("\"" + Escape(s) + "\"", 0) == Parsed(String(s), |Escape(s)| + 2)
  {
    var str := "\"" + Escape(s) + "\"";
    assert str[1..] == Escape(s) + "\"";
    StringParses(str, 1, s, "");
    assert "" + s == s;
  }

  // ----- members -----

  lemma {:induction false} LessAsymmetric(a: string, b: string)
    requires Less(a, b)
    ensures !Less(b, a) && a != b
  {
    if a != [] && a[0] == b[0] {
      LessAsymmetric(a[1..], b[1..]);
    }
  }

  /** A key above all others is inserted at the end. */
  lemma {:induction false} InsertLast(ms: seq<Member>, key: string, value: Json)
    requires forall i :: 0 <= i < |ms| ==> Less(ms[i].key, key)
    ensures Insert(ms, key, value) == ms + [Member(key, value)]
  {
    if ms != [] {
      LessAsymmetric(ms[0].key, key);
      InsertLast(ms[1..], key, value);
    }
  }

  // ----- values -----

  /** A text of a value starts with a character that is neither white space nor a bracket
      that closes. */
  lemma StartsVisibly(v: Json, depth: nat)
    requires depth >= 1 && WellFormed(v)
    ensures var t := Dump(v, depth); t != [] && !IsSpace(t[0]) && t[0] != ']' && t[0] != '}'
  {
    hide IntText, FloatText;
    if v.Integral? {
      StolOfText(v.n);
    } else if v.Floating? {
      StodOfText(v.x);
    }
  }

  predicate IsNumber(v: Json) {
    v.Integral? || v.Floating?
  }

  /** Behind a number there is a delimiter. */
  predicate Delimited(v: Json, str: string, end: nat) {
    IsNumber(v) ==> end < |str| && IsDelimiter(str[end])
  }

  /** The value with its floating-point numbers as they are printed. */
  function Rounded(v: Json): Json {
    match v
    case Floating(x) => Floating(Nearest(x))
    case Array(items) => Array(seq(|items|, i requires 0 <= i < |items| => Rounded(items[i])))
    case Object(ms) =>
      Object(seq(|ms|, i requires 0 <= i < |ms| => Member(ms[i].key, Rounded(ms[i].value))))
    case _ => v
  }

  /** What the round trip is claimed for. */
  ghost predicate Printable(v: Json) {
    WellFormed(v) && KeysEscaped(v)
  }

  lemma WordParses(v: Json, depth: nat, str: string, i: nat)
    requires depth >= 1 && (v.Null? || v.Boolean?) && Ahead(str, i, Dump(v, depth))
    ensures ParseValue(str, i) == Parsed(v, i + |Dump(v, depth)|)
  {
    hide ParseNumber, StringFrom, Items, Members, Skip, IntText, FloatText, Escape;
    AheadAt(str, i, Dump(v, depth), 0);
    if v.Boolean? && !v.b {
      assert str[i..i + 5][..4] == str[i..i + 4];
    }
  }

  lemma QuotedParses(str: string, i: nat, s: string)
    requires Ahead(str, i, "\"" + (Escape(s) + "\""))
    ensures ParseValue(str, i) == Parsed(String(s), i + |Escape(s)| + 2)
  {
    hide ParseNumber, StringFrom, Items, Members, Skip, Escape;
    AheadSplit(str, i, "\"", Escape(s) + "\"");
    AheadAt(str, i, "\"", 0);
    StringParses(str, i + 1, s, "");
    assert "" + s == s;
  }

  lemma NumeralParses(str: string, i: nat)
    requires i < |str| && (IsDigit(str[i]) || str[i] == '-')
    ensures ParseValue(str, i) == ParseNumber(str, i)
  {
    hide ParseNumber, Items, Members, Skip, StringFrom;
  }

  /** The texts without brackets. */
  lemma ScalarParses(v: Json, depth: nat, str: string, i: nat)
    requires depth >= 1 && Printable(v) && !v.Array? && !v.Object?
    requires Ahead(str, i, Dump(v, depth)) && Delimited(v, str, i + |Dump(v, depth)|)
    ensures ParseValue(str, i) == Parsed(Rounded(v), i + |Dump(v, depth)|)
  {
    hide ParseNumber, Escape, Ahead, IntText, FloatText;
    if v.Integral? {
      StolOfText(v.n);
      AheadAt(str, i, IntText(v.n), 0);
      NumberParses(str, i, v.n);
      NumeralParses(str, i);
    } else if v.Floating? {
      StodOfText(v.x);
      AheadAt(str, i, FloatText(v.x), 0);
      FloatParses(str, i, v.x);
      NumeralParses(str, i);
    } else if v.String? {
      hide ParseValue;
      assert Dump(v, depth) == "\"" + (Escape(v.s) + "\"");
      QuotedParses(str, i, v.s);
    } else {
      hide ParseValue, Dump;
      WordParses(v, depth, str, i);
    }
  }

  lemma {:induction false} ValueParses(v: Json, depth: nat, str: string, i: nat)
    requires depth >= 1 && Printable(v)
    requires Ahead(str, i, Dump(v, depth)) && Delimited(v, str, i + |Dump(v, depth)|)
    ensures ParseValue(str, i) == Parsed(Rounded(v), i + |Dump(v, depth)|)
    decreases v, 1, 0
  {
    hide ParseValue, Dump, Printable, Rounded;
    match v {
      case Array(_) => ArrayParses(v, depth, str, i);
      case Object(_) => ObjectParses(v, depth, str, i);
      case _ => ScalarParses(v, depth, str, i);
    }
  }

  // Arrays.

  lemma ArrayStep(str: string, i: nat)
    requires i < |str| && str[i] == '['
    ensures var o := Skip(str, i + 1);
      ParseValue(str, i) == if At(str, o) == ']' then Parsed(Array([]), o + 1) else Items(str, o, [])
  {
    hide Skip, Items;
  }

  lemma ItemsStep(str: string, i: nat, acc: seq<Json>, v: Json, j: nat)
    requires i <= |str| && ParseValue(str, Skip(str, i)) == Parsed(v, j) && j < |str| && !IsSpace(str[j])
    ensures str[j] == ',' ==> Items(str, i, acc) == Items(str, j + 1, acc + [v])
    ensures str[j] == ']' ==> Items(str, i, acc) == Parsed(Array(acc + [v]), j + 1)
  {
    hide Skip, ParseValue;
    NoSkip(str, j);
  }

  lemma {:induction false} ArrayParses(v: Json, depth: nat, str: string, i: nat)
    requires v.Array? && depth >= 1 && Printable(v) && Ahead(str, i, Dump(v, depth))
    ensures ParseValue(str, i) == Parsed(Rounded(v), i + |Dump(v, depth)|)
    decreases v, 0, |v.items| + 1
  {
    hide Ahead, ParseValue, Items, Skip, IsSpace, Rounded;
    RoundedItems(v);
    var t := ItemsText(v, 0, depth);
    AheadSplit(str, i, "[", t);
    AheadAt(str, i, "[", 0);
    ArrayStep(str, i);
    NotSpace();
    if v.items != [] {
      StartsVisibly(v.items[0], depth + 1);
      var u := Dump(v.items[0], depth + 1) + ItemsText(v, 1, depth);
      assert t == u;
      AheadAt(str, i + 1, u, 0);
      NoSkip(str, i + 1);
      ItemsParse(v, 0, depth, str, i + 1, i + 1);
      assert Rounded(v).items[..0] == [];
    } else {
      assert Rounded(v) == Array([]);
      AheadAt(str, i + 1, t, 0);
      NoSkip(str, i + 1);
    }
  }

  lemma NotSpace()
    ensures IsSpace(' ') && IsSpace('\n')
    ensures !IsSpace(']') && !IsSpace('}') && !IsSpace(',') && !IsSpace(':') && !IsSpace('\"')
    ensures IsDelimiter(',') && IsDelimiter(']') && IsDelimiter('\n')
  {
  }

  lemma ItemsTextIs(v: Json, k: nat, depth: nat)
    requires v.Array? && 0 < k <= |v.items| && depth >= 1
    ensures ItemsText(v, k, depth) ==
      if k == |v.items| then "]" else ", " + (Dump(v.items[k], depth + 1) + ItemsText(v, k + 1, depth))
  {
  }

  lemma PrintableItem(v: Json, k: nat, depth: nat)
    requires v.Array? && k < |v.items| && Printable(v) && depth >= 1
    ensures Printable(v.items[k])
    ensures var t := Dump(v.items[k], depth); t != [] && !IsSpace(t[0])
  {
    StartsVisibly(v.items[k], depth);
  }

  lemma RoundedItems(v: Json)
    requires v.Array?
    ensures Rounded(v).Array? && |Rounded(v).items| == |v.items|
    ensures forall k {:trigger v.items[k]} :: 0 <= k < |v.items| ==> Rounded(v).items[k] == Rounded(v.items[k])
  {
  }

  lemma RoundedTake(v: Json, k: nat)
    requires v.Array? && k < |v.items|
    ensures Rounded(v).Array? && |Rounded(v).items| == |v.items|
    ensures Rounded(v).items[..k] + [Rounded(v.items[k])] == Rounded(v).items[..k + 1]
    ensures k + 1 == |v.items| ==> Array(Rounded(v).items[..k + 1]) == Rounded(v)
  {
    hide Rounded;
    RoundedItems(v);
  }

  /** Item `k` and its separator or bracket. */
  lemma {:induction false} ItemParses(v: Json, k: nat, depth: nat, str: string, i: nat, at: nat)
    requires v.Array? && k < |v.items| && depth >= 1 && Printable(v) && i <= |str| && Skip(str, i) == at
    requires Rounded(v).Array? && |Rounded(v).items| == |v.items|
    requires Ahead(str, at, Dump(v.items[k], depth + 1) + ItemsText(v, k + 1, depth))
    ensures var end := at + |Dump(v.items[k], depth + 1)|;
      && Ahead(str, end, ItemsText(v, k + 1, depth))
      && Items(str, i, Rounded(v).items[..k]) ==
        if k + 1 < |v.items| then Items(str, end + 1, Rounded(v).items[..k + 1]) else Parsed(Rounded(v), end + 1)
    decreases v, 0, |v.items| - k, 0
  {
    hide Ahead, ParseValue, Items, Skip, IsSpace, IsDelimiter, Dump, ItemsText, Printable, Rounded;
    RoundedTake(v, k);
    var d, after := Dump(v.items[k], depth + 1), ItemsText(v, k + 1, depth);
    ItemsTextIs(v, k + 1, depth);
    PrintableItem(v, k, depth + 1);
    AheadSplit(str, at, d, after);
    var end := at + |d|;
    AheadAt(str, end, after, 0);
    NotSpace();
    ValueParses(v.items[k], depth + 1, str, at);
    ItemsStep(str, i, Rounded(v).items[..k], Rounded(v.items[k]), end);
  }

  /** Item `k` starts at `at`, behind its separator. */
  lemma {:induction false} ItemsParse(v: Json, k: nat, depth: nat, str: string, i: nat, at: nat)
    requires v.Array? && k < |v.items| && depth >= 1 && Printable(v) && i <= |str| && Skip(str, i) == at
    requires Rounded(v).Array? && |Rounded(v).items| == |v.items|
    requires Ahead(str, at, Dump(v.items[k], depth + 1) + ItemsText(v, k + 1, depth))
    ensures Items(str, i, Rounded(v).items[..k]) ==
      Parsed(Rounded(v), at + |Dump(v.items[k], depth + 1)| + |ItemsText(v, k + 1, depth)|)
    decreases v, 0, |v.items| - k, 1
  {
    hide Ahead, Items, Skip, IsSpace, Dump, ItemsText, Printable, Rounded;
    ItemParses(v, k, depth, str, i, at);
    ItemsTextIs(v, k + 1, depth);
    if k + 1 < |v.items| {
      var end := at + |Dump(v.items[k], depth + 1)|;
      var rest := Dump(v.items[k + 1], depth + 1) + ItemsText(v, k + 2, depth);
      AheadSplit(str, end, ", ", rest);
      AheadAt(str, end, ", ", 1);
      PrintableItem(v, k + 1, depth + 1);
      AheadAt(str, end + 2, rest, 0);
      NotSpace();
      SkipSpaces(str, end + 1, 1);
      ItemsParse(v, k + 1, depth, str, end + 1, end + 2);
    }
  }

  // Objects.

  /** Member `k` from its quote on, and all that follows. */
  function MemberOn(v: Json, k: nat, depth: nat): (t: string)
    requires v.Object? && k < |v.members| && depth >= 1
    ensures t != [] && t[0] == '\"'
    ensures MembersText(v, k, depth) == (if k == 0 then "" else ",\n") + Pad(depth) + t
  {
    "\"" + v.members[k].key + "\" : " + Dump(v.members[k].value, depth + 1) + MembersText(v, k + 1, depth)
  }

  lemma ObjectStep(str: string, i: nat)
    requires i < |str| && str[i] == '{'
    ensures var o := Skip(str, i + 1);
      ParseValue(str, i) == if At(str, o) == '}' then Parsed(Object([]), o + 1) else Members(str, o, [])
  {
    hide Skip, Members;
  }

  lemma MembersStep(str: string, i: nat, acc: seq<Member>, key: Json, j: nat, value: Json, end: nat)
    requires i <= |str| && ParseValue(str, Skip(str, i)) == Parsed(key, j)
    requires j + 2 < |str| && str[j] == ' ' && str[j + 1] == ':' && str[j + 2] == ' '
    requires j + 3 < |str| && !IsSpace(str[j + 3]) && ParseValue(str, j + 3) == Parsed(value, end) && end <= |str|
    ensures var o := Skip(str, end);
      var ms := Insert(acc, KeyText(key), value);
      && (At(str, o) == ',' ==> Members(str, i, acc) == Members(str, o + 1, ms))
      && (At(str, o) == '}' ==> Members(str, i, acc) == Parsed(Object(ms), o + 1))
  {
    hide Skip, ParseValue, IsSpace, Insert, KeyText;
    NotSpace();
    SkipSpaces(str, j, 1);
    SkipSpaces(str, j + 2, 1);
    NoSkip(str, j + 3);
  }

  /** The pieces of one member. */
  lemma MemberPieces(str: string, at: nat, key: string, d: string, after: string)
    requires Ahead(str, at, "\"" + key + "\" : " + d + after) && d != []
    ensures Ahead(str, at, "\"" + (key + "\""))
    ensures var j := at + |key| + 2;
      && j + 3 < |str| && str[j] == ' ' && str[j + 1] == ':' && str[j + 2] == ' ' && str[j + 3] == d[0]
      && Ahead(str, j + 3, d) && Ahead(str, j + 3 + |d|, after)
  {
    hide Ahead;
    var q := "\"" + (key + "\"");
    assert "\"" + key + "\" : " + d + after == q + (" : " + (d + after));
    AheadSplit(str, at, q, " : " + (d + after));
    var j := at + |q|;
    AheadSplit(str, j, " : ", d + after);
    AheadAt(str, j, " : ", 0);
    AheadAt(str, j, " : ", 1);
    AheadAt(str, j, " : ", 2);
    AheadSplit(str, j + 3, d, after);
    AheadAt(str, j + 3, d, 0);
  }

  /** A line break and padding are skipped. */
  lemma SkipPadding(str: string, i: nat, depth: nat, rest: string)
    requires Ahead(str, i, "\n" + Pad(depth) + rest) && rest != [] && !IsSpace(rest[0])
    ensures Skip(str, i) == i + 1 + 2 * depth && Ahead(str, i + 1 + 2 * depth, rest)
    ensures At(str, i + 1 + 2 * depth) == rest[0]
  {
    hide Skip, IsSpace;
    var n := 1 + 2 * depth;
    AheadSplit(str, i, "\n" + Pad(depth), rest);
    AheadAt(str, i + n, rest, 0);
    NotSpace();
    forall k | i <= k < i + n
      ensures IsSpace(str[k])
    {
      AheadAt(str, i, "\n" + Pad(depth), k - i);
    }
    SkipSpaces(str, i, n);
  }

  lemma {:induction false} ObjectParses(v: Json, depth: nat, str: string, i: nat)
    requires v.Object? && depth >= 1 && Printable(v) && Ahead(str, i, Dump(v, depth))
    ensures ParseValue(str, i) == Parsed(Rounded(v), i + |Dump(v, depth)|)
    decreases v, 0, |v.members| + 1
  {
    hide Ahead, ParseValue, Members, Skip, IsSpace, Pad, MemberOn, MembersText, Rounded;
    RoundedMembers(v);
    var m := MembersText(v, 0, depth);
    assert Dump(v, depth) == "{" + ("\n" + m);
    AheadSplit(str, i, "{", "\n" + m);
    AheadAt(str, i, "{", 0);
    ObjectStep(str, i);
    NotSpace();
    if v.members == [] {
      assert Rounded(v) == Object([]);
      ClosingText(v, depth);
      EmptyObject(str, i + 1, depth - 1);
    } else {
      var t := MemberOn(v, 0, depth);
      assert "\n" + m == "\n" + Pad(depth) + t;
      SkipPadding(str, i + 1, depth, t);
      var at := i + 2 + 2 * depth;
      NoSkip(str, at);
      MembersParse(v, 0, depth, str, at, at);
      assert Rounded(v).members[..0] == [];
    }
  }

  lemma ClosingText(v: Json, depth: nat)
    requires v.Object? && depth >= 1
    ensures MembersText(v, |v.members|, depth) == "\n" + Pad(depth - 1) + "}"
  {
  }

  lemma EmptyObject(str: string, i: nat, depth: nat)
    requires Ahead(str, i, "\n" + ("\n" + Pad(depth) + "}"))
    ensures Skip(str, i) == i + 2 + 2 * depth && i + 2 + 2 * depth < |str| && str[i + 2 + 2 * depth] == '}'
  {
    AheadSplit(str, i, "\n", "\n" + Pad(depth) + "}");
    AheadAt(str, i, "\n", 0);
    SkipPadding(str, i + 1, depth, "}");
  }

  lemma RoundedMembers(v: Json)
    requires v.Object?
    ensures Rounded(v).Object? && |Rounded(v).members| == |v.members|
    ensures forall k {:trigger v.members[k]} :: 0 <= k < |v.members| ==>
      Rounded(v).members[k] == Member(v.members[k].key, Rounded(v.members[k].value))
  {
  }

  lemma EarlierKeys(v: Json, k: nat)
    requires v.Object? && k < |v.members| && Sorted(v.members)
    ensures Rounded(v).Object? && |Rounded(v).members| == |v.members|
    ensures forall i :: 0 <= i < k ==> Less(Rounded(v).members[..k][i].key, v.members[k].key)
  {
    hide Less, Rounded;
    RoundedMembers(v);
    forall i | 0 <= i < k
      ensures Less(Rounded(v).members[..k][i].key, v.members[k].key)
    {
      assert Rounded(v).members[i].key == v.members[i].key;
    }
  }

  /** Key, colon and value of member `k`, up to where the value ends. */
  lemma {:induction false} MemberParses(v: Json, k: nat, depth: nat, str: string, i: nat, at: nat)
    requires v.Object? && k < |v.members| && depth >= 1 && Printable(v)
    requires Rounded(v).Object? && |Rounded(v).members| == |v.members|
    requires i <= |str| && Skip(str, i) == at && Ahead(str, at, MemberOn(v, k, depth))
    ensures var end := at + |v.members[k].key| + 5 + |Dump(v.members[k].value, depth + 1)|;
      && Ahead(str, end, MembersText(v, k + 1, depth)) && end <= |str|
      && (At(str, Skip(str, end)) == ',' ==>
        Members(str, i, Rounded(v).members[..k]) == Members(str, Skip(str, end) + 1, Rounded(v).members[..k + 1]))
      && (At(str, Skip(str, end)) == '}' ==>
        Members(str, i, Rounded(v).members[..k]) == Parsed(Object(Rounded(v).members[..k + 1]), Skip(str, end) + 1))
    decreases v, 0, |v.members| - k, 0
  {
    hide Ahead, ParseValue, Members, Skip, IsSpace, IsDelimiter, Dump, Pad, Insert, Less, MembersText, Rounded;
    RoundedMembers(v);
    EarlierKeys(v, k);
    var key, value := v.members[k].key, v.members[k].value;
    var d, after := Dump(value, depth + 1), MembersText(v, k + 1, depth);
    StartsVisibly(value, depth + 1);
    MemberPieces(str, at, key, d, after);
    var j := at + |key| + 2;
    var end := j + 3 + |d|;
    UnescapeThenEscape(key);
    QuotedParses(str, at, Unescape(key));
    AfterValue(v, k + 1, depth, str, end);
    ValueParses(value, depth + 1, str, j + 3);
    var rs := Rounded(v).members;
    MembersStep(str, i, rs[..k], String(Unescape(key)), j, Rounded(value), end);
    InsertLast(rs[..k], key, Rounded(value));
    assert rs[..k] + [rs[k]] == rs[..k + 1];
  }

  /** A value in an object is followed by a comma or a line break. */
  lemma AfterValue(v: Json, k: nat, depth: nat, str: string, end: nat)
    requires v.Object? && 0 < k <= |v.members| && depth >= 1 && Ahead(str, end, MembersText(v, k, depth))
    ensures end < |str| && IsDelimiter(str[end])
  {
    hide Dump, Pad;
    AheadAt(str, end, MembersText(v, k, depth), 0);
  }

  lemma NextMemberText(v: Json, k: nat, depth: nat)
    requires v.Object? && 0 < k < |v.members| && depth >= 1
    ensures MembersText(v, k, depth) == "," + ("\n" + Pad(depth) + MemberOn(v, k, depth))
  {
    hide Dump, Pad, MembersText, MemberOn;
    var t := MemberOn(v, k, depth);
    assert ",\n" + Pad(depth) + t == "," + ("\n" + Pad(depth) + t);
  }

  /** Member `k` starts at `at`, behind separator and padding. */
  lemma {:induction false} MembersParse(v: Json, k: nat, depth: nat, str: string, i: nat, at: nat)
    requires v.Object? && k < |v.members| && depth >= 1 && Printable(v)
    requires Rounded(v).Object? && |Rounded(v).members| == |v.members|
    requires i <= |str| && Skip(str, i) == at && Ahead(str, at, MemberOn(v, k, depth))
    ensures Members(str, i, Rounded(v).members[..k]) == Parsed(Rounded(v), at + |MemberOn(v, k, depth)|)
    decreases v, 0, |v.members| - k, 1
  {
    hide Ahead, Members, Skip, IsSpace, Dump, Pad, MembersText, Printable, Rounded;
    MemberParses(v, k, depth, str, i, at);
    var end := at + |v.members[k].key| + 5 + |Dump(v.members[k].value, depth + 1)|;
    NotSpace();
    if k + 1 < |v.members| {
      var t := MemberOn(v, k + 1, depth);
      var rest := "\n" + Pad(depth) + t;
      NextMemberText(v, k + 1, depth);
      AheadSplit(str, end, ",", rest);
      AheadAt(str, end, ",", 0);
      NoSkip(str, end);
      SkipPadding(str, end + 1, depth, t);
      MembersParse(v, k + 1, depth, str, end + 1, end + 2 + 2 * depth);
    } else {
      ClosingText(v, depth);
      SkipPadding(str, end, depth - 1, "}");
      assert Rounded(v).members[..k + 1] == Rounded(v).members;
    }
  }

  /** Rounding changes nothing exactly if all floating-point numbers are multiples of 10^-6. */
  lemma {:induction false} RoundedIff(v: Json)
    ensures Rounded(v) == v <==> FloatsExact(v)
  {
    hide Nearest, IsMicro;
    match v {
      case Floating(x) => NearestIff(x);
      case Array(items) =>
        forall i | 0 <= i < |items|
          ensures Rounded(items[i]) == items[i] <==> FloatsExact(items[i])
        {
          RoundedIff(items[i]);
        }
        var rs := Rounded(v).items;
        assert rs == items <==> forall i :: 0 <= i < |items| ==> rs[i] == items[i];
      case Object(ms) =>
        forall i | 0 <= i < |ms|
          ensures Rounded(ms[i].value) == ms[i].value <==> FloatsExact(ms[i].value)
        {
          RoundedIff(ms[i].value);
        }
        var rs := Rounded(v).members;
        assert rs == ms <==> forall i :: 0 <= i < |ms| ==> rs[i] == ms[i];
      case _ =>
    }
  }
}
