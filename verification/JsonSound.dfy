/**
 What every parse result satisfies, for every text, and the round-trip theorem.
 */
module JsonSound {
  import opened JsonStrings
  import opened JsonText
  import opened JsonParser
  import opened JsonNumbers
  import opened JsonRoundTrip

  // ----- the object map -----

  lemma {:induction false} LessTransitive(a: string, b: string, c: string)
    requires Less(a, b) && Less(b, c)
    ensures Less(a, c)
  {
    if a != [] && a[0] == b[0] && b[0] == c[0] {
      LessTransitive(a[1..], b[1..], c[1..]);
    }
  }

  lemma {:induction false} LessTotal(a: string, b: string)
    ensures Less(a, b) || a == b || Less(b, a)
  {
    if a != [] && b != [] && a[0] == b[0] {
      LessTotal(a[1..], b[1..]);
      assert a == [a[0]] + a[1..] && b == [b[0]] + b[1..];
    }
  }

  function AsMap(ms: seq<Member>): map<string, Json> {
    if ms == [] then map[] else AsMap(ms[1..])[ms[0].key := ms[0].value]
  }

  /** Insert is an assignment to the map. */
  lemma {:induction false} InsertIsUpdate(ms: seq<Member>, key: string, value: Json)
    ensures AsMap(Insert(ms, key, value)) == AsMap(ms)[key := value]
  {
    hide Less;
    var r := Insert(ms, key, value);
    if ms != [] && !Less(key, ms[0].key) {
      if key != ms[0].key {
        InsertIsUpdate(ms[1..], key, value);
        assert r[1..] == Insert(ms[1..], key, value);
      } else {
        assert r[1..] == ms[1..];
      }
    } else {
      assert r[1..] == ms;
    }
  }

  /** Insert keeps the order, and adds nothing but the new member. */
  lemma {:induction false} InsertKeeps(ms: seq<Member>, key: string, value: Json)
    requires Sorted(ms)
    ensures Sorted(Insert(ms, key, value))
    ensures forall m :: m in Insert(ms, key, value) ==> m == Member(key, value) || m in ms
  {
    hide Less;
    if ms != [] {
      var rest := ms[1..];
      LessTotal(key, ms[0].key);
      if Less(key, ms[0].key) {
        forall j | 0 <= j < |ms|
          ensures Less(key, ms[j].key)
        {
          if j > 0 {
            LessTransitive(key, ms[0].key, ms[j].key);
          }
        }
      } else if key != ms[0].key {
        InsertKeeps(rest, key, value);
        var r := Insert(rest, key, value);
        forall j | 0 <= j < |r|
          ensures Less(ms[0].key, r[j].key)
        {
          assert r[j] in r;
        }
        assert Insert(ms, key, value) == [ms[0]] + r;
      }
    }
  }

  // ----- every parse result -----

  ghost predicate Sound(v: Json) {
    WellFormed(v) && KeysEscaped(v)
  }

  ghost predicate AllSound(vs: seq<Json>) {
    forall i :: 0 <= i < |vs| ==> Sound(vs[i])
  }

  ghost predicate MembersSound(ms: seq<Member>) {
    Sorted(ms) && forall m {:trigger m in ms} :: m in ms ==> IsEscaped(m.key) && Sound(m.value)
  }

  lemma ArraySound(vs: seq<Json>)
    requires AllSound(vs)
    ensures Sound(Array(vs))
  {
  }

  lemma ObjectSound(ms: seq<Member>)
    requires MembersSound(ms)
    ensures Sound(Object(ms))
  {
    assert forall i :: 0 <= i < |ms| ==> ms[i] in ms;
  }

  lemma InsertSound(ms: seq<Member>, key: Json, value: Json)
    requires MembersSound(ms) && Sound(value)
    ensures MembersSound(Insert(ms, KeyText(key), value))
  {
    hide Sound, Insert;
    InsertKeeps(ms, KeyText(key), value);
    if key.String? {
      EscapeIsEscaped(key.s);
    }
  }

  lemma {:induction false} StringSound(str: string, i: nat, val: string)
    ensures var r := StringFrom(str, i, val); r.Parsed? ==> r.value.String?
    decreases |str| - i
  {
    if i < |str| {
      forall j, w | i < j <= i + 6 && StringFrom(str, i, val) == StringFrom(str, j, w)
        ensures var r := StringFrom(str, j, w); r.Parsed? ==> r.value.String?
      {
        StringSound(str, j, w);
      }
    }
  }

  lemma {:induction false} ValueSound(str: string, i: nat)
    requires i <= |str|
    ensures var r := ParseValue(str, i); r.Parsed? ==> Sound(r.value)
    decreases |str| + 1 - i, 0
  {
    hide Skip, StringFrom, ParseNumber, Items, Members, Sound;
    var c := At(str, i);
    if c == '[' {
      ArraySound([]);
      ItemsSound(str, Skip(str, i + 1), []);
    } else if c == '{' {
      ObjectSound([]);
      MembersAreSound(str, Skip(str, i + 1), []);
    } else if c == '\"' {
      StringSound(str, i + 1, "");
      ScalarsSound(ParseValue(str, i));
    } else {
      NumberSound(str, i);
      ScalarsSound(ParseValue(str, i));
    }
  }

  lemma NumberSound(str: string, i: nat)
    requires i <= |str|
    ensures var r := ParseNumber(str, i); r.Parsed? ==>
      r.value.Null? || r.value.Floating? || (r.value.Integral? && IsLong(r.value.n))
  {
  }

  lemma ScalarsSound(r: Outcome)
    ensures r.Parsed? && !r.value.Array? && !r.value.Object? && (r.value.Integral? ==> IsLong(r.value.n))
      ==> Sound(r.value)
  {
  }

  lemma {:induction false} NextSound(str: string, i: nat)
    ensures var r := ParseNext(str, i); r.Parsed? ==> Sound(r.value)
    decreases |str| + 1 - i, 1
  {
    hide Skip, ParseValue, Sound;
    if i <= |str| {
      ValueSound(str, Skip(str, i));
    }
  }

  lemma {:induction false} ItemsSound(str: string, i: nat, acc: seq<Json>)
    requires AllSound(acc)
    ensures var r := Items(str, i, acc); r.Parsed? ==> Sound(r.value)
    decreases |str| + 1 - i, 2
  {
    hide Skip, ParseNext, Sound;
    NextSound(str, i);
    var r := ParseNext(str, i);
    if r.Parsed? && r.offset <= |str| {
      var vs := acc + [r.value];
      ArraySound(vs);
      ArraySound([]);
      var o := Skip(str, r.offset);
      if At(str, o) == ',' {
        ItemsSound(str, o + 1, vs);
      }
    }
  }

  lemma {:induction false} MembersAreSound(str: string, i: nat, acc: seq<Member>)
    requires MembersSound(acc)
    ensures var r := Members(str, i, acc); r.Parsed? ==> Sound(r.value)
    decreases |str| + 1 - i, 2
  {
    hide Skip, ParseNext, Sound, Insert, KeyText, MembersSound;
    ObjectSound(acc);
    var k := ParseNext(str, i);
    if k.Parsed? && k.offset <= |str| && At(str, Skip(str, k.offset)) == ':' {
      var at := Skip(str, Skip(str, k.offset) + 1);
      NextSound(str, at);
      var r := ParseNext(str, at);
      if r.Parsed? && r.offset <= |str| {
        InsertSound(acc, k.value, r.value);
        var ms := Insert(acc, KeyText(k.value), r.value);
        ObjectSound(ms);
        var o := Skip(str, r.offset);
        if At(str, o) == ',' {
          MembersAreSound(str, o + 1, ms);
        }
      }
    }
  }

  // ----- the theorem -----

  /** A text that is only a number parses as null: its end is not a delimiter. */
  lemma BareNumberIsLost(v: Json, depth: nat)
    requires IsNumber(v) && WellFormed(v) && depth >= 1
    ensures ParseNext(Dump(v, depth), 0) == Parsed(Null, |Dump(v, depth)| + 1)
  {
    hide IntText, FloatText, Stol, Stod;
    var t := Dump(v, depth);
    if v.Integral? {
      StolOfText(v.n);
    } else {
      StodOfText(v.x);
    }
    NoSkip(t, 0);
    NumeralParses(t, 0);
    var o := NumeralEnd(t, 0);
    assert o == |t|;
  }

  /** A printed value with escaped keys that is not a bare number comes back with its
      floating-point numbers rounded, and the parser stops at the end of the text. */
  lemma ParsedBack(v: Json)
    requires WellFormed(v) && KeysEscaped(v) && !IsNumber(v)
    ensures ParseNext(Dump(v, 1), 0) == Parsed(Rounded(v), |Dump(v, 1)|)
  {
    hide ParseValue, Dump, Rounded, KeysEscaped, WellFormed;
    var t := Dump(v, 1);
    StartsVisibly(v, 1);
    NoSkip(t, 0);
    assert t[0..|t|] == t;
    ValueParses(v, 1, t, 0);
  }

  /** Parsing the printed text gives the value back and stops at its end, exactly if every
      object key is in escaped form, every floating-point number is a multiple of 10^-6, and
      the value is not a bare number. */
  lemma RoundTripIff(v: Json)
    requires WellFormed(v)
    ensures ParseNext(Dump(v, 1), 0) == Parsed(v, |Dump(v, 1)|) <==> KeysEscaped(v) && FloatsExact(v) && !IsNumber(v)
  {
    hide ParseValue, ParseNext, KeysEscaped, FloatsExact, IntText, FloatText, Rounded, WellFormed, Dump;
    if IsNumber(v) {
      BareNumberIsLost(v, 1);
    } else {
      NextSound(Dump(v, 1), 0);
      RoundedIff(v);
      if KeysEscaped(v) {
        ParsedBack(v);
      }
    }
  }
}
