/**
 The in-memory index and its file (Baseline/src/Database/inMemoryDatabase.cc): the
 destructor writes every key and value behind its length, and OpenDB reads them back until
 a length comes out as zero, which is what a read at the end of the file leaves.
 */
module IndexDump {
  import opened Bytes

  /** The lengths are of type `int`. */
  const INT_MAX: nat := 0x7FFF_FFFF

  datatype Pair = Pair(key: Data, value: Data)

  /** `pairs` lists the map in the order of its iterator. */
  ghost predicate Lists(pairs: seq<Pair>, m: map<Data, Data>) {
    && (forall i, j :: 0 <= i < j < |pairs| ==> pairs[i].key != pairs[j].key)
    && MapOf(pairs) == m
  }

  function MapOf(pairs: seq<Pair>): map<Data, Data> {
    if pairs == [] then map[] else MapOf(pairs[..|pairs| - 1])[pairs[|pairs| - 1].key := pairs[|pairs| - 1].value]
  }

  predicate Small(pairs: seq<Pair>) {
    forall i {:trigger pairs[i]} :: 0 <= i < |pairs| ==> |pairs[i].key| <= INT_MAX && |pairs[i].value| <= INT_MAX
  }

  /** Keys and values in turn. */
  function Fields(pairs: seq<Pair>): (r: seq<Data>)
    ensures |r| == 2 * |pairs|
    ensures forall i {:trigger pairs[i]} :: 0 <= i < |pairs| ==>
      r[2 * i] == pairs[i].key && r[2 * i + 1] == pairs[i].value
  {
    if pairs == [] then [] else
    var k := |pairs| - 1;
    var before := Fields(pairs[..k]);
    assert forall i {:trigger pairs[i]} :: 0 <= i < k ==> pairs[..k][i] == pairs[i];
    before + [pairs[k].key, pairs[k].value]
  }

  lemma {:induction false} FieldsFramable(pairs: seq<Pair>)
    requires Small(pairs)
    ensures Framable(Fields(pairs))
  {
    if pairs != [] {
      FieldsFramable(pairs[..|pairs| - 1]);
    }
  }

  /** The file that the destructor writes. */
  function DumpOf(pairs: seq<Pair>): Data
    requires Small(pairs)
  {
    FieldsFramable(pairs);
    Frames(Fields(pairs))
  }

  // ----- loading -----

  /** An ifstream: a read that runs into the end of the file clears `good` for all later reads. */
  datatype Input = Input(at: nat, good: bool)

  /** istream::read: the bytes that are stored, at most `n`. */
  function Get(d: Data, input: Input, n: nat): (r: (Data, Input))
    requires input.at <= |d|
    ensures |r.0| <= n && input.at <= r.1.at <= |d|
    ensures r.1.good ==> input.good && r.1.at == input.at + n
  {
    if !input.good then ([], input)
    else if input.at + n <= |d| then (d[input.at..input.at + n], Input(input.at + n, true))
    else (d[input.at..], Input(|d|, false))
  }

  /** The stored bytes replace the first bytes of a buffer. */
  function Over(buf: Data, bytes: Data): (r: Data)
    requires |bytes| <= |buf|
    ensures |r| == |buf|
  {
    bytes + buf[|bytes|..]
  }

  /** string::resize with zero bytes. */
  function Resized(s: Data, n: nat): (r: Data)
    ensures |r| == n
  {
    if n <= |s| then s[..n] else s + seq(n - |s|, i => 0)
  }

  /** Reading `itemSize`, whose bytes are `size`. */
  function ReadLength(d: Data, input: Input, size: Data): (r: (Data, Input))
    requires input.at <= |d| && |size| == 4
    ensures |r.0| == 4 && input.at <= r.1.at <= |d| && (r.1.good ==> input.good && r.1.at == input.at + 4)
  {
    var (bytes, next) := Get(d, input, 4);
    (Over(size, bytes), next)
  }

  /** Resizing the string `text` and reading into it. */
  function ReadText(d: Data, input: Input, n: nat, text: Data): (r: (Data, Input))
    requires input.at <= |d|
    ensures |r.0| == n && input.at <= r.1.at <= |d| && (r.1.good ==> input.good && r.1.at == input.at + n)
  {
    var (bytes, next) := Get(d, input, n);
    (Over(Resized(text, n), bytes), next)
  }

  const NO_SIZE: Data := [0, 0, 0, 0]

  /** `BadLength` stands for the exception of string::resize for a negative length. */
  datatype Loaded = Loaded(index: map<Data, Data>, at: nat) | BadLength

  /** The loop of OpenDB from position `at`, where the two string variables hold `key` and
      `value`; `insert` keeps an existing value. */
  function Load(d: Data, at: nat, key: Data, value: Data, m: map<Data, Data>): Loaded
    requires at <= |d|
    decreases |d| - at
  {
    var (size, in1) := ReadLength(d, Input(at, true), NO_SIZE);
    var n := ReadU32(size, 0);
    if n == 0 then Loaded(m, in1.at) else
    if n > INT_MAX then BadLength else
    var (key', in2) := ReadText(d, in1, n, key);
    var (size', in3) := ReadLength(d, in2, size);
    var n' := ReadU32(size', 0);
    if n' > INT_MAX then BadLength else
    var (value', in4) := ReadText(d, in3, n', value);
    var m' := if key' in m then m else m[key' := value'];
    if !in4.good then Loaded(m', in4.at) else Load(d, in4.at, key', value', m')
  }

  /** A whole length field and the content `c` behind it. */
  predicate HasField(d: Data, at: nat, c: Data, next: nat) {
    && next == at + 4 + |c| <= |d| && |c| <= INT_MAX
    && ReadU32(d, at) == |c| && d[at + 4..next] == c
  }

  lemma LengthRead(d: Data, at: nat, c: Data, next: nat, size: Data)
    requires HasField(d, at, c, next) && |size| == 4
    ensures var r := ReadLength(d, Input(at, true), size); ReadU32(r.0, 0) == |c| && r.1 == Input(at + 4, true)
  {
    assert Over(size, d[at..at + 4]) == d[at..at + 4];
  }

  lemma TextRead(d: Data, at: nat, c: Data, next: nat, text: Data)
    requires HasField(d, at, c, next)
    ensures ReadText(d, Input(at + 4, true), |c|, text) == (c, Input(next, true))
  {
    assert Over(Resized(text, |c|), c) == c;
  }

  /** A whole pair is inserted and the loop goes on behind it. */
  lemma LoadPair(d: Data, at: nat, key: Data, value: Data, m: map<Data, Data>, k: Data, mid: nat, v: Data, next: nat)
    requires HasField(d, at, k, mid) && HasField(d, mid, v, next) && k != []
    ensures Load(d, at, key, value, m) == Load(d, next, k, v, if k in m then m else m[k := v])
  {
    hide ReadLength, ReadText, ReadU32, HasField;
    LengthRead(d, at, k, mid, NO_SIZE);
    TextRead(d, at, k, mid, key);
    var size := ReadLength(d, Input(at, true), NO_SIZE).0;
    LengthRead(d, mid, v, next, size);
    TextRead(d, mid, v, next, value);
    FieldEnds(d, at, k, mid);
    FieldEnds(d, mid, v, next);
  }

  lemma FieldEnds(d: Data, at: nat, c: Data, next: nat)
    requires HasField(d, at, c, next)
    ensures next == at + 4 + |c| <= |d| && |c| <= INT_MAX
  {
  }

  /** At the end of the file nothing is stored over the zero length. */
  lemma LoadEnd(d: Data, key: Data, value: Data, m: map<Data, Data>)
    ensures Load(d, |d|, key, value, m) == Loaded(m, |d|)
  {
    assert d[|d|..] == [] && Over(NO_SIZE, []) == NO_SIZE;
    assert ReadU32(NO_SIZE, 0) == 0;
  }

  lemma LoadEmptyKey(d: Data, at: nat, mid: nat, key: Data, value: Data, m: map<Data, Data>)
    requires HasField(d, at, [], mid)
    ensures Load(d, at, key, value, m) == Loaded(m, mid)
  {
    hide ReadLength, ReadText;
    LengthRead(d, at, [], mid, NO_SIZE);
  }

  lemma FieldAt(pairs: seq<Pair>, j: nat)
    requires Small(pairs) && j < 2 * |pairs|
    ensures var fs := Fields(pairs);
      Framable(fs) && HasField(DumpOf(pairs), |Frames(fs[..j])|, fs[j], |Frames(fs[..j + 1])|)
  {
    hide Frames, ReadU32;
    var fs := Fields(pairs);
    FieldsFramable(pairs);
    FrameAt(fs, j);
    var i := j / 2;
    assert fs[j] == if j % 2 == 0 then pairs[i].key else pairs[i].value;
  }

  lemma {:induction false} MapOfKeys(pairs: seq<Pair>, key: Data)
    ensures key in MapOf(pairs) <==> exists i :: 0 <= i < |pairs| && pairs[i].key == key
  {
    if pairs != [] {
      var k := |pairs| - 1;
      MapOfKeys(pairs[..k], key);
      assert forall i :: 0 <= i < k ==> pairs[..k][i] == pairs[i];
      if i :| 0 <= i < |pairs| && pairs[i].key == key {
        assert i < k ==> pairs[..k][i].key == key;
      }
      if i :| 0 <= i < k && pairs[..k][i].key == key {
        assert pairs[i].key == key;
      }
    }
  }

  /** The number of pairs before the first empty key. */
  function BeforeEmptyKey(pairs: seq<Pair>): (n: nat)
    ensures n <= |pairs| && (n < |pairs| ==> pairs[n].key == [])
    ensures forall i :: 0 <= i < n ==> pairs[i].key != []
  {
    if pairs == [] || pairs[0].key == [] then 0 else 1 + BeforeEmptyKey(pairs[1..])
  }

  /** From pair `i` on, the loop loads every pair before the first empty key. */
  lemma {:induction false} LoadFrom(pairs: seq<Pair>, i: nat, d: Data, at: nat, key: Data, value: Data)
    requires Small(pairs) && i <= BeforeEmptyKey(pairs) && d == DumpOf(pairs)
    requires forall a, b :: 0 <= a < b < |pairs| ==> pairs[a].key != pairs[b].key
    requires Framable(Fields(pairs)[..2 * i]) && at == |Frames(Fields(pairs)[..2 * i])| <= |d|
    ensures var n := BeforeEmptyKey(pairs);
      var r := Load(d, at, key, value, MapOf(pairs[..i]));
      r.Loaded? && r.index == MapOf(pairs[..n]) && (r.at == |d| <==> n == |pairs|)
    decreases |pairs| - i
  {
    hide Frames, Framable, HasField, BeforeEmptyKey, DumpOf, Fields, MapOf, Load;
    var fs := Fields(pairs);
    if i == |pairs| {
      assert fs[..2 * i] == fs && pairs[..i] == pairs;
      WholeDump(pairs);
      LoadEnd(d, key, value, MapOf(pairs));
    } else {
      FieldAt(pairs, 2 * i);
      FieldAt(pairs, 2 * i + 1);
      assert fs[2 * i] == pairs[i].key && fs[2 * i + 1] == pairs[i].value;
      PrefixFramable(fs, 2 * i + 1);
      PrefixFramable(fs, 2 * (i + 1));
      var mid, next := |Frames(fs[..2 * i + 1])|, |Frames(fs[..2 * (i + 1)])|;
      assert HasField(d, at, pairs[i].key, mid) && HasField(d, mid, pairs[i].value, next);
      FieldEnds(d, mid, pairs[i].value, next);
      if pairs[i].key == [] {
        assert i == BeforeEmptyKey(pairs);
        LoadEmptyKey(d, at, mid, key, value, MapOf(pairs[..i]));
      } else {
        NextPair(pairs, i);
        LoadPair(d, at, key, value, MapOf(pairs[..i]), pairs[i].key, mid, pairs[i].value, next);
        LoadFrom(pairs, i + 1, d, next, pairs[i].key, pairs[i].value);
      }
    }
  }

  lemma WholeDump(pairs: seq<Pair>)
    requires Small(pairs)
    ensures Framable(Fields(pairs)) && DumpOf(pairs) == Frames(Fields(pairs))
  {
    FieldsFramable(pairs);
  }

  lemma PrefixFramable(fs: seq<Data>, k: nat)
    requires Framable(fs) && k <= |fs|
    ensures Framable(fs[..k])
  {
  }

  lemma NextPair(pairs: seq<Pair>, i: nat)
    requires i < |pairs| && forall a, b :: 0 <= a < b < |pairs| ==> pairs[a].key != pairs[b].key
    ensures pairs[i].key !in MapOf(pairs[..i])
    ensures MapOf(pairs[..i + 1]) == MapOf(pairs[..i])[pairs[i].key := pairs[i].value]
  {
    MapOfKeys(pairs[..i], pairs[i].key);
    assert pairs[..i + 1][..i] == pairs[..i];
  }

  /** Loading what was dumped, for every iteration order: the pairs before an empty key come
      back, and the loop stops at the end of the file iff there is no empty key. */
  lemma LoadAfterDump(pairs: seq<Pair>, m: map<Data, Data>)
    requires Small(pairs) && Lists(pairs, m)
    ensures var r := Load(DumpOf(pairs), 0, [], [], map[]);
      && r.Loaded? && r.index == MapOf(pairs[..BeforeEmptyKey(pairs)])
      && (r.at == |DumpOf(pairs)| <==> [] !in m)
  {
    hide DumpOf, Load;
    WholeDump(pairs);
    var fs := Fields(pairs);
    NoFrames(fs);
    LoadFrom(pairs, 0, DumpOf(pairs), 0, [], []);
    MapOfKeys(pairs, []);
  }

  /** The same map comes back exactly if no key is empty. */
  lemma RebuiltIffNoEmptyKey(pairs: seq<Pair>, m: map<Data, Data>)
    requires Small(pairs) && Lists(pairs, m)
    ensures Load(DumpOf(pairs), 0, [], [], map[]) == Loaded(m, |DumpOf(pairs)|) <==> [] !in m
    ensures Load(DumpOf(pairs), 0, [], [], map[]).Loaded?
    ensures Load(DumpOf(pairs), 0, [], [], map[]).index == m <==> [] !in m
  {
    hide DumpOf, Load;
    LoadAfterDump(pairs, m);
    var n := BeforeEmptyKey(pairs);
    MapOfKeys(pairs, []);
    MapOfKeys(pairs[..n], []);
    assert n == |pairs| ==> pairs[..n] == pairs;
  }

  // ----- the object -----

  class InMemoryDatabase {
    var indexObj: map<Data, Data>

    constructor ()
      ensures indexObj == map[]
    {
      indexObj := map[];
    }

    /** The destructor's loop; `pairs` is the order of the iterator. */
    method Persist(pairs: seq<Pair>) returns (dbFile: Data)
      requires Lists(pairs, indexObj) && Small(pairs)
      ensures dbFile == DumpOf(pairs)
    {
      hide Frames, Framable, Frame, U32;
      dbFile := [];
      WholeDump(pairs[..0]);
      NoFrames(Fields(pairs[..0]));
      for i := 0 to |pairs|
        invariant dbFile == DumpOf(pairs[..i])
      {
        DumpStep(pairs, i);
        dbFile := dbFile + U32(|pairs[i].key|);
        dbFile := dbFile + pairs[i].key;
        dbFile := dbFile + U32(|pairs[i].value|);
        dbFile := dbFile + pairs[i].value;
      }
      assert pairs[..|pairs|] == pairs;
    }

    /** OpenDB on the file's bytes, whatever they are: a file that ends inside a pair leaves
        a last pair of what was read over the strings of the pair before. */
    method OpenDB(dbFile: Data) returns (r: Loaded)
      modifies this
      ensures r == Load(dbFile, 0, [], [], old(indexObj)) && (r.Loaded? ==> indexObj == r.index)
    {
      hide ReadLength, ReadText, ReadU32;
      var input := Input(0, true);
      var key, value: Data := [], [];
      while input.good
        invariant input.at <= |dbFile|
        invariant Load(dbFile, 0, [], [], old(indexObj)) ==
          if input.good then Load(dbFile, input.at, key, value, indexObj) else Loaded(indexObj, input.at)
        decreases input.good, |dbFile| - input.at
      {
        var (size, in1) := ReadLength(dbFile, input, NO_SIZE);
        if ReadU32(size, 0) == 0 {
          input := in1;
          break;
        }
        if ReadU32(size, 0) > INT_MAX {
          return BadLength;
        }
        var (key', in2) := ReadText(dbFile, in1, ReadU32(size, 0), key);
        var (size', in3) := ReadLength(dbFile, in2, size);
        if ReadU32(size', 0) > INT_MAX {
          return BadLength;
        }
        var (value', in4) := ReadText(dbFile, in3, ReadU32(size', 0), value);
        key, value, input := key', value', in4;
        if key !in indexObj {
          indexObj := indexObj[key := value];
        }
      }
      r := Loaded(indexObj, input.at);
    }
  }

  lemma DumpStep(pairs: seq<Pair>, i: nat)
    requires Small(pairs) && i < |pairs|
    ensures Small(pairs[..i]) && Small(pairs[..i + 1])
    ensures DumpOf(pairs[..i + 1]) ==
      DumpOf(pairs[..i]) + U32(|pairs[i].key|) + pairs[i].key + U32(|pairs[i].value|) + pairs[i].value
  {
    hide Frames, Framable, U32;
    var a, b := pairs[..i], pairs[..i + 1];
    assert b[..i] == a;
    WholeDump(a);
    WholeDump(b);
    var fs, k := Fields(a), |Fields(a)|;
    var gs := Fields(b);
    assert gs == fs + [pairs[i].key, pairs[i].value];
    FramesStep(gs, k);
    FramesStep(gs, k + 1);
    assert gs[..k] == fs && gs[..k + 2] == gs;
  }
}
