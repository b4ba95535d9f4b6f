/**
 The deduplicating store as values: fingerprint index, container being filled, container
 files, recipes (Baseline/src/Index/plainIndex.cc, Baseline/src/Index/absIndex.cc,
 Baseline/src/Server/storageCore.cc, Baseline/src/Server/storeOCall.cc,
 Baseline/src/Server/dataReceiver.cc).
 */
module DedupStore {
  import opened Bytes
  import opened Codec

  type Name = Data

  /** A recipe entry. */
  datatype Address = Address(container: Name, offset: nat, length: nat)

  datatype Container = Container(name: Name, body: Data)

  /** `names(i)` is what the i-th call of `CreateUUID` returns. */
  datatype Setup = Setup(z: Codec, maxContainer: nat, names: nat -> Name)

  /** `files` are the containers written out, oldest first; `cur` is the one being filled.
      The counters are `writtenDataSize_`, `_compressedDataSize` and `_uniqueChunkNum`. */
  datatype Store = Store(
    files: seq<Container>, cur: Container, drawn: nat, index: map<Data, Address>,
    written: nat, compressed: nat, uniqueNum: nat)

  ghost predicate FreshNames(sv: Setup) {
    forall i: nat, j: nat {:trigger sv.names(i), sv.names(j)} :: sv.names(i) == sv.names(j) ==> i == j
  }

  // ----- operations -----

  /** `Ocall_WriteContainer`: push the container, draw a name for the next one. */
  function Flush(sv: Setup, st: Store): Store {
    st.(files := st.files + [st.cur], cur := Container(sv.names(st.drawn), []), drawn := st.drawn + 1)
  }

  function MakeRoom(sv: Setup, st: Store, size: nat): Store {
    if size + |st.cur.body| < sv.maxContainer then st else Flush(sv, st)
  }

  /** `SaveChunk` and `WriteContainer`: where the bytes go. */
  function Place(sv: Setup, st: Store, p: Data): (Store, Address) {
    var s1 := MakeRoom(sv, st, |p|);
    (s1.(cur := s1.cur.(body := s1.cur.body + p), written := s1.written + |p|),
     Address(s1.cur.name, |s1.cur.body|, |p|))
  }

  /** One chunk of `ProcessOneBatch`. */
  function Put(sv: Setup, st: Store, c: Data): (Store, Address) {
    var h := sv.z.hash(c);
    if h in st.index then (st, st.index[h]) else
    var p := Payload(sv.z, c);
    var (s1, a) := Place(sv, st.(uniqueNum := st.uniqueNum + 1, compressed := st.compressed + |p|), p);
    (s1.(index := s1.index[h := a]), a)
  }

  function PutAll(sv: Setup, st: Store, cs: seq<Data>): (r: (Store, seq<Address>))
    ensures |r.1| == |cs|
  {
    if cs == [] then (st, []) else
    var k := |cs| - 1;
    var (s1, before) := PutAll(sv, st, cs[..k]);
    var (s2, a) := Put(sv, s1, cs[k]);
    (s2, before + [a])
  }

  /** The store before any session; between sessions `cur` is an unused container. */
  function Empty(sv: Setup): Store {
    Store([], Container(sv.names(0), []), 1, map[], 0, 0, 0)
  }

  /** A new client session starts with a container of its own. */
  function Open(sv: Setup, st: Store): Store {
    st.(cur := Container(sv.names(st.drawn), []), drawn := st.drawn + 1)
  }

  /** The end of `DataReceiver::Run`: the last container is flushed unless it is empty. */
  function Close(sv: Setup, st: Store): Store {
    if st.cur.body != [] then Flush(sv, st) else st
  }

  /** A finished upload of the chunks `cs` and its recipe. */
  function Upload(sv: Setup, st: Store, cs: seq<Data>): (Store, seq<Address>) {
    var (s1, recipe) := PutAll(sv, Open(sv, st), cs);
    (Close(sv, s1), recipe)
  }

  function Uploads(sv: Setup, ups: seq<seq<Data>>): (r: (Store, seq<seq<Address>>))
    ensures |r.1| == |ups|
  {
    if ups == [] then (Empty(sv), []) else
    var k := |ups| - 1;
    var (s1, before) := Uploads(sv, ups[..k]);
    var (s2, recipe) := Upload(sv, s1, ups[k]);
    (s2, before + [recipe])
  }

  // ----- reading back -----

  /** The container files by name, after the writes of `files` in order. */
  function Disk(files: seq<Container>): map<Name, Data> {
    if files == [] then map[] else
    Disk(files[..|files| - 1])[files[|files| - 1].name := files[|files| - 1].body]
  }

  function All(st: Store): map<Name, Data> {
    Disk(st.files)[st.cur.name := st.cur.body]
  }

  /** `a` is the address of the non-empty bytes `p`. */
  predicate Resolves(m: map<Name, Data>, a: Address, p: Data) {
    && a.container in m && a.offset + a.length <= |m[a.container]| && p != []
    && m[a.container][a.offset..a.offset + a.length] == p
  }

  /** Containers are only ever appended to. */
  ghost predicate Grows(m: map<Name, Data>, m': map<Name, Data>) {
    forall n {:trigger n in m} {:trigger n in m'} :: n in m && m[n] != [] ==> n in m' && m[n] <= m'[n]
  }

  lemma GrowsResolves(m: map<Name, Data>, m': map<Name, Data>, a: Address, p: Data)
    requires Grows(m, m') && Resolves(m, a, p)
    ensures Resolves(m', a, p)
  {
    var d, d' := m[a.container], m'[a.container];
    assert a.length == |p| > 0 && d != [];
    assert d'[a.offset..a.offset + a.length] == d'[..|d|][a.offset..a.offset + a.length];
  }

  lemma GrowsTrans(m: map<Name, Data>, m': map<Name, Data>, m'': map<Name, Data>)
    requires Grows(m, m') && Grows(m', m'')
    ensures Grows(m, m'')
  {
    forall n | n in m && m[n] != []
      ensures n in m'' && m[n] <= m''[n]
    {
      assert n in m' && m[n] <= m'[n];
      assert m'[n] != [];
      assert m''[n][..|m[n]|] == m''[n][..|m'[n]|][..|m[n]|];
    }
  }

  // ----- container names -----

  ghost predicate Drawn(sv: Setup, n: Name, k: nat) {
    exists i: nat :: i < k && sv.names(i) == n
  }

  ghost predicate NamesOk(sv: Setup, st: Store) {
    && st.drawn >= 1 && st.cur.name == sv.names(st.drawn - 1)
    && (forall i {:trigger st.files[i]} :: 0 <= i < |st.files| ==> Drawn(sv, st.files[i].name, st.drawn - 1))
    && (forall i, j :: 0 <= i < j < |st.files| ==> st.files[i].name != st.files[j].name)
  }

  lemma NotDrawn(sv: Setup, k: nat)
    requires FreshNames(sv)
    ensures !Drawn(sv, sv.names(k), k)
  {
  }

  lemma DrawnMore(sv: Setup, n: Name, k: nat, l: nat)
    requires Drawn(sv, n, k) && k <= l
    ensures Drawn(sv, n, l)
  {
  }

  lemma {:induction false} DiskNames(files: seq<Container>, n: Name)
    ensures n in Disk(files) <==> exists i :: 0 <= i < |files| && files[i].name == n
  {
    if files != [] {
      var k := |files| - 1;
      DiskNames(files[..k], n);
      if n in Disk(files) {
        if files[k].name == n {
        } else {
          var i :| 0 <= i < |files[..k]| && files[..k][i].name == n;
          assert files[i].name == n;
        }
      }
      if i :| 0 <= i < |files| && files[i].name == n {
        if i < k {
          assert files[..k][i].name == n;
        }
      }
    }
  }

  lemma CurIsNew(sv: Setup, st: Store)
    requires FreshNames(sv) && NamesOk(sv, st)
    ensures st.cur.name !in Disk(st.files)
  {
    DiskNames(st.files, st.cur.name);
    NotDrawn(sv, st.drawn - 1);
  }

  lemma FlushNames(sv: Setup, st: Store)
    requires FreshNames(sv) && NamesOk(sv, st)
    ensures NamesOk(sv, Flush(sv, st))
    ensures All(st) == Disk(Flush(sv, st).files)
    ensures Flush(sv, st).cur.name !in All(st)
    ensures All(Flush(sv, st)) == All(st)[Flush(sv, st).cur.name := []]
  {
    var s1 := Flush(sv, st);
    assert s1.files[..|s1.files| - 1] == st.files;
    forall i | 0 <= i < |s1.files|
      ensures Drawn(sv, s1.files[i].name, s1.drawn - 1)
      ensures i < |st.files| ==> s1.files[i].name != st.cur.name
    {
      NotDrawn(sv, st.drawn - 1);
      if i < |st.files| {
        DrawnMore(sv, st.files[i].name, st.drawn - 1, st.drawn);
      } else {
        assert sv.names(st.drawn - 1) == st.cur.name;
      }
    }
    CurIsNew(sv, s1);
  }

  lemma FlushGrows(sv: Setup, st: Store)
    requires FreshNames(sv) && NamesOk(sv, st)
    ensures Grows(All(st), All(Flush(sv, st)))
  {
    FlushNames(sv, st);
  }

  // ----- what every chunk keeps -----

  /** Some chunk of `hist` has fingerprint `h`. */
  ghost predicate Seen(z: Codec, hist: seq<Data>, h: Data) {
    exists i :: 0 <= i < |hist| && z.hash(hist[i]) == h
  }

  ghost predicate IsFirst(z: Codec, hist: seq<Data>, h: Data, i: nat) {
    i < |hist| && z.hash(hist[i]) == h && forall j :: 0 <= j < i ==> z.hash(hist[j]) != h
  }

  /** The oldest chunk of `hist` with fingerprint `h`. */
  ghost function FirstWith(z: Codec, hist: seq<Data>, h: Data): (c: Data)
    requires Seen(z, hist, h)
    ensures exists i: nat :: IsFirst(z, hist, h, i) && hist[i] == c
  {
    var k := |hist| - 1;
    if Seen(z, hist[..k], h)
    then
      var c := FirstWith(z, hist[..k], h);
      assert exists i: nat :: IsFirst(z, hist, h, i) && hist[i] == c by {
        var i: nat :| IsFirst(z, hist[..k], h, i) && hist[..k][i] == c;
        assert forall j :: 0 <= j <= i ==> hist[j] == hist[..k][j];
        assert IsFirst(z, hist, h, i);
      }
      c
    else
      assert forall j :: 0 <= j < k ==> z.hash(hist[..k][j]) == z.hash(hist[j]);
      assert IsFirst(z, hist, h, k);
      hist[k]
  }

  lemma SeenSnoc(z: Codec, hist: seq<Data>, c: Data, h: Data)
    ensures Seen(z, hist + [c], h) <==> Seen(z, hist, h) || z.hash(c) == h
    ensures Seen(z, hist, h) ==> FirstWith(z, hist + [c], h) == FirstWith(z, hist, h)
    ensures !Seen(z, hist, h) && z.hash(c) == h ==> FirstWith(z, hist + [c], h) == c
  {
    var hs := hist + [c];
    assert hs[..|hs| - 1] == hist;
    if Seen(z, hist, h) {
      var i :| 0 <= i < |hist| && z.hash(hist[i]) == h;
      assert hs[i] == hist[i];
    }
    if z.hash(c) == h {
      assert hs[|hist|] == c;
    }
    if Seen(z, hs, h) {
      var i :| 0 <= i < |hs| && z.hash(hs[i]) == h;
      assert i < |hist| ==> hist[i] == hs[i];
    }
  }

  predicate Fits(st: Store, maxContainer: nat) {
    && |st.cur.body| < maxContainer
    && forall i {:trigger st.files[i]} :: 0 <= i < |st.files| ==> 0 < |st.files[i].body| < maxContainer
  }

  /** The index knows exactly the fingerprints seen, and leads to the oldest such chunk. */
  ghost predicate IndexOk(z: Codec, index: map<Data, Address>, m: map<Name, Data>, hist: seq<Data>) {
    && (forall h {:trigger h in index} :: h in index <==> Seen(z, hist, h))
    && (forall h {:trigger index[h]} :: h in index ==> Resolves(m, index[h], Payload(z, FirstWith(z, hist, h))))
  }

  predicate Apart(a: Address, b: Address) {
    a.container != b.container || a.offset + a.length <= b.offset || b.offset + b.length <= a.offset
  }

  predicate Covers(a: Address, n: Name, at: nat) {
    a.container == n && a.offset <= at < a.offset + a.length
  }

  ghost predicate Covered(index: map<Data, Address>, n: Name, at: nat) {
    exists h :: h in index && Covers(index[h], n, at)
  }

  /** The stored chunks tile the containers: no overlap, no gap. */
  ghost predicate Tiled(index: map<Data, Address>, m: map<Name, Data>) {
    && (forall h, k {:trigger index[h], index[k]} :: h in index && k in index && h != k ==> Apart(index[h], index[k]))
    && (forall n, at: nat {:trigger Covered(index, n, at)} :: n in m && at < |m[n]| ==> Covered(index, n, at))
  }

  function TotalSize(files: seq<Container>): nat {
    if files == [] then 0 else TotalSize(files[..|files| - 1]) + |files[|files| - 1].body|
  }

  predicate Balanced(st: Store) {
    && st.compressed == st.written == TotalSize(st.files) + |st.cur.body|
    && st.uniqueNum == |st.index|
  }

  /** What holds after the chunks `hist`, in every session and between sessions. */
  ghost predicate StoreInv(sv: Setup, st: Store, hist: seq<Data>) {
    && NamesOk(sv, st) && Fits(st, sv.maxContainer) && Balanced(st)
    && IndexOk(sv.z, st.index, All(st), hist) && Tiled(st.index, All(st))
  }

  /** The hypotheses about the environment. A chunk is smaller than a container. */
  ghost predicate Environment(sv: Setup) {
    FreshNames(sv) && Lz4Laws(sv.z) && sv.z.maxChunk < sv.maxContainer
  }

  lemma PayloadFits(sv: Setup, c: Data)
    requires Environment(sv) && IsChunk(sv.z, c)
    ensures 0 < |Payload(sv.z, c)| < sv.maxContainer
  {
    assert |sv.z.compress(c)| > 0 ==> |sv.z.compress(c)| <= |c|;
  }

  // Flushing.

  lemma FlushKeeps(sv: Setup, st: Store, hist: seq<Data>)
    requires Environment(sv) && StoreInv(sv, st, hist) && st.cur.body != []
    ensures StoreInv(sv, Flush(sv, st), hist) && Grows(All(st), All(Flush(sv, st)))
  {
    hide Payload, Covered, FreshNames, Lz4Laws, NamesOk, IndexOk;
    var s1 := Flush(sv, st);
    FlushNames(sv, st);
    FlushGrows(sv, st);
    assert s1.files[..|s1.files| - 1] == st.files;
    IndexStays(sv.z, st.index, All(st), All(s1), hist);
  }

  lemma IndexStays(z: Codec, index: map<Data, Address>, m: map<Name, Data>, m': map<Name, Data>, hist: seq<Data>)
    requires IndexOk(z, index, m, hist) && Grows(m, m')
    ensures IndexOk(z, index, m', hist)
  {
    hide Payload, Resolves, Grows;
    forall h | h in index
      ensures Resolves(m', index[h], Payload(z, FirstWith(z, hist, h)))
    {
      GrowsResolves(m, m', index[h], Payload(z, FirstWith(z, hist, h)));
    }
  }

  // Appending to the current container.

  /** `p` appended to container `n` of `m`. */
  function Appended(m: map<Name, Data>, n: Name, p: Data): map<Name, Data>
    requires n in m
  {
    m[n := m[n] + p]
  }

  lemma AppendGrows(m: map<Name, Data>, n: Name, p: Data)
    requires n in m
    ensures Grows(m, Appended(m, n, p))
  {
  }

  lemma AppendIndexes(z: Codec, index: map<Data, Address>, m: map<Name, Data>, hist: seq<Data>, n: Name, c: Data)
    requires IndexOk(z, index, m, hist) && n in m && z.hash(c) !in index && c != []
    ensures var p := Payload(z, c);
      IndexOk(z, index[z.hash(c) := Address(n, |m[n]|, |p|)], Appended(m, n, p), hist + [c])
  {
    hide Payload, Grows;
    var p := Payload(z, c);
    var m', a, hist' := Appended(m, n, p), Address(n, |m[n]|, |p|), hist + [c];
    var index' := index[z.hash(c) := a];
    AppendGrows(m, n, p);
    forall h
      ensures h in index' <==> Seen(z, hist', h)
      ensures h in index' ==> Resolves(m', index'[h], Payload(z, FirstWith(z, hist', h)))
    {
      SeenSnoc(z, hist, c, h);
      if h == z.hash(c) {
        assert m'[n][|m[n]|..|m[n]| + |p|] == p;
      } else if h in index {
        assert Resolves(m, index[h], Payload(z, FirstWith(z, hist, h)));
        GrowsResolves(m, m', index[h], Payload(z, FirstWith(z, hist, h)));
      }
    }
  }

  /** Every address in the index lies inside its container. */
  ghost predicate Inside(index: map<Data, Address>, m: map<Name, Data>) {
    forall h {:trigger index[h]} :: h in index ==>
      index[h].container in m && index[h].offset + index[h].length <= |m[index[h].container]|
  }

  lemma AppendTiles(index: map<Data, Address>, m: map<Name, Data>, n: Name, h0: Data, p: Data)
    requires Tiled(index, m) && Inside(index, m) && n in m && h0 !in index
    ensures Tiled(index[h0 := Address(n, |m[n]|, |p|)], Appended(m, n, p))
  {
    var a := Address(n, |m[n]|, |p|);
    var index', m' := index[h0 := a], Appended(m, n, p);
    forall x, at: nat | x in m' && at < |m'[x]|
      ensures Covered(index', x, at)
    {
      if x == n && at >= |m[n]| {
        assert Covers(index'[h0], x, at);
      } else {
        assert Covered(index, x, at);
        var h :| h in index && Covers(index[h], x, at);
        assert h in index' && Covers(index'[h], x, at);
      }
    }
    forall h, k | h in index' && k in index' && h != k
      ensures Apart(index'[h], index'[k])
    {
      assert h != h0 ==> index'[h] == index[h];
      assert k != h0 ==> index'[k] == index[k];
    }
  }

  lemma IndexInside(z: Codec, index: map<Data, Address>, m: map<Name, Data>, hist: seq<Data>)
    requires IndexOk(z, index, m, hist)
    ensures Inside(index, m)
  {
  }

  /** A new chunk goes to the end of the current container, which has room for it. */
  lemma AppendKeeps(sv: Setup, st: Store, hist: seq<Data>, c: Data)
    requires Environment(sv) && StoreInv(sv, st, hist) && IsChunk(sv.z, c) && sv.z.hash(c) !in st.index
    requires |Payload(sv.z, c)| + |st.cur.body| < sv.maxContainer
    ensures StoreInv(sv, Put(sv, st, c).0, hist + [c]) && Grows(All(st), All(Put(sv, st, c).0))
  {
    hide Payload, IndexOk, Tiled, Grows;
    var p := Payload(sv.z, c);
    var s1 := Put(sv, st, c).0;
    var n := st.cur.name;
    assert s1.cur == Container(n, st.cur.body + p) && s1.files == st.files;
    assert All(s1) == Appended(All(st), n, p);
    AppendGrows(All(st), n, p);
    IndexInside(sv.z, st.index, All(st), hist);
    AppendIndexes(sv.z, st.index, All(st), hist, n, c);
    AppendTiles(st.index, All(st), n, sv.z.hash(c), p);
  }

  /** A chunk with a known fingerprint changes nothing. */
  lemma DuplicateKeeps(sv: Setup, st: Store, hist: seq<Data>, c: Data)
    requires StoreInv(sv, st, hist) && sv.z.hash(c) in st.index
    ensures StoreInv(sv, Put(sv, st, c).0, hist + [c])
  {
    hide Payload, Resolves;
    forall h
      ensures h in st.index <==> Seen(sv.z, hist + [c], h)
      ensures h in st.index ==> FirstWith(sv.z, hist + [c], h) == FirstWith(sv.z, hist, h)
    {
      SeenSnoc(sv.z, hist, c, h);
    }
  }

  lemma PutKeeps(sv: Setup, st: Store, hist: seq<Data>, c: Data)
    requires Environment(sv) && StoreInv(sv, st, hist) && IsChunk(sv.z, c)
    ensures StoreInv(sv, Put(sv, st, c).0, hist + [c])
    ensures Grows(All(st), All(Put(sv, st, c).0))
    ensures Put(sv, st, c).1 == Put(sv, st, c).0.index[sv.z.hash(c)]
  {
    hide Payload, StoreInv, Grows, All;
    if sv.z.hash(c) in st.index {
      DuplicateKeeps(sv, st, hist, c);
      GrowsRefl(All(st));
    } else if |Payload(sv.z, c)| + |st.cur.body| < sv.maxContainer {
      AppendKeeps(sv, st, hist, c);
    } else {
      PayloadFits(sv, c);
      assert st.cur.body != [];
      var s1 := Flush(sv, st);
      FlushKeeps(sv, st, hist);
      AppendKeeps(sv, s1, hist, c);
      assert Put(sv, st, c) == Put(sv, s1, c);
      GrowsTrans(All(st), All(s1), All(Put(sv, st, c).0));
    }
  }

  lemma GrowsRefl(m: map<Name, Data>)
    ensures Grows(m, m)
  {
  }
}
