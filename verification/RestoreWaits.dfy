/**
 Backups whose restore never finishes, and a backup that loses a chunk: inputs on which the
 exact conditions of EndToEnd and DedupSessions fail.
 */
module RestoreWaits {
  import opened Sequences
  import opened Bytes
  import opened Codec
  import opened DedupStore
  import opened DedupSessions
  import opened DataSender
  import opened RecvDecoder
  import opened Chunker
  import opened EndToEnd

  // ----- one container for every upload -----

  ghost predicate DistinctHashes(z: Codec, cs: seq<Data>) {
    forall i, j {:trigger cs[i], cs[j]} :: 0 <= i < j < |cs| ==> z.hash(cs[i]) != z.hash(cs[j])
  }

  /** Every chunk is an upload of its own. */
  function Each(cs: seq<Data>): (r: seq<seq<Data>>)
    ensures |r| == |cs|
  {
    seq(|cs|, i requires 0 <= i < |cs| => [cs[i]])
  }

  lemma PutOne(sv: Setup, st: Store, c: Data)
    ensures PutAll(sv, st, [c]) == (Put(sv, st, c).0, [Put(sv, st, c).1])
  {
    hide Put;
    assert [c][..0] == [] && PutAll(sv, st, []) == (st, []);
    var a := Put(sv, st, c).1;
    assert [] + [a] == [a];
  }

  /** A new chunk that is uploaded alone starts the container of its session. */
  lemma NewChunkAlone(sv: Setup, st: Store, c: Data)
    requires Environment(sv) && IsChunk(sv.z, c) && sv.z.hash(c) !in st.index
    ensures var (s1, recipe) := Upload(sv, st, [c]);
      && |recipe| == 1 && recipe[0].container == sv.names(st.drawn) && s1.drawn == st.drawn + 2
      && s1.index == st.index[sv.z.hash(c) := recipe[0]]
  {
    hide Payload, Environment;
    PutOne(sv, Open(sv, st), c);
    PayloadFits(sv, c);
  }

  /** The index after an upload of its own for each of `cs`: chunk `i` is in the container
      with the name drawn for session `i`. */
  ghost predicate OwnIndex(sv: Setup, index: map<Data, Address>, cs: seq<Data>) {
    && (forall h {:trigger h in index} :: h in index <==> Seen(sv.z, cs, h))
    && (forall i {:trigger cs[i]} :: 0 <= i < |cs| ==>
          sv.z.hash(cs[i]) in index && index[sv.z.hash(cs[i])].container == sv.names(2 * i + 1))
  }

  lemma OwnIndexMore(sv: Setup, index: map<Data, Address>, cs: seq<Data>, a: Address)
    requires cs != [] && OwnIndex(sv, index, cs[..|cs| - 1]) && a.container == sv.names(2 * |cs| - 1)
    requires !Seen(sv.z, cs[..|cs| - 1], sv.z.hash(cs[|cs| - 1]))
    ensures OwnIndex(sv, index[sv.z.hash(cs[|cs| - 1]) := a], cs)
  {
    var k := |cs| - 1;
    var past, c := cs[..k], cs[k];
    var index' := index[sv.z.hash(c) := a];
    assert past + [c] == cs;
    forall h
      ensures h in index' <==> Seen(sv.z, cs, h)
    {
      SeenSnoc(sv.z, past, c, h);
    }
    forall i | 0 <= i < |cs|
      ensures sv.z.hash(cs[i]) in index' && index'[sv.z.hash(cs[i])].container == sv.names(2 * i + 1)
    {
      if i < k {
        assert past[i] == cs[i];
      }
    }
  }

  lemma LastIsNew(z: Codec, cs: seq<Data>)
    requires DistinctHashes(z, cs) && cs != []
    ensures DistinctHashes(z, cs[..|cs| - 1]) && !Seen(z, cs[..|cs| - 1], z.hash(cs[|cs| - 1]))
  {
  }

  lemma EachSnoc(sv: Setup, cs: seq<Data>)
    requires cs != []
    ensures var k := |cs| - 1;
      Uploads(sv, Each(cs)).0 == Upload(sv, Uploads(sv, Each(cs[..k])).0, [cs[k]]).0
  {
    hide Upload;
    var k := |cs| - 1;
    assert Each(cs)[..k] == Each(cs[..k]);
  }

  lemma {:induction false} OneEach(sv: Setup, cs: seq<Data>)
    requires Environment(sv) && AllChunks(sv.z, cs) && DistinctHashes(sv.z, cs)
    ensures var st := Uploads(sv, Each(cs)).0; st.drawn == 2 * |cs| + 1 && OwnIndex(sv, st.index, cs)
    decreases |cs|
  {
    hide Upload, Environment, DistinctHashes;
    if cs != [] {
      hide Uploads, OwnIndex;
      var k := |cs| - 1;
      EachSnoc(sv, cs);
      LastIsNew(sv.z, cs);
      OneEach(sv, cs[..k]);
      var st := Uploads(sv, Each(cs[..k])).0;
      assert sv.z.hash(cs[k]) !in st.index by {
        IndexKnows(sv, st.index, cs[..k], sv.z.hash(cs[k]));
      }
      NewChunkAlone(sv, st, cs[k]);
      OwnIndexMore(sv, st.index, cs, Upload(sv, st, [cs[k]]).1[0]);
    }
  }

  lemma IndexKnows(sv: Setup, index: map<Data, Address>, cs: seq<Data>, h: Data)
    requires OwnIndex(sv, index, cs)
    ensures h in index <==> Seen(sv.z, cs, h)
  {
  }

  /** Known chunks leave the store as it is and are answered from the index. */
  lemma {:induction false} KnownChunks(sv: Setup, st: Store, cs: seq<Data>)
    requires forall i {:trigger cs[i]} :: 0 <= i < |cs| ==> sv.z.hash(cs[i]) in st.index
    ensures PutAll(sv, st, cs).0 == st
    ensures forall j {:trigger cs[j]} :: 0 <= j < |cs| ==> PutAll(sv, st, cs).1[j] == st.index[sv.z.hash(cs[j])]
    decreases |cs|
  {
    if cs != [] {
      var k := |cs| - 1;
      assert forall i {:trigger cs[i]} :: 0 <= i < k ==> cs[..k][i] == cs[i];
      KnownChunks(sv, st, cs[..k]);
    }
  }

  /** After an upload of its own for each chunk, the recipe of all of them together names one
      container per chunk. */
  lemma OwnContainers(sv: Setup, cs: seq<Data>)
    requires Environment(sv) && AllChunks(sv.z, cs) && DistinctHashes(sv.z, cs)
    ensures var recipe := Uploads(sv, Each(cs) + [cs]).1[|cs|];
      |recipe| == |cs| && forall i, j :: 0 <= i < j < |recipe| ==> recipe[i].container != recipe[j].container
  {
    hide PutAll, Payload;
    var ups := Each(cs) + [cs];
    assert ups[..|cs|] == Each(cs);
    OneEach(sv, cs);
    var st := Open(sv, Uploads(sv, Each(cs)).0);
    KnownChunks(sv, st, cs);
    var recipe := PutAll(sv, st, cs).1;
    assert Uploads(sv, ups).1[|cs|] == recipe;
    forall i, j | 0 <= i < j < |recipe|
      ensures recipe[i].container != recipe[j].container
    {
      assert recipe[i] == st.index[sv.z.hash(cs[i])] && recipe[j] == st.index[sv.z.hash(cs[j])];
      assert sv.names(2 * i + 1) != sv.names(2 * j + 1);
    }
  }

  // ----- restores that wait forever -----

  /** A file of sixteen chunks, each of which was backed up as a file before: the decoder ends
      its recipe with no id in use, whatever the batch size, and the client waits. */
  lemma SixteenChunkFileWaits(cfg: Config, sv: Setup, file: Data, recipeBatch: nat)
    requires Setting(cfg, sv) && recipeBatch > 0 && |Chunks(cfg, file)| == CAP
    requires DistinctHashes(sv.z, Ciphers(sv.z, Chunks(cfg, file)))
    ensures var files := Chunks(cfg, file) + [file];
      IdCount(0, Uploads(sv, Encrypted(cfg, sv.z, files)).1[CAP], recipeBatch) == 0
  {
    hide Chunks, Uploads, IdCount;
    var z, chunks := sv.z, Chunks(cfg, file);
    var files, cs := chunks + [file], Ciphers(z, chunks);
    FileChunks(cfg, sv, file);
    var ups := Encrypted(cfg, z, files);
    forall i | 0 <= i < CAP
      ensures ups[i] == [cs[i]]
    {
      ChunkOfChunk(cfg, file, i);
      assert Ciphers(z, [chunks[i]]) == [cs[i]];
    }
    assert ups == Each(cs) + [cs];
    OwnContainers(sv, cs);
    SixteenContainers(Uploads(sv, ups).1[CAP], recipeBatch);
  }

  /** The restore of an empty file waits, whatever else was backed up. */
  lemma EmptyFileWaits(cfg: Config, sv: Setup, files: seq<Data>, k: nat, recipeBatch: nat)
    requires Setting(cfg, sv) && recipeBatch > 0 && k < |files| && files[k] == []
    ensures IdCount(0, Uploads(sv, Encrypted(cfg, sv.z, files)).1[k], recipeBatch) == 0
  {
    hide Uploads, Environment, CipherLaws, ValidConfig;
    var ups := Encrypted(cfg, sv.z, files);
    NoChunks(cfg);
    assert ups[k] == [];
    EncryptedChunks(cfg, sv, files);
    UploadsResolve(sv, ups);
    var (st, recipes) := Uploads(sv, ups);
    assert Leads(sv.z, Disk(st.files), Flatten(ups), ups[k], recipes[k]);
    NoEntries(0, recipeBatch);
  }

  // ----- concrete settings -----

  /** The identity as hash and cipher, and LZ4 that never compresses. */
  function PlainCodec(hash: Data -> Data): Codec {
    Codec(hash, (k, d) => d, (k, d) => d, d => [], d => [], 2)
  }

  function PlainSetup(hash: Data -> Data): Setup {
    Setup(PlainCodec(hash), 3, (i: nat) => seq(i, _ => 0))
  }

  lemma PlainEnvironment(hash: Data -> Data)
    ensures Environment(PlainSetup(hash)) && CipherLaws(PlainCodec(hash))
  {
    var sv := PlainSetup(hash);
    forall i: nat, j: nat | sv.names(i) == sv.names(j)
      ensures i == j
    {
      assert |sv.names(i)| == i && |sv.names(j)| == j;
    }
  }

  /** Chunks of one byte. */
  function ByteConfig(): Config {
    Config(0, 1, 2, 1, 0, 0, b => 0)
  }

  lemma {:induction false} ByteChunks(file: Data)
    ensures ValidConfig(ByteConfig()) && |Chunks(ByteConfig(), file)| == |file|
    ensures forall i :: 0 <= i < |file| ==> Chunks(ByteConfig(), file)[i] == [file[i]]
    decreases |file|
  {
    hide CutPoint;
    if file != [] {
      ZeroGearCuts(ByteConfig(), file);
      ByteChunks(file[1..]);
    }
  }

  /** All hypotheses of the end-to-end theorem hold, and yet the client waits forever, for
      every batch size of the restore. */
  lemma WaitingBackup() returns (cfg: Config, sv: Setup, files: seq<Data>, k: nat)
    ensures Setting(cfg, sv) && Distinguishable(sv.z, Flatten(Encrypted(cfg, sv.z, files)))
    ensures k < |files| && files[k] != []
    ensures forall b: nat {:trigger IdCount(0, Uploads(sv, Encrypted(cfg, sv.z, files)).1[k], b)} ::
      b > 0 ==> IdCount(0, Uploads(sv, Encrypted(cfg, sv.z, files)).1[k], b) == 0
  {
    hide Chunks, Uploads, IdCount, Encrypted, Flatten;
    cfg, sv, k := ByteConfig(), PlainSetup(d => d), CAP;
    var file: Data := seq(CAP, i requires 0 <= i < CAP => i as Byte);
    PlainEnvironment(d => d);
    ByteChunks(file);
    files := Chunks(cfg, file) + [file];
    assert DistinctHashes(sv.z, Ciphers(sv.z, Chunks(cfg, file))) by {
      var cs := Ciphers(sv.z, Chunks(cfg, file));
      forall i, j | 0 <= i < j < |cs|
        ensures sv.z.hash(cs[i]) != sv.z.hash(cs[j])
      {
        assert cs[i] == [file[i]] && cs[j] == [file[j]];
      }
    }
    forall b: nat | b > 0
      ensures IdCount(0, Uploads(sv, Encrypted(cfg, sv.z, files)).1[k], b) == 0
    {
      SixteenChunkFileWaits(cfg, sv, file, b);
    }
  }

  // ----- a lost chunk -----

  /** With a hash that gives two different chunks the same fingerprint, the second of them is
      restored as the first, although both can be decoded. */
  lemma CollisionLosesChunk() returns (sv: Setup, ups: seq<seq<Data>>)
    ensures Environment(sv) && ChunkLists(sv.z, ups) && |ups| == 2 && |ups[1]| == 1 && |Uploads(sv, ups).1[1]| == 1
    ensures forall c {:trigger Recoverable(sv.z, c)} :: c in Flatten(ups) ==> Recoverable(sv.z, c)
    ensures Recover(sv.z, BytesAt(Disk(Uploads(sv, ups).0.files), Uploads(sv, ups).1[1][0])) != ups[1][0]
  {
    hide Uploads, Disk, Recover;
    sv, ups := PlainSetup(d => []), [[[1]], [[2]]];
    PlainEnvironment(d => []);
    TwoUploads([1], [2]);
    RestoredIffFirst(sv, ups, 1, 0);
    FirstOfTwo(sv.z, [1], [2]);
  }

  lemma FirstOfTwo(z: Codec, a: Data, b: Data)
    requires z.hash(a) == z.hash(b)
    ensures Seen(z, [a, b], z.hash(a)) && FirstWith(z, [a, b], z.hash(a)) == a
  {
    hide FirstWith, Seen;
    SeenSnoc(z, [], a, z.hash(a));
    SeenSnoc(z, [a], b, z.hash(a));
    NoneSeen(z, z.hash(a));
    assert [] + [a] == [a] && [a] + [b] == [a, b];
  }

  lemma NoneSeen(z: Codec, h: Data)
    ensures !Seen(z, [], h)
  {
  }

  lemma TwoUploads(a: Data, b: Data)
    ensures Flatten([[a], [b]]) == [a, b]
  {
    FlattenOne([b]);
    assert [[a], [b]][1..] == [[b]];
  }
}
