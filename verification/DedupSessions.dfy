/**
 What finished upload sessions leave behind, for every sequence of uploads.
 */
module DedupSessions {
  import opened Sequences
  import opened Bytes
  import opened Codec
  import opened DedupStore

  // ----- batches of chunks -----

  lemma {:induction false} FirstStays(z: Codec, hist: seq<Data>, more: seq<Data>, h: Data)
    requires Seen(z, hist, h)
    ensures Seen(z, hist + more, h) && FirstWith(z, hist + more, h) == FirstWith(z, hist, h)
    decreases |more|
  {
    if more == [] {
      assert hist + more == hist;
    } else {
      var k := |more| - 1;
      FirstStays(z, hist, more[..k], h);
      SeenSnoc(z, hist + more[..k], more[k], h);
      assert hist + more == hist + more[..k] + [more[k]];
    }
  }

  lemma OwnHashSeen(z: Codec, hist: seq<Data>, i: nat)
    requires i < |hist|
    ensures Seen(z, hist, z.hash(hist[i]))
  {
  }

  /** Entry `j` of `recipe` leads to the oldest chunk with the fingerprint of `cs[j]`. */
  ghost predicate Leads(z: Codec, m: map<Name, Data>, hist: seq<Data>, cs: seq<Data>, recipe: seq<Address>) {
    && |recipe| == |cs|
    && forall j {:trigger recipe[j]} :: 0 <= j < |cs| ==>
         && Seen(z, hist, z.hash(cs[j]))
         && Resolves(m, recipe[j], Payload(z, FirstWith(z, hist, z.hash(cs[j]))))
  }

  lemma LeadsStays(z: Codec, m: map<Name, Data>, m': map<Name, Data>, hist: seq<Data>, more: seq<Data>,
                   cs: seq<Data>, recipe: seq<Address>)
    requires Leads(z, m, hist, cs, recipe) && Grows(m, m')
    ensures Leads(z, m', hist + more, cs, recipe)
  {
    hide Resolves, Grows, Payload;
    forall j | 0 <= j < |cs|
      ensures Seen(z, hist + more, z.hash(cs[j]))
      ensures Resolves(m', recipe[j], Payload(z, FirstWith(z, hist + more, z.hash(cs[j]))))
    {
      assert Resolves(m, recipe[j], Payload(z, FirstWith(z, hist, z.hash(cs[j]))));
      GrowsResolves(m, m', recipe[j], Payload(z, FirstWith(z, hist, z.hash(cs[j]))));
      FirstStays(z, hist, more, z.hash(cs[j]));
    }
  }

  lemma {:induction false} PutAllKeeps(sv: Setup, st: Store, hist: seq<Data>, cs: seq<Data>)
    requires Environment(sv) && StoreInv(sv, st, hist) && AllChunks(sv.z, cs)
    ensures var (s1, recipe) := PutAll(sv, st, cs);
      StoreInv(sv, s1, hist + cs) && Grows(All(st), All(s1)) && Leads(sv.z, All(s1), hist + cs, cs, recipe)
    decreases |cs|
  {
    hide StoreInv, All, Put, Grows, Resolves, Payload;
    if cs == [] {
      assert hist + cs == hist;
      GrowsRefl(All(st));
    } else {
      var k := |cs| - 1;
      var (s1, before) := PutAll(sv, st, cs[..k]);
      PutAllKeeps(sv, st, hist, cs[..k]);
      PutKeeps(sv, s1, hist + cs[..k], cs[k]);
      var (s2, a) := Put(sv, s1, cs[k]);
      assert hist + cs == hist + cs[..k] + [cs[k]];
      GrowsTrans(All(st), All(s1), All(s2));
      LeadsStays(sv.z, All(s1), All(s2), hist + cs[..k], [cs[k]], cs[..k], before);
      LastLeads(sv, s2, hist + cs, cs[k]);
      LeadsSnoc(sv.z, All(s2), hist + cs, cs, before, a);
    }
  }

  lemma LastLeads(sv: Setup, st: Store, hist: seq<Data>, c: Data)
    requires StoreInv(sv, st, hist) && hist != [] && hist[|hist| - 1] == c
    ensures sv.z.hash(c) in st.index && Seen(sv.z, hist, sv.z.hash(c))
    ensures Resolves(All(st), st.index[sv.z.hash(c)], Payload(sv.z, FirstWith(sv.z, hist, sv.z.hash(c))))
  {
    hide Resolves, Payload;
    OwnHashSeen(sv.z, hist, |hist| - 1);
  }

  lemma LeadsSnoc(z: Codec, m: map<Name, Data>, hist: seq<Data>, cs: seq<Data>, before: seq<Address>, a: Address)
    requires cs != [] && Leads(z, m, hist, cs[..|cs| - 1], before)
    requires var c := cs[|cs| - 1];
      Seen(z, hist, z.hash(c)) && Resolves(m, a, Payload(z, FirstWith(z, hist, z.hash(c))))
    ensures Leads(z, m, hist, cs, before + [a])
  {
    hide Resolves, Payload;
    var recipe := before + [a];
    forall j | 0 <= j < |cs|
      ensures Seen(z, hist, z.hash(cs[j]))
      ensures Resolves(m, recipe[j], Payload(z, FirstWith(z, hist, z.hash(cs[j]))))
    {
      if j < |before| {
        assert cs[..|cs| - 1][j] == cs[j] && recipe[j] == before[j];
      }
    }
  }

  /** Batch boundaries do not matter. */
  lemma {:induction false} PutAllAppend(sv: Setup, st: Store, a: seq<Data>, b: seq<Data>)
    ensures var (s1, ra) := PutAll(sv, st, a);
      var (s2, rb) := PutAll(sv, s1, b);
      PutAll(sv, st, a + b) == (s2, ra + rb)
    decreases |b|
  {
    hide Put;
    if b == [] {
      var ra := PutAll(sv, st, a).1;
      assert a + b == a && ra + [] == ra;
    } else {
      var k := |b| - 1;
      PutAllAppend(sv, st, a, b[..k]);
      assert (a + b)[..|a + b| - 1] == a + b[..k] && (a + b)[|a + b| - 1] == b[k];
      var (s1, ra) := PutAll(sv, st, a);
      var (s2, rb) := PutAll(sv, s1, b[..k]);
      var (s3, last) := Put(sv, s2, b[k]);
      assert ra + rb + [last] == ra + (rb + [last]);
    }
  }

  // ----- sessions -----

  /** The state between sessions. */
  ghost predicate Settled(sv: Setup, st: Store, hist: seq<Data>) {
    StoreInv(sv, st, hist) && st.cur.body == []
  }

  lemma EmptySettled(sv: Setup)
    requires Environment(sv)
    ensures Settled(sv, Empty(sv), [])
  {
  }

  lemma OpenKeeps(sv: Setup, st: Store, hist: seq<Data>)
    requires Environment(sv) && Settled(sv, st, hist)
    ensures StoreInv(sv, Open(sv, st), hist) && Grows(All(st), All(Open(sv, st)))
  {
    hide Resolves, Payload, Covered, Covers;
    var s1 := Open(sv, st);
    CurIsNew(sv, st);
    forall i | 0 <= i < |st.files|
      ensures Drawn(sv, st.files[i].name, st.drawn)
    {
      DrawnMore(sv, st.files[i].name, st.drawn - 1, st.drawn);
    }
    CurIsNew(sv, s1);
    IndexStays(sv.z, st.index, All(st), All(s1), hist);
  }

  lemma CloseKeeps(sv: Setup, st: Store, hist: seq<Data>)
    requires Environment(sv) && StoreInv(sv, st, hist)
    ensures Settled(sv, Close(sv, st), hist) && Grows(All(st), All(Close(sv, st)))
  {
    hide StoreInv, Grows;
    if st.cur.body != [] {
      FlushKeeps(sv, st, hist);
    } else {
      GrowsRefl(All(st));
    }
  }

  lemma UploadKeeps(sv: Setup, st: Store, hist: seq<Data>, cs: seq<Data>)
    requires Environment(sv) && Settled(sv, st, hist) && AllChunks(sv.z, cs)
    ensures var (s1, recipe) := Upload(sv, st, cs);
      Settled(sv, s1, hist + cs) && Grows(All(st), All(s1)) && Leads(sv.z, All(s1), hist + cs, cs, recipe)
  {
    hide StoreInv, Grows, All, PutAll, Leads, Open, Close;
    var s0 := Open(sv, st);
    OpenKeeps(sv, st, hist);
    PutAllKeeps(sv, s0, hist, cs);
    var (s1, recipe) := PutAll(sv, s0, cs);
    CloseKeeps(sv, s1, hist + cs);
    var s2 := Close(sv, s1);
    GrowsTrans(All(st), All(s0), All(s1));
    GrowsTrans(All(st), All(s1), All(s2));
    LeadsStays(sv.z, All(s1), All(s2), hist + cs, [], cs, recipe);
    assert hist + cs + [] == hist + cs;
  }

  /** Every recipe of every finished upload leads into the container files. */
  ghost predicate AllLead(sv: Setup, ups: seq<seq<Data>>) {
    var (st, recipes) := Uploads(sv, ups);
    forall i {:trigger recipes[i]} :: 0 <= i < |ups| ==>
      Leads(sv.z, Disk(st.files), Flatten(ups), ups[i], recipes[i])
  }

  predicate ChunkLists(z: Codec, ups: seq<seq<Data>>) {
    forall i {:trigger ups[i]} :: 0 <= i < |ups| ==> AllChunks(z, ups[i])
  }

  /** Bytes in the container being filled and bytes on disk, between sessions. */
  lemma SettledOnDisk(sv: Setup, st: Store, hist: seq<Data>, cs: seq<Data>, recipe: seq<Address>)
    requires Environment(sv) && Settled(sv, st, hist) && Leads(sv.z, All(st), hist, cs, recipe)
    ensures Leads(sv.z, Disk(st.files), hist, cs, recipe)
  {
    hide Payload;
    forall j | 0 <= j < |cs|
      ensures Resolves(Disk(st.files), recipe[j], Payload(sv.z, FirstWith(sv.z, hist, sv.z.hash(cs[j]))))
    {
      assert Resolves(All(st), recipe[j], Payload(sv.z, FirstWith(sv.z, hist, sv.z.hash(cs[j]))));
    }
  }

  lemma DiskIsAll(sv: Setup, st: Store, hist: seq<Data>)
    requires Environment(sv) && Settled(sv, st, hist)
    ensures Grows(Disk(st.files), All(st)) && Grows(All(st), Disk(st.files))
  {
    CurIsNew(sv, st);
  }

  lemma {:induction false} UploadsSettle(sv: Setup, ups: seq<seq<Data>>)
    requires Environment(sv) && ChunkLists(sv.z, ups)
    ensures Settled(sv, Uploads(sv, ups).0, Flatten(ups))
    decreases |ups|
  {
    hide Settled, Upload;
    if ups == [] {
      EmptySettled(sv);
    } else {
      var k := |ups| - 1;
      UploadsSettle(sv, ups[..k]);
      UploadKeeps(sv, Uploads(sv, ups[..k]).0, Flatten(ups[..k]), ups[k]);
      FlattenSnoc(ups[..k], ups[k]);
      assert ups == ups[..k] + [ups[k]];
    }
  }

  /** The tiling, the size accounting, the container sizes and the name freshness of
      `StoreInv` hold after any sequence of uploads and any part of a further one. */
  lemma EveryStateIsSound(sv: Setup, ups: seq<seq<Data>>, cs: seq<Data>)
    requires Environment(sv) && ChunkLists(sv.z, ups) && AllChunks(sv.z, cs)
    ensures StoreInv(sv, PutAll(sv, Open(sv, Uploads(sv, ups).0), cs).0, Flatten(ups) + cs)
  {
    hide StoreInv, Open, PutAll;
    UploadsSettle(sv, ups);
    var st := Uploads(sv, ups).0;
    OpenKeeps(sv, st, Flatten(ups));
    PutAllKeeps(sv, Open(sv, st), Flatten(ups), cs);
  }

  /** What an upload appends to disk leaves what is there readable at the same addresses. */
  lemma {:induction false} DiskOnlyGrows(sv: Setup, ups: seq<seq<Data>>, more: seq<seq<Data>>)
    requires Environment(sv) && ChunkLists(sv.z, ups + more)
    ensures Grows(Disk(Uploads(sv, ups).0.files), Disk(Uploads(sv, ups + more).0.files))
    ensures Uploads(sv, ups).1 <= Uploads(sv, ups + more).1
    decreases |more|
  {
    hide Upload, Grows, Disk, All, Settled;
    if more == [] {
      assert ups + more == ups;
      GrowsRefl(Disk(Uploads(sv, ups).0.files));
    } else {
      var k := |more| - 1;
      var before := ups + more[..k];
      assert (ups + more)[..|ups + more| - 1] == before && (ups + more)[|ups + more| - 1] == more[k];
      assert ChunkLists(sv.z, before) && AllChunks(sv.z, more[k]) by {
        assert forall i :: 0 <= i < |before| ==> before[i] == (ups + more)[i];
      }
      DiskOnlyGrows(sv, ups, more[..k]);
      UploadsSettle(sv, before);
      var st := Uploads(sv, before).0;
      var st' := Upload(sv, st, more[k]).0;
      UploadKeeps(sv, st, Flatten(before), more[k]);
      DiskIsAll(sv, st, Flatten(before));
      DiskIsAll(sv, st', Flatten(before) + more[k]);
      var d0, d1 := Disk(Uploads(sv, ups).0.files), Disk(st.files);
      GrowsTrans(d0, d1, All(st));
      GrowsTrans(d0, All(st), All(st'));
      GrowsTrans(d0, All(st'), Disk(st'.files));
    }
  }

  /** After any sequence of uploads, every entry of every recipe resolves, in the container
      files, to the stored form of the oldest chunk with its fingerprint. */
  lemma {:induction false} UploadsResolve(sv: Setup, ups: seq<seq<Data>>)
    requires Environment(sv) && ChunkLists(sv.z, ups)
    ensures AllLead(sv, ups)
    decreases |ups|
  {
    hide Upload, Grows, Disk, All, Settled, Leads;
    if ups != [] {
      var k := |ups| - 1;
      var past := ups[..k];
      var (s1, before) := Uploads(sv, past);
      var (s2, recipe) := Upload(sv, s1, ups[k]);
      UploadsResolve(sv, past);
      UploadsSettle(sv, past);
      UploadKeeps(sv, s1, Flatten(past), ups[k]);
      FlattenSnoc(past, ups[k]);
      assert ups == past + [ups[k]];
      SettledOnDisk(sv, s2, Flatten(ups), ups[k], recipe);
      DiskOnlyGrows(sv, past, [ups[k]]);
      var recipes := before + [recipe];
      forall i | 0 <= i < |ups|
        ensures Leads(sv.z, Disk(s2.files), Flatten(ups), ups[i], recipes[i])
      {
        if i < k {
          assert Leads(sv.z, Disk(s1.files), Flatten(past), past[i], before[i]);
          LeadsStays(sv.z, Disk(s1.files), Disk(s2.files), Flatten(past), ups[k], past[i], before[i]);
        }
      }
    }
  }

  /** No two of the chunks share a fingerprint. */
  ghost predicate NoCollisions(z: Codec, cs: seq<Data>) {
    forall i, j {:trigger z.hash(cs[i]), z.hash(cs[j])} ::
      0 <= i < |cs| && 0 <= j < |cs| && z.hash(cs[i]) == z.hash(cs[j]) ==> cs[i] == cs[j]
  }

  lemma SameHashSameChunk(z: Codec, hist: seq<Data>, i: nat, k: nat)
    requires NoCollisions(z, hist) && i < |hist| && IsFirst(z, hist, z.hash(hist[i]), k)
    ensures hist[k] == hist[i]
  {
  }

  lemma FirstIsItself(z: Codec, hist: seq<Data>, c: Data)
    requires NoCollisions(z, hist) && c in hist
    ensures Seen(z, hist, z.hash(c)) && FirstWith(z, hist, z.hash(c)) == c
  {
    hide FirstWith, Seen;
    var i :| 0 <= i < |hist| && hist[i] == c;
    OwnHashSeen(z, hist, i);
    var d := FirstWith(z, hist, z.hash(c));
    var k: nat :| IsFirst(z, hist, z.hash(c), k) && hist[k] == d;
    SameHashSameChunk(z, hist, i, k);
  }

  /** The bytes at an address. */
  function BytesAt(m: map<Name, Data>, a: Address): Data {
    if a.container in m && a.offset + a.length <= |m[a.container]|
    then m[a.container][a.offset..a.offset + a.length] else []
  }

  /** The decoder gets chunk `j` of upload `i` back exactly if no older chunk with the same
      fingerprint differs from it. */
  lemma RestoredIffFirst(sv: Setup, ups: seq<seq<Data>>, i: nat, j: nat)
    requires Environment(sv) && ChunkLists(sv.z, ups) && i < |ups| && j < |ups[i]|
    requires forall c {:trigger Recoverable(sv.z, c)} :: c in Flatten(ups) ==> Recoverable(sv.z, c)
    ensures Seen(sv.z, Flatten(ups), sv.z.hash(ups[i][j]))
    ensures var (st, recipes) := Uploads(sv, ups);
      && |recipes[i]| == |ups[i]|
      && (Recover(sv.z, BytesAt(Disk(st.files), recipes[i][j])) == ups[i][j] <==>
          FirstWith(sv.z, Flatten(ups), sv.z.hash(ups[i][j])) == ups[i][j])
  {
    hide Payload, Recover, Disk, Recoverable;
    var z, hist, c := sv.z, Flatten(ups), ups[i][j];
    UploadsResolve(sv, ups);
    var (st, recipes) := Uploads(sv, ups);
    assert Leads(z, Disk(st.files), hist, ups[i], recipes[i]);
    var a := recipes[i][j];
    var d := FirstWith(z, hist, z.hash(c));
    assert Resolves(Disk(st.files), a, Payload(z, d));
    FlattenChunks(z, ups);
    RecoveredIffRecoverable(z, d);
  }

  lemma {:induction false} FlattenChunks(z: Codec, ups: seq<seq<Data>>)
    requires ChunkLists(z, ups)
    ensures AllChunks(z, Flatten(ups))
  {
    if ups != [] {
      assert ChunkLists(z, ups[1..]) by {
        assert forall i :: 0 <= i < |ups| - 1 ==> ups[1..][i] == ups[i + 1];
      }
      FlattenChunks(z, ups[1..]);
    }
  }
}
