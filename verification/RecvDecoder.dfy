/**
 The restoring server thread (Baseline/src/Server/recvDecoder.cc): recipe entries are read
 in batches, grouped until sixteen container ids are in use, fetched through the container
 cache, decoded, and sent in messages of at most `chunkBatch` chunks. Buffers are updated
 in place; `sent` is what went over the connection.
 */
module RecvDecoder {
  import opened Sequences
  import opened Bytes
  import opened Codec
  import opened Framing
  import opened DedupStore
  import opened DedupSessions
  import opened StorageServer
  import opened ReadCache

  /** CONTAINER_CAPPING_VALUE */
  const CAP: nat := 16

  /** EnclaveRecipeEntry_t: `id` is a position in the id buffer. */
  datatype Entry = Entry(id: nat, offset: nat, length: nat)

  datatype ServerMessage = RestoreChunk(itemNum: nat, data: Data) | RestoreFinal(itemNum: nat, data: Data)

  // ----- what the decoder should send -----

  function Fetch(z: Codec, disk: map<Name, Data>, a: Address): Data {
    Recover(z, BytesAt(disk, a))
  }

  function Fetched(z: Codec, disk: map<Name, Data>, recipe: seq<Address>): (r: seq<Data>)
    ensures |r| == |recipe|
  {
    seq(|recipe|, i requires 0 <= i < |recipe| => Fetch(z, disk, recipe[i]))
  }

  /** The container file is there and fits its buffer. */
  predicate Loadable(disk: map<Name, Data>, maxContainer: nat, n: Name) {
    n in disk && |disk[n]| <= maxContainer
  }

  predicate AllLoadable(disk: map<Name, Data>, maxContainer: nat, recipe: seq<Address>) {
    forall i {:trigger recipe[i]} :: 0 <= i < |recipe| ==> Loadable(disk, maxContainer, recipe[i].container)
  }

  /** The entry lies inside its container, and its chunk fits the chunk buffers. */
  predicate Proper(z: Codec, disk: map<Name, Data>, a: Address) {
    a.container in disk ==> a.offset + a.length <= |disk[a.container]| && IsChunk(z, Fetch(z, disk, a))
  }

  predicate AllProper(z: Codec, disk: map<Name, Data>, recipe: seq<Address>) {
    forall i {:trigger recipe[i]} :: 0 <= i < |recipe| ==> Proper(z, disk, recipe[i])
  }

  lemma Splits(disk: map<Name, Data>, maxContainer: nat, recipe: seq<Address>, k: nat)
    requires k <= |recipe|
    ensures AllLoadable(disk, maxContainer, recipe) <==>
      AllLoadable(disk, maxContainer, recipe[..k]) && AllLoadable(disk, maxContainer, recipe[k..])
  {
    hide Loadable;
    if AllLoadable(disk, maxContainer, recipe[..k]) && AllLoadable(disk, maxContainer, recipe[k..]) {
      forall i | 0 <= i < |recipe|
        ensures Loadable(disk, maxContainer, recipe[i].container)
      {
        assert recipe[i] == if i < k then recipe[..k][i] else recipe[k..][i - k];
      }
    }
  }

  // ----- how many ids are in use -----

  /** The id count after the entries `es` of one read batch, when `n` ids are in use and the
      containers `seen` have one already in this batch. Reaching the cap closes the group. */
  function Ids(n: nat, seen: set<Name>, es: seq<Address>): nat
    decreases |es|
  {
    if es == [] then n
    else if es[0].container in seen then Ids(n, seen, es[1..])
    else if n + 1 == CAP then Ids(0, {}, es[1..])
    else Ids(n + 1, seen + {es[0].container}, es[1..])
  }

  /** The id count after a whole recipe that is read `recipeBatch` entries at a time. */
  function IdCount(n: nat, recipe: seq<Address>, recipeBatch: nat): nat
    requires recipeBatch > 0
    decreases |recipe|
  {
    if recipe == [] then n else
    var k := if |recipe| < recipeBatch then |recipe| else recipeBatch;
    IdCount(Ids(n, {}, recipe[..k]), recipe[k..], recipeBatch)
  }

  lemma IdsStep(n: nat, seen: set<Name>, es: seq<Address>, i: nat)
    requires i < |es|
    ensures Ids(n, seen, es[i..]) ==
      if es[i].container in seen then Ids(n, seen, es[i + 1..])
      else if n + 1 == CAP then Ids(0, {}, es[i + 1..])
      else Ids(n + 1, seen + {es[i].container}, es[i + 1..])
  {
    assert es[i..][1..] == es[i + 1..];
  }

  lemma IdCountStep(n: nat, es: seq<Address>, pos: nat, k: nat, recipeBatch: nat)
    requires recipeBatch > 0 && pos < |es| && k == if |es| - pos < recipeBatch then |es| - pos else recipeBatch
    ensures IdCount(n, es[pos..], recipeBatch) == IdCount(Ids(n, {}, es[pos..pos + k]), es[pos + k..], recipeBatch)
  {
    assert es[pos..][..k] == es[pos..pos + k];
    assert es[pos..][k..] == es[pos + k..];
  }

  lemma NoneLeft(n: nat, seen: set<Name>)
    ensures Ids(n, seen, []) == n
  {
  }

  lemma NoEntries(n: nat, recipeBatch: nat)
    requires recipeBatch > 0
    ensures IdCount(n, [], recipeBatch) == n
  {
  }

  /** Entries of new, distinct containers take one id each. */
  lemma {:induction false} NewContainers(n: nat, seen: set<Name>, es: seq<Address>)
    requires n < CAP && n + |es| <= CAP
    requires forall i :: 0 <= i < |es| ==> es[i].container !in seen
    requires forall i, j :: 0 <= i < j < |es| ==> es[i].container != es[j].container
    ensures Ids(n, seen, es) == if n + |es| == CAP then 0 else n + |es|
    decreases |es|
  {
    if es != [] && n + 1 < CAP {
      NewContainers(n + 1, seen + {es[0].container}, es[1..]);
    }
  }

  /** The same over read batches of any size. */
  lemma {:induction false} DistinctContainers(n: nat, es: seq<Address>, recipeBatch: nat)
    requires recipeBatch > 0 && n < CAP && n + |es| <= CAP
    requires forall i, j :: 0 <= i < j < |es| ==> es[i].container != es[j].container
    ensures IdCount(n, es, recipeBatch) == if n + |es| == CAP then 0 else n + |es|
    decreases |es|
  {
    hide Ids;
    if es != [] {
      var k := if |es| < recipeBatch then |es| else recipeBatch;
      NewContainers(n, {}, es[..k]);
      if n + k < CAP {
        DistinctContainers(n + k, es[k..], recipeBatch);
      } else {
        NoEntries(0, recipeBatch);
      }
    }
  }

  /** A recipe of sixteen chunks in sixteen containers ends with no id in use: its last entry
      takes the sixteenth id. */
  lemma SixteenContainers(es: seq<Address>, recipeBatch: nat)
    requires recipeBatch > 0 && |es| == CAP
    requires forall i, j :: 0 <= i < j < |es| ==> es[i].container != es[j].container
    ensures IdCount(0, es, recipeBatch) == 0
  {
    DistinctContainers(0, es, recipeBatch);
  }

  /** Fewer entries than ids leave their ids in use. */
  lemma {:induction false} FewEntries(n: nat, seen: set<Name>, es: seq<Address>)
    requires n + |es| < CAP
    ensures n <= Ids(n, seen, es) <= n + |es|
    ensures es != [] && es[0].container !in seen ==> Ids(n, seen, es) > 0
    decreases |es|
  {
    if es != [] {
      FewEntries(n, seen, es[1..]);
      FewEntries(n + 1, seen + {es[0].container}, es[1..]);
    }
  }

  /** A recipe of one to fifteen entries always ends with ids in use. */
  lemma {:induction false} ShortRecipesFinish(n: nat, es: seq<Address>, recipeBatch: nat)
    requires recipeBatch > 0 && n + |es| < CAP && (n > 0 || es != [])
    ensures IdCount(n, es, recipeBatch) > 0
    decreases |es|
  {
    if es != [] {
      var k := if |es| < recipeBatch then |es| else recipeBatch;
      FewEntries(n, {}, es[..k]);
      ShortRecipesFinish(Ids(n, {}, es[..k]), es[k..], recipeBatch);
    }
  }

  // ----- buffered entries -----

  /** `e` is the buffered form of recipe entry `a`. */
  predicate Names(ids: seq<Name>, idNum: nat, e: Entry, a: Address) {
    e.id < idNum <= |ids| && ids[e.id] == a.container && e.offset == a.offset && e.length == a.length
  }

  /** Every buffered id is in use and names the container of its entry. */
  predicate AllNamed(ids: seq<Name>, idNum: nat, pending: seq<Entry>, rest: seq<Address>) {
    |pending| == |rest| && forall i {:trigger pending[i]} :: 0 <= i < |rest| ==> Names(ids, idNum, pending[i], rest[i])
  }

  lemma NamedMore(ids: seq<Name>, ids': seq<Name>, idNum: nat, idNum': nat, pending: seq<Entry>,
                  rest: seq<Address>, e: Entry, a: Address)
    requires AllNamed(ids, idNum, pending, rest) && Names(ids', idNum', e, a)
    requires idNum <= idNum' && |ids| == |ids'| && forall i :: 0 <= i < idNum && i < |ids| ==> ids'[i] == ids[i]
    ensures AllNamed(ids', idNum', pending + [e], rest + [a])
  {
    forall i | 0 <= i < |rest| + 1
      ensures Names(ids', idNum', (pending + [e])[i], (rest + [a])[i])
    {
      if i < |rest| {
        assert Names(ids, idNum, pending[i], rest[i]);
      }
    }
  }

  // ----- messages -----

  ghost predicate Delivers(batch: nat, msgs: seq<ServerMessage>, css: seq<seq<Data>>) {
    && |msgs| == |css|
    && forall i {:trigger css[i]} :: 0 <= i < |css| ==>
         0 < |css[i]| <= batch && Framable(css[i]) && msgs[i].itemNum == |css[i]| && msgs[i].data == Frames(css[i])
  }

  lemma DeliversSnoc(batch: nat, msgs: seq<ServerMessage>, css: seq<seq<Data>>, m: ServerMessage, cs: seq<Data>)
    requires Delivers(batch, msgs, css)
    requires 0 < |cs| <= batch && Framable(cs) && m.itemNum == |cs| && m.data == Frames(cs)
    ensures Delivers(batch, msgs + [m], css + [cs]) && Flatten(css + [cs]) == Flatten(css) + cs
  {
    hide Frames;
    FlattenSnoc(css, cs);
  }

  /** Only the last message may be a FINAL, and it is one iff `final`. */
  predicate EndsWithFinal(sent: seq<ServerMessage>, final: bool) {
    && (final ==> sent != [])
    && forall i :: 0 <= i < |sent| ==> (sent[i].RestoreFinal? <==> final && i == |sent| - 1)
  }

  lemma FetchedSnoc(z: Codec, disk: map<Name, Data>, recipe: seq<Address>, k: nat)
    requires k < |recipe|
    ensures Fetched(z, disk, recipe[..k + 1]) == Fetched(z, disk, recipe[..k]) + [Fetch(z, disk, recipe[k])]
  {
  }

  /** Decoding from a buffer that starts with the container's bytes. */
  lemma FetchFromBuffer(z: Codec, disk: map<Name, Data>, a: Address, buf: Data)
    requires a.container in disk && a.offset + a.length <= |disk[a.container]| && disk[a.container] <= buf
    ensures Fetch(z, disk, a) == Recover(z, buf[a.offset..a.offset + a.length])
  {
    var d := disk[a.container];
    assert buf[..|d|] == d;
    assert buf[a.offset..a.offset + a.length] == buf[..|d|][a.offset..a.offset + a.length];
  }

  class Decoder {
    const z: Codec
    const disk: map<Name, Data>
    const maxContainer: nat
    const chunkBatch: nat
    const cache: ReadCache

    const idBuffer: array<Name>
    var idNum: nat
    const containerArray: array<Data>
    var pending: seq<Entry>
    const send: array<Byte>
    var sendSize: nat
    var sendNum: nat
    var sent: seq<ServerMessage>

    /** The recipe entries taken in; the first `done` of them have been decoded. */
    ghost var recipe: seq<Address>
    ghost var done: nat
    /** The chunks carried by each message, and those in the send buffer. */
    ghost var css: seq<seq<Data>>
    ghost var unsent: seq<Data>

    /** What does not change: sizes, and which buffers are distinct. */
    ghost predicate Sizes()
    {
      && idBuffer.Length == CAP && containerArray.Length == CAP && send.Length == Capacity(z, chunkBatch)
      && chunkBatch > 0 && z.maxChunk <= U32_MAX && cache.maxContainer == maxContainer
      && containerArray != cache.pool && idBuffer != cache.pool && idBuffer != containerArray
    }

    ghost predicate BuffersOk()
      reads cache, cache.lru, cache.pool, containerArray
    {
      && cache.Valid(disk)
      && forall i :: 0 <= i < containerArray.Length ==> |containerArray[i]| == maxContainer
    }

    ghost predicate SendOk()
      reads this`unsent, this`sendNum, this`sendSize, send
    {
      && Framable(unsent) && AllChunks(z, unsent) && sendNum == |unsent|
      && sendSize <= send.Length && send[..sendSize] == Frames(unsent)
    }

    /** Sent chunks followed by the send buffer are the decoded part of the recipe. */
    ghost predicate SentOk(final: bool)
      reads this`done, this`recipe, this`sent, this`css, this`unsent
    {
      && done <= |recipe| && Delivers(chunkBatch, sent, css) && EndsWithFinal(sent, final)
      && Flatten(css) + unsent == Fetched(z, disk, recipe[..done])
    }

    /** The buffered entries are those of the recipe that are not decoded yet, every id in use
        belongs to one of them, and the containers of the decoded ones could be loaded. */
    ghost predicate PendingOk()
      reads this`done, this`recipe, this`idNum, this`pending, idBuffer
    {
      && done <= |recipe| && AllProper(z, disk, recipe) && AllLoadable(disk, maxContainer, recipe[..done])
      && AllNamed(idBuffer[..], idNum, pending, recipe[done..]) && AllUsed(idNum, pending) && idNum <= idBuffer.Length
    }

    /** The state between two recipe entries. */
    ghost predicate Valid()
      reads this, cache, cache.lru, cache.pool, idBuffer, containerArray, send
    {
      && Sizes() && BuffersOk() && SendOk() && SentOk(false) && sendNum < chunkBatch && idNum < CAP
      && PendingOk() && (idNum == 0 <==> pending == [])
    }

    /** The program has exited because a container of the recipe could not be loaded. */
    ghost predicate Exited()
      reads this, send
    {
      SendOk() && SentOk(false) && sendNum < chunkBatch && !AllLoadable(disk, maxContainer, recipe)
    }

    constructor (z: Codec, disk: map<Name, Data>, maxContainer: nat, chunkBatch: nat, cacheSize: nat)
      requires chunkBatch > 0 && cacheSize >= 1 && z.maxChunk <= U32_MAX
      ensures Valid() && recipe == [] && idNum == 0
      ensures this.z == z && this.disk == disk && this.maxContainer == maxContainer && this.chunkBatch == chunkBatch
      ensures fresh(cache) && fresh(cache.lru) && fresh(cache.pool) && fresh(idBuffer) && fresh(containerArray)
      ensures fresh(send)
    {
      this.z, this.disk, this.maxContainer, this.chunkBatch := z, disk, maxContainer, chunkBatch;
      cache := new ReadCache(cacheSize, maxContainer, disk);
      idBuffer := new Name[CAP](i => []);
      var blank := seq(maxContainer, i => 0);
      containerArray := new Data[CAP](i => blank);
      send := new Byte[Capacity(z, chunkBatch)](i => 0);
      idNum, pending, sendSize, sendNum, sent := 0, [], 0, 0, [];
      recipe, done, css, unsent := [], 0, [], [];
    }

    /** One container of GetReqContainers: from the cache if it is there, else from its file. */
    method LoadContainer(i: nat) returns (ok: bool)
      requires Sizes() && BuffersOk() && i < CAP
      modifies cache, cache.lru, cache.pool, containerArray
      ensures BuffersOk() && (ok <==> Loadable(disk, maxContainer, idBuffer[i]))
      ensures ok ==> disk[idBuffer[i]] <= containerArray[i]
      ensures forall j :: 0 <= j < CAP && j != i ==> containerArray[j] == old(containerArray[j])
    {
      hide KeySeq, SlotsOk, Overwritten, ReadCache.Valid;
      var name := idBuffer[i];
      ok := true;
      var hit := cache.ExistsInCache(name, disk);
      if hit {
        var buf := cache.ReadFromCache(name, disk);
        containerArray[i] := buf;
      } else if !Loadable(disk, maxContainer, name) {
        ok := false;
      } else {
        var n := |disk[name]|;
        containerArray[i] := Overwritten(containerArray[i], disk[name], n);
        StartsWith(disk[name], containerArray[i]);
        cache.InsertToCache(name, containerArray[i], n, disk);
      }
    }

    /** GetReqContainers: every requested buffer starts with its container's bytes, whether
        they came from the cache or from the file. */
    method GetReqContainers() returns (ok: bool)
      requires Sizes() && BuffersOk() && idNum <= CAP
      modifies cache, cache.lru, cache.pool, containerArray
      ensures BuffersOk() && (ok <==> forall i :: 0 <= i < idNum ==> Loadable(disk, maxContainer, idBuffer[i]))
      ensures ok ==> forall i :: 0 <= i < idNum ==> disk[idBuffer[i]] <= containerArray[i]
    {
      for i := 0 to idNum
        invariant BuffersOk()
        invariant forall j :: 0 <= j < i ==> Loadable(disk, maxContainer, idBuffer[j])
        invariant forall j :: 0 <= j < i ==> disk[idBuffer[j]] <= containerArray[j]
      {
        ok := LoadContainer(i);
        if !ok {
          return;
        }
      }
      ok := true;
    }

    /** RecoverOneChunk: the decoded chunk is framed at the end of the send buffer. */
    method RecoverOneChunk(stored: Data)
      requires Sizes() && BuffersOk() && SendOk() && SentOk(false) && sendNum < chunkBatch && done < |recipe|
      requires Recover(z, stored) == Fetch(z, disk, recipe[done]) && IsChunk(z, Recover(z, stored))
      modifies this`sendSize, this`sendNum, this`done, this`unsent, send
      ensures BuffersOk() && SendOk() && SentOk(false) && done == old(done) + 1 && sendNum == old(sendNum) + 1
    {
      hide Frames, Framable, Delivers, Capacity, Flatten, Fetched, Fetch, EndsWithFinal, U32;
      ghost var c := Recover(z, stored);
      UnsentMore(z, unsent, c, chunkBatch);
      FetchedSnoc(z, disk, recipe, done);
      ghost var before := send[..sendSize];
      var big := z.decompress(stored);
      if |big| > 0 {
        AppendFrame(big);
      } else {
        AppendFrame(stored);
      }
      sendNum := sendNum + 1;
      assert Flatten(css) + (unsent + [c]) == Flatten(css) + unsent + [c];
      unsent := unsent + [c];
      done := done + 1;
    }

    method AppendFrame(c: Data)
      requires |c| <= U32_MAX && sendSize + 4 + |c| <= send.Length
      modifies this`sendSize, send
      ensures sendSize == old(sendSize) + 4 + |c| && send[..sendSize] == old(send[..sendSize]) + Frame(c)
    {
      ghost var before := send[..sendSize];
      CopyTo(send, sendSize, U32(|c|));
      CopyTo(send, sendSize + 4, c);
      sendSize := sendSize + 4 + |c|;
      assert before + U32(|c|) + c == before + Frame(c);
    }

    /** SendBatchChunks, and the reset of the send buffer. */
    method SendBatchChunks(final: bool)
      requires SendOk() && SentOk(false) && 0 < sendNum <= chunkBatch
      modifies this`sent, this`css, this`unsent, this`sendSize, this`sendNum
      ensures SendOk() && SentOk(final) && sendNum == 0 && unsent == []
    {
      hide Frames, Delivers, Fetched, Flatten;
      var m := if final then RestoreFinal(sendNum, send[..sendSize]) else RestoreChunk(sendNum, send[..sendSize]);
      DeliversSnoc(chunkBatch, sent, css, m, unsent);
      sent := sent + [m];
      css := css + [unsent];
      assert Flatten(css) + [] == Flatten(css);
      unsent, sendSize, sendNum := [], 0, 0;
      assert send[..0] == [];
      NoFrames([]);
    }

    /** Every container that a buffered entry names is in its buffer. */
    ghost predicate Loaded()
      reads this`idNum, idBuffer, containerArray
    {
      idNum <= idBuffer.Length && idNum <= containerArray.Length &&
      forall i :: 0 <= i < idNum ==> idBuffer[i] in disk && disk[idBuffer[i]] <= containerArray[i]
    }

    /** One buffered entry: decode it, and send the message if it is full or the last one. */
    method RecoverEntry(e: Entry, endFlag: bool)
      requires Sizes() && BuffersOk() && SendOk() && SentOk(false) && sendNum < chunkBatch && done < |recipe|
      requires Loaded() && Names(idBuffer[..], idNum, e, recipe[done]) && Proper(z, disk, recipe[done])
      modifies this`sendSize, this`sendNum, this`done, this`unsent, this`sent, this`css, send
      ensures BuffersOk() && SendOk() && SentOk(endFlag) && sendNum < chunkBatch && done == old(done) + 1
      ensures endFlag ==> unsent == []
    {
      hide Delivers, Flatten, Fetched, Fetch, EndsWithFinal, BuffersOk, SendOk, SentOk, Capacity;
      FetchFromBuffer(z, disk, recipe[done], containerArray[e.id]);
      RecoverOneChunk(containerArray[e.id][e.offset..e.offset + e.length]);
      FullIffMultiple(sendNum, chunkBatch);
      if sendNum % chunkBatch == 0 || endFlag {
        SendBatchChunks(endFlag);
      }
    }

    /** GetReqContainers and the loop over the buffered entries: the whole recipe so far is
        decoded, unless a container cannot be loaded; then nothing more is sent. In the tail
        call the last entry closes the last message, a FINAL. */
    method RecoverPending(tail: bool) returns (ok: bool)
      requires Sizes() && BuffersOk() && SendOk() && SentOk(false) && sendNum < chunkBatch && PendingOk()
      requires idNum <= CAP && pending != []
      modifies this`sendSize, this`sendNum, this`done, this`unsent, this`sent, this`css, send
      modifies cache, cache.lru, cache.pool, containerArray
      ensures ok <==> AllLoadable(disk, maxContainer, recipe)
      ensures ok ==> BuffersOk() && SendOk() && SentOk(tail) && done == |recipe| && sendNum < chunkBatch
      ensures ok && tail ==> unsent == []
      ensures !ok ==> Exited()
    {
      hide Delivers, Flatten, Fetched, Fetch, AllProper, AllNamed, EndsWithFinal, BuffersOk, SendOk, SentOk, Capacity;
      hide Proper, Names, AllLoadable, AllUsed;
      ok := GetReqContainers();
      LoadedIff(disk, maxContainer, idBuffer[..], idNum, pending, recipe[done..]);
      Splits(disk, maxContainer, recipe, done);
      if !ok {
        return;
      }
      ghost var first := done;
      PendingCount(idBuffer[..], idNum, pending, recipe[done..]);
      for idx := 0 to |pending|
        invariant BuffersOk() && Loaded() && SendOk() && SentOk(tail && idx == |pending|) && sendNum < chunkBatch
        invariant done == first + idx <= |recipe| && (tail && idx == |pending| ==> unsent == [])
      {
        var e := pending[idx];
        PendingEntry(z, disk, idBuffer[..], idNum, pending, recipe, first, idx);
        RecoverEntry(e, tail && idx + 1 == |pending|);
      }
    }

    /** An entry of ProcessRecipeBatch is given an id and buffered; `ids` is the batch's own
        map from names to ids. */
    method BufferEntry(a: Address, ids: map<Name, nat>) returns (ids': map<Name, nat>)
      requires Sizes() && PendingOk() && idNum < CAP && (idNum == 0 <==> pending == [])
      requires Proper(z, disk, a) && MapOk(ids, idBuffer[..], idNum)
      modifies this`idNum, this`pending, this`recipe, idBuffer
      ensures PendingOk() && pending != [] && idNum > 0 && recipe == old(recipe) + [a]
      ensures MapOk(ids', idBuffer[..], idNum)
      ensures if a.container in ids then idNum == old(idNum) && ids' == ids
        else idNum == old(idNum) + 1 && ids'.Keys == ids.Keys + {a.container}
    {
      hide AllProper, AllNamed, Fetch, Capacity, AllLoadable, AllUsed, Proper;
      ghost var names, num, was := idBuffer[..], idNum, recipe;
      ids' := ids;
      var id;
      if a.container !in ids {
        id := idNum;
        ids' := ids'[a.container := idNum];
        idBuffer[idNum] := a.container;
        idNum := idNum + 1;
      } else {
        id := ids[a.container];
      }
      var e := Entry(id, a.offset, a.length);
      EntryAdded(z, disk, names, idBuffer[..], num, idNum, pending, recipe, done, e, a);
      pending := pending + [e];
      recipe := recipe + [a];
      assert recipe[..done] == was[..done];
    }

    /** One entry of ProcessRecipeBatch; taking the sixteenth id closes the group. */
    method AddEntry(a: Address, ids: map<Name, nat>) returns (ok: bool, ids': map<Name, nat>)
      requires Valid() && Proper(z, disk, a) && MapOk(ids, idBuffer[..], idNum)
      modifies this, idBuffer, send, cache, cache.lru, cache.pool, containerArray
      ensures recipe == old(recipe) + [a]
      ensures if ok then Valid() && MapOk(ids', idBuffer[..], idNum) else Exited()
      ensures ok ==> if a.container in ids then idNum == old(idNum) && ids' == ids
        else if old(idNum) + 1 == CAP then idNum == 0 && ids' == map[]
        else idNum == old(idNum) + 1 && ids'.Keys == ids.Keys + {a.container}
    {
      hide Delivers, Flatten, Fetched, Proper, AllProper, AllNamed, EndsWithFinal, BuffersOk, SendOk, Capacity;
      hide AllLoadable, AllUsed;
      ghost var was := recipe;
      ok := true;
      ids' := BufferEntry(a, ids);
      assert recipe[..done] == was[..done];
      if idNum == CAP {
        ok := RecoverPending(false);
        if !ok {
          return;
        }
        idNum, ids', pending := 0, map[], [];
        assert recipe[done..] == [] && recipe[..done] == recipe;
        NonePending(idBuffer[..]);
      }
    }

    /** ProcessRecipeBatch: the entries of one read, with a fresh map. */
    method ProcessRecipeBatch(batch: seq<Address>) returns (ok: bool)
      requires Valid() && AllProper(z, disk, batch)
      modifies this, idBuffer, send, cache, cache.lru, cache.pool, containerArray
      ensures ok ==> Valid() && recipe == old(recipe) + batch && idNum == Ids(old(idNum), {}, batch)
      ensures !ok ==> Exited() && recipe <= old(recipe) + batch
    {
      hide Valid, Proper, Ids, Exited;
      var ids: map<Name, nat> := map[];
      assert batch[0..] == batch && ids.Keys == {};
      for i := 0 to |batch|
        invariant Valid() && recipe == old(recipe) + batch[..i] && MapOk(ids, idBuffer[..], idNum)
        invariant Ids(idNum, ids.Keys, batch[i..]) == Ids(old(idNum), {}, batch)
      {
        assert batch[..i + 1] == batch[..i] + [batch[i]];
        IdsStep(idNum, ids.Keys, batch, i);
        ok, ids := AddEntry(batch[i], ids);
        if !ok {
          return;
        }
        assert ids == map[] ==> ids.Keys == {};
      }
      assert batch[..|batch|] == batch && batch[|batch|..] == [];
      NoneLeft(idNum, ids.Keys);
      ok := true;
    }

    /** ProcessRecipeTailBatch: with entries pending everything is sent, and the last message
        is the only FINAL; with none pending nothing happens. */
    method ProcessRecipeTailBatch() returns (ok: bool)
      requires Valid()
      modifies this`sendSize, this`sendNum, this`done, this`unsent, this`sent, this`css, send
      modifies cache, cache.lru, cache.pool, containerArray
      ensures ok <==> AllLoadable(disk, maxContainer, recipe)
      ensures ok ==> done == |recipe| && SentOk(old(idNum) != 0) && SendOk() && sendNum < chunkBatch
      ensures ok && old(idNum) != 0 ==> unsent == []
      ensures old(idNum) == 0 ==> sent == old(sent) && unsent == old(unsent)
      ensures !ok ==> Exited()
    {
      hide Delivers, Flatten, Fetched, AllProper, AllLoadable, BuffersOk, SendOk, Capacity, EndsWithFinal;
      ok := true;
      if |pending| != 0 {
        ok := RecoverPending(true);
      } else {
        assert recipe[..done] == recipe;
      }
    }

    /** Run on a recipe file. It exits iff some container cannot be loaded, with a part of the
        chunks sent and no FINAL. Else, exactly when ids are in use at the end, everything is
        sent and one FINAL comes last; otherwise no FINAL is sent and chunks may be unsent. */
    method Run(recipeFile: seq<Address>, recipeBatch: nat) returns (ok: bool)
      requires Valid() && recipe == [] && idNum == 0 && recipeBatch > 0 && AllProper(z, disk, recipeFile)
      modifies this, idBuffer, send, cache, cache.lru, cache.pool, containerArray
      ensures ok <==> AllLoadable(disk, maxContainer, recipeFile)
      ensures Delivers(chunkBatch, sent, css) && |unsent| < chunkBatch
      ensures Flatten(css) + unsent <= Fetched(z, disk, recipeFile)
      ensures EndsWithFinal(sent, ok && IdCount(0, recipeFile, recipeBatch) != 0)
      ensures ok ==> Flatten(css) + unsent == Fetched(z, disk, recipeFile)
      ensures ok && IdCount(0, recipeFile, recipeBatch) != 0 ==> unsent == []
    {
      hide Delivers, Flatten, Fetched, BuffersOk, Capacity, EndsWithFinal, Proper, Ids, IdCount, AllLoadable;
      hide PendingOk, Sizes;
      var pos, end := 0, false;
      assert recipeFile[0..] == recipeFile;
      while !end
        invariant 0 <= pos <= |recipeFile| && Valid() && recipe == recipeFile[..pos]
        invariant IdCount(idNum, recipeFile[pos..], recipeBatch) == IdCount(0, recipeFile, recipeBatch)
        invariant end ==> pos == |recipeFile|
        decreases !end, |recipeFile| - pos
      {
        var readCnt := if |recipeFile| - pos < recipeBatch then |recipeFile| - pos else recipeBatch;
        end := readCnt < recipeBatch;
        if readCnt == 0 {
          break;
        }
        var batch := recipeFile[pos..pos + readCnt];
        IdCountStep(idNum, recipeFile, pos, readCnt, recipeBatch);
        assert recipeFile[..pos + readCnt] == recipeFile[..pos] + batch;
        ok := ProcessRecipeBatch(batch);
        if !ok {
          PrefixDelivered(z, disk, maxContainer, recipeFile, recipe, done);
          return;
        }
        pos := pos + readCnt;
      }
      assert recipeFile[pos..] == [] && recipeFile[..pos] == recipeFile;
      NoEntries(idNum, recipeBatch);
      ok := ProcessRecipeTailBatch();
      PrefixDelivered(z, disk, maxContainer, recipeFile, recipe, done);
      assert recipe[..|recipe|] == recipe;
    }
  }

  /** What was decoded of a part of the recipe is a part of what the recipe leads to. */
  lemma PrefixDelivered(z: Codec, disk: map<Name, Data>, maxContainer: nat, file: seq<Address>,
                        recipe: seq<Address>, done: nat)
    requires recipe <= file && done <= |recipe|
    ensures Fetched(z, disk, recipe[..done]) <= Fetched(z, disk, file)
    ensures AllLoadable(disk, maxContainer, file) ==> AllLoadable(disk, maxContainer, recipe)
  {
    hide Fetch, Loadable;
    assert forall i :: 0 <= i < |recipe| ==> recipe[i] == file[i];
  }

  /** Every id in use belongs to a buffered entry. */
  ghost predicate AllUsed(idNum: nat, pending: seq<Entry>) {
    forall id {:trigger UsedBy(pending, id)} :: 0 <= id < idNum ==> UsedBy(pending, id)
  }

  ghost predicate UsedBy(pending: seq<Entry>, id: nat) {
    exists j :: 0 <= j < |pending| && pending[j].id == id
  }

  /** All requested containers can be loaded iff those of all buffered entries can. */
  lemma LoadedIff(disk: map<Name, Data>, maxContainer: nat, ids: seq<Name>, idNum: nat, pending: seq<Entry>,
                  rest: seq<Address>)
    requires AllNamed(ids, idNum, pending, rest) && AllUsed(idNum, pending) && idNum <= |ids|
    ensures (forall i :: 0 <= i < idNum ==> Loadable(disk, maxContainer, ids[i])) <==>
      AllLoadable(disk, maxContainer, rest)
  {
    hide Loadable;
    if AllLoadable(disk, maxContainer, rest) {
      forall i | 0 <= i < idNum
        ensures Loadable(disk, maxContainer, ids[i])
      {
        assert UsedBy(pending, i);
        var j :| 0 <= j < |pending| && pending[j].id == i;
        assert Names(ids, idNum, pending[j], rest[j]);
      }
    }
    if forall i :: 0 <= i < idNum ==> Loadable(disk, maxContainer, ids[i]) {
      forall j | 0 <= j < |rest|
        ensures Loadable(disk, maxContainer, rest[j].container)
      {
        assert Names(ids, idNum, pending[j], rest[j]);
      }
    }
  }

  /** The map of a read batch leads to ids in use that name the key. */
  predicate MapOk(m: map<Name, nat>, ids: seq<Name>, idNum: nat) {
    forall n {:trigger m[n]} :: n in m ==> m[n] < idNum <= |ids| && ids[m[n]] == n
  }

  lemma NonePending(ids: seq<Name>)
    ensures AllNamed(ids, 0, [], []) && AllUsed(0, [])
  {
  }

  lemma PendingCount(ids: seq<Name>, idNum: nat, pending: seq<Entry>, rest: seq<Address>)
    requires AllNamed(ids, idNum, pending, rest)
    ensures |pending| == |rest|
  {
  }

  lemma PendingEntry(z: Codec, disk: map<Name, Data>, ids: seq<Name>, idNum: nat,
                     pending: seq<Entry>, recipe: seq<Address>, done: nat, i: nat)
    requires done <= |recipe| && AllProper(z, disk, recipe)
    requires AllNamed(ids, idNum, pending, recipe[done..]) && i < |pending|
    ensures done + i < |recipe| && Proper(z, disk, recipe[done + i])
    ensures Names(ids, idNum, pending[i], recipe[done + i])
  {
    hide Proper;
    assert recipe[done..][i] == recipe[done + i];
    assert Names(ids, idNum, pending[i], recipe[done..][i]);
  }

  lemma EntryAdded(z: Codec, disk: map<Name, Data>, ids: seq<Name>, ids': seq<Name>, idNum: nat, idNum': nat,
                   pending: seq<Entry>, recipe: seq<Address>, done: nat, e: Entry, a: Address)
    requires done <= |recipe| && AllProper(z, disk, recipe) && Proper(z, disk, a)
    requires AllNamed(ids, idNum, pending, recipe[done..]) && Names(ids', idNum', e, a) && AllUsed(idNum, pending)
    requires idNum <= idNum' <= idNum + 1 && (idNum' > idNum ==> e.id == idNum)
    requires |ids| == |ids'| && forall i :: 0 <= i < idNum && i < |ids| ==> ids'[i] == ids[i]
    ensures AllProper(z, disk, recipe + [a])
    ensures AllNamed(ids', idNum', pending + [e], (recipe + [a])[done..]) && AllUsed(idNum', pending + [e])
  {
    hide Proper, Names;
    assert (recipe + [a])[done..] == recipe[done..] + [a];
    NamedMore(ids, ids', idNum, idNum', pending, recipe[done..], e, a);
    UsedMore(idNum, idNum', pending, e);
  }

  lemma UsedMore(idNum: nat, idNum': nat, pending: seq<Entry>, e: Entry)
    requires AllUsed(idNum, pending) && idNum <= idNum' <= idNum + 1 && (idNum' > idNum ==> e.id == idNum)
    ensures AllUsed(idNum', pending + [e])
  {
    var more := pending + [e];
    forall id | 0 <= id < idNum'
      ensures UsedBy(more, id)
    {
      if id < idNum {
        assert UsedBy(pending, id);
        var j :| 0 <= j < |pending| && pending[j].id == id;
        assert more[j].id == id;
      } else {
        assert more[|pending|].id == id;
      }
    }
  }

  lemma UnsentMore(z: Codec, cs: seq<Data>, c: Data, batch: nat)
    requires AllChunks(z, cs) && IsChunk(z, c) && |cs| < batch && z.maxChunk <= U32_MAX && Framable(cs)
    ensures AllChunks(z, cs + [c]) && Framable(cs + [c]) && |c| <= U32_MAX
    ensures Frames(cs + [c]) == Frames(cs) + Frame(c) && |Frames(cs)| + 4 + |c| <= Capacity(z, batch)
  {
    assert cs[0..] == cs && (cs + [c])[..|cs|] == cs;
    BufferedChunks(z, cs, 0, c, batch);
  }

  lemma StartsWith(d: Data, buf: Data)
    requires d <= buf
    ensures buf[..|d|] == d
  {
  }
}
