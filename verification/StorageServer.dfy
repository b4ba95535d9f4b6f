/**
 The upload side of the storage server, updated in place. The fields come from
 Baseline/include/clientVar.h (container, recipe buffer, recipe file, outgoing queue),
 Baseline/include/absIndex.h (index and counters) and Baseline/include/storageCore.h
 (counters); `disk` is the container directory that
 Baseline/src/Server/dataWriter.cc writes. Every method is proved against the operations
 of `DedupStore`.
 */
module StorageServer {
  import opened Sequences
  import opened Bytes
  import opened Codec
  import opened DedupStore
  import opened DedupSessions

  datatype RecipeHead = RecipeHead(fileSize: nat, totalChunkNum: nat)

  /** Messages from an uploading client: kind, item count, data section. */
  datatype ClientMessage =
    | UploadChunk(itemNum: nat, data: Data)
    | UploadRecipe(data: Data)
    | RecipeEnd(head: RecipeHead)

  /** `DataWriter::SaveToFile` for each container of `queue`, in order. */
  function WriteAll(disk: map<Name, Data>, queue: seq<Container>): map<Name, Data> {
    if queue == [] then disk else
    WriteAll(disk, queue[..|queue| - 1])[queue[|queue| - 1].name := queue[|queue| - 1].body]
  }

  /** The key recipe rows in the messages, as bytes. */
  function RecipeBytes(msgs: seq<ClientMessage>): Data {
    if msgs == [] then [] else
    RecipeBytes(msgs[..|msgs| - 1]) +
      (if msgs[|msgs| - 1].UploadRecipe? then msgs[|msgs| - 1].data else [])
  }

  lemma WriteAllSnoc(disk: map<Name, Data>, queue: seq<Container>, c: Container)
    ensures WriteAll(disk, queue + [c]) == WriteAll(disk, queue)[c.name := c.body]
  {
    assert (queue + [c])[..|queue|] == queue;
  }

  lemma DiskSnoc(files: seq<Container>, c: Container)
    ensures Disk(files + [c]) == Disk(files)[c.name := c.body]
  {
    assert (files + [c])[..|files|] == files;
  }

  lemma FlattenStep(css: seq<seq<Data>>, i: nat)
    requires i < |css|
    ensures Flatten(css[..i + 1]) == Flatten(css[..i]) + css[i]
  {
    FlattenSnoc(css[..i], css[i]);
    assert css[..i + 1] == css[..i] + [css[i]];
  }

  lemma RecipeBytesStep(msgs: seq<ClientMessage>, i: nat)
    requires i < |msgs|
    ensures RecipeBytes(msgs[..i + 1]) == RecipeBytes(msgs[..i]) + (if msgs[i].UploadRecipe? then msgs[i].data else [])
  {
    assert msgs[..i + 1][..i] == msgs[..i];
  }

  lemma NothingSent()
    ensures Flatten<Data>([]) == [] && RecipeBytes([]) == []
  {
  }

  lemma NothingPut(sv: Setup, st: Store)
    ensures PutAll(sv, st, []) == (st, [])
  {
  }

  lemma FullIffMultiple(n: nat, m: nat)
    requires 0 < n <= m
    ensures n % m == 0 <==> n == m
  {
    if n == m {
      assert n % m == 0;
    } else {
      assert n % m == n;
    }
  }

  class Server {
    const sv: Setup
    const recipeBatch: nat

    // ClientVar: the container being filled
    var containerID: Name
    const body: array<Byte>
    var currentSize: nat
    // ClientVar: recipe buffer, recipe file, key recipe file, queue to the data writer
    const entryList: array<Address>
    var recipeNum: nat
    var recipeFile: seq<Address>
    var recipeHead: RecipeHead
    var keyRecipeFile: Data
    var inputMQ: seq<Container>
    // the container directory, and how often CreateUUID was called
    var disk: map<Name, Data>
    var drawn: nat
    // PlainIndex
    var index: map<Data, Address>
    var uniqueChunkNum: nat
    var uniqueDataSize: nat
    var logicalChunkNum: nat
    var logicalDataSize: nat
    var compressedDataSize: nat
    // StorageCore
    var writtenDataSize: nat
    var writtenChunkNum: nat

    /** Every container pushed so far, oldest first. */
    ghost var files: seq<Container>

    ghost predicate Valid()
      reads this, body, entryList
    {
      && body.Length == sv.maxContainer && currentSize < body.Length
      && entryList.Length == recipeBatch && recipeNum < recipeBatch
      && WriteAll(disk, inputMQ) == Disk(files)
    }

    ghost function View(): Store
      requires Valid()
      reads this, body, entryList
    {
      Store(files, Container(containerID, body[..currentSize]), drawn, index,
        writtenDataSize, compressedDataSize, uniqueChunkNum)
    }

    /** The recipe entries of the session so far, on file and buffered. */
    ghost function Recipe(): seq<Address>
      requires Valid()
      reads this, body, entryList
    {
      recipeFile + entryList[..recipeNum]
    }

    constructor (sv: Setup, recipeBatch: nat, noAddress: Address)
      requires sv.maxContainer > 0 && recipeBatch > 0
      ensures Valid() && View() == Empty(sv) && Recipe() == [] && fresh(body) && fresh(entryList)
      ensures this.sv == sv && this.recipeBatch == recipeBatch && inputMQ == [] && disk == map[]
    {
      this.sv, this.recipeBatch := sv, recipeBatch;
      containerID, currentSize, drawn := sv.names(0), 0, 1;
      body := new Byte[sv.maxContainer](i => 0);
      entryList := new Address[recipeBatch](i => noAddress);
      recipeNum, recipeFile, recipeHead, keyRecipeFile := 0, [], RecipeHead(0, 0), [];
      inputMQ, disk, files := [], map[], [];
      index := map[];
      uniqueChunkNum, uniqueDataSize, logicalChunkNum, logicalDataSize, compressedDataSize := 0, 0, 0, 0, 0;
      writtenDataSize, writtenChunkNum := 0, 0;
    }

    /** Ocall_WriteContainer */
    method PushContainer()
      requires Valid()
      modifies this`inputMQ, this`files, this`containerID, this`currentSize, this`drawn
      ensures Valid() && View() == Flush(sv, old(View())) && Recipe() == old(Recipe())
    {
      hide WriteAll, Disk;
      var c := Container(containerID, body[..currentSize]);
      WriteAllSnoc(disk, inputMQ, c);
      DiskSnoc(files, c);
      inputMQ := inputMQ + [c];
      files := files + [c];
      containerID, drawn := sv.names(drawn), drawn + 1;
      currentSize := 0;
    }

    /** StorageCore::WriteContainer, in place in `body`. */
    method WriteContainer(data: Data) returns (a: Address)
      requires Valid() && |data| < sv.maxContainer
      modifies this`inputMQ, this`files, this`containerID, this`currentSize, this`drawn, body
      ensures Valid() && Recipe() == old(Recipe())
      ensures View() == Place(sv, old(View()), data).0.(written := old(writtenDataSize))
      ensures a == Place(sv, old(View()), data).1
    {
      hide WriteAll, Disk;
      if !(|data| + currentSize < sv.maxContainer) {
        PushContainer();
      }
      var saveOffset := currentSize;
      ghost var before := body[..currentSize];
      forall i | 0 <= i < |data| {
        body[saveOffset + i] := data[i];
      }
      currentSize := currentSize + |data|;
      assert body[..currentSize] == before + data;
      a := Address(containerID, saveOffset, |data|);
    }

    /** StorageCore::SaveChunk */
    method SaveChunk(data: Data) returns (a: Address)
      requires Valid() && |data| < sv.maxContainer
      modifies this, body
      ensures Valid() && Recipe() == old(Recipe())
      ensures unchanged(`recipeNum, `recipeFile, `recipeHead, `keyRecipeFile, `disk)
      ensures unchanged(`uniqueDataSize, `logicalChunkNum, `logicalDataSize)
      ensures View() == Place(sv, old(View()), data).0
      ensures a == Place(sv, old(View()), data).1 && writtenChunkNum == old(writtenChunkNum) + 1
    {
      hide WriteAll, Disk;
      a := WriteContainer(data);
      writtenDataSize := writtenDataSize + |data|;
      writtenChunkNum := writtenChunkNum + 1;
    }

    /** AbsIndex::ProcessUniqueChunk */
    method ProcessUniqueChunk(chunk: Data) returns (a: Address)
      requires Valid() && |Payload(sv.z, chunk)| < sv.maxContainer
      modifies this, body
      ensures Valid() && Recipe() == old(Recipe())
      ensures unchanged(`recipeNum, `recipeFile, `recipeHead, `keyRecipeFile, `disk)
      ensures unchanged(`uniqueDataSize, `logicalChunkNum, `logicalDataSize)
      ensures var p := Payload(sv.z, chunk);
        var st := old(View()).(compressed := old(compressedDataSize) + |p|);
        View() == Place(sv, st, p).0 && a == Place(sv, st, p).1
    {
      hide WriteAll, Disk, Place;
      var small := sv.z.compress(chunk);
      var stored;
      if |small| > 0 {
        compressedDataSize := compressedDataSize + |small|;
        stored := small;
      } else {
        compressedDataSize := compressedDataSize + |chunk|;
        stored := chunk;
      }
      a := SaveChunk(stored);
    }

    /** AbsIndex::UpdateFileRecipe: buffer the entry, write the buffer out when it is full. */
    method UpdateFileRecipe(a: Address)
      requires Valid()
      modifies this`recipeNum, this`recipeFile, entryList
      ensures Valid() && View() == old(View()) && Recipe() == old(Recipe()) + [a]
    {
      hide WriteAll, Disk;
      ghost var before := entryList[..recipeNum];
      entryList[recipeNum] := a;
      recipeNum := recipeNum + 1;
      assert entryList[..recipeNum] == before + [a];
      FullIffMultiple(recipeNum, recipeBatch);
      if recipeNum % recipeBatch == 0 {
        recipeFile := recipeFile + entryList[..recipeNum];
        recipeNum := 0;
      }
    }

    /** The dedup decision of ProcessOneBatch for one chunk. */
    method Locate(chunk: Data) returns (a: Address)
      requires Valid() && |Payload(sv.z, chunk)| < sv.maxContainer
      modifies this, body
      ensures Valid() && Recipe() == old(Recipe())
      ensures unchanged(`recipeNum, `recipeFile, `recipeHead, `keyRecipeFile, `disk)
      ensures unchanged(`logicalChunkNum, `logicalDataSize)
      ensures View() == Put(sv, old(View()), chunk).0 && a == Put(sv, old(View()), chunk).1
    {
      hide WriteAll, Disk, Place, Payload;
      var h := sv.z.hash(chunk);
      if h !in index {
        uniqueChunkNum := uniqueChunkNum + 1;
        uniqueDataSize := uniqueDataSize + |chunk|;
        a := ProcessUniqueChunk(chunk);
        index := index[h := a];
      } else {
        a := index[h];
      }
    }

    method ProcessChunk(chunk: Data)
      requires Valid() && |Payload(sv.z, chunk)| < sv.maxContainer
      modifies this, body, entryList
      ensures Valid() && unchanged(`recipeHead, `keyRecipeFile, `disk)
      ensures View() == Put(sv, old(View()), chunk).0
      ensures Recipe() == old(Recipe()) + [Put(sv, old(View()), chunk).1]
      ensures logicalChunkNum == old(logicalChunkNum) + 1 && logicalDataSize == old(logicalDataSize) + |chunk|
    {
      hide WriteAll, Disk, Put, Payload;
      var a := Locate(chunk);
      UpdateFileRecipe(a);
      logicalDataSize := logicalDataSize + |chunk|;
      logicalChunkNum := logicalChunkNum + 1;
    }

    /** PlainIndex::ProcessOneBatch: walk the frames of a chunk message. */
    method ProcessOneBatch(itemNum: nat, data: Data, ghost cs: seq<Data>)
      requires Valid() && Environment(sv) && AllChunks(sv.z, cs)
      requires itemNum == |cs| && Framable(cs) && data == Frames(cs)
      modifies this, body, entryList
      ensures Valid() && unchanged(`recipeHead, `keyRecipeFile, `disk)
      ensures View() == PutAll(sv, old(View()), cs).0
      ensures Recipe() == old(Recipe()) + PutAll(sv, old(View()), cs).1
      ensures logicalChunkNum == old(logicalChunkNum) + itemNum
    {
      hide Put, Payload, Environment, WriteAll, Disk, Valid, View, Recipe, ReadU32, U32, Frame;
      var currentOffset := 0;
      ghost var st, r := View(), Recipe();
      assert cs[..0] == [];
      for i := 0 to itemNum
        invariant Valid() && unchanged(`recipeHead, `keyRecipeFile, `disk)
        invariant currentOffset == |Frames(cs[..i])|
        invariant View() == PutAll(sv, st, cs[..i]).0 && Recipe() == r + PutAll(sv, st, cs[..i]).1
        invariant logicalChunkNum == old(logicalChunkNum) + i
      {
        FrameAt(cs, i);
        var size := ReadU32(data, currentOffset);
        currentOffset := currentOffset + 4;
        var chunk := data[currentOffset..currentOffset + size];
        PayloadFits(sv, cs[i]);
        ProcessChunk(chunk);
        currentOffset := currentOffset + size;
        assert cs[..i + 1][..i] == cs[..i];
      }
      assert cs[..itemNum] == cs;
    }

    /** PlainIndex::ProcessTailBatch */
    method ProcessTailBatch()
      requires Valid()
      modifies this`recipeNum, this`recipeFile
      ensures Valid() && View() == old(View()) && recipeNum == 0 && recipeFile == old(Recipe())
    {
      hide WriteAll, Disk;
      if recipeNum != 0 {
        recipeFile := recipeFile + entryList[..recipeNum];
        recipeNum := 0;
      }
    }

    /** ClientVar::InitUploadBuffer: the state of a new session. */
    method StartSession()
      requires Valid()
      modifies this`containerID, this`currentSize, this`drawn, this`recipeNum, this`recipeFile, this`keyRecipeFile
      ensures Valid() && View() == Open(sv, old(View())) && Recipe() == [] && keyRecipeFile == []
    {
      hide WriteAll, Disk;
      containerID, drawn := sv.names(drawn), drawn + 1;
      currentSize := 0;
      recipeNum, recipeFile, keyRecipeFile := 0, [], [];
      assert body[..0] == [];
    }

    /** The end of DataReceiver::Run and the drain of DataWriter::Run. */
    method FinishSession()
      requires Valid()
      modifies this`inputMQ, this`files, this`containerID, this`currentSize, this`drawn, this`disk
      ensures Valid() && View() == Close(sv, old(View())) && Recipe() == old(Recipe())
      ensures inputMQ == [] && disk == Disk(files)
    {
      if currentSize != 0 {
        PushContainer();
      } else {
        assert body[..0] == [];
      }
      Drain();
    }

    /** The loop of DataWriter::Run, which pops every container that was pushed. */
    method Drain()
      requires Valid()
      modifies this`inputMQ, this`disk
      ensures Valid() && View() == old(View()) && Recipe() == old(Recipe())
      ensures inputMQ == [] && disk == Disk(files)
    {
      ghost var all := inputMQ;
      ghost var i := 0;
      while inputMQ != []
        invariant i <= |all| && inputMQ == all[i..]
        invariant disk == WriteAll(old(disk), all[..i])
        decreases |inputMQ|
      {
        var c := inputMQ[0];
        inputMQ := inputMQ[1..];
        WriteAllSnoc(old(disk), all[..i], c);
        assert all[..i + 1] == all[..i] + [c];
        disk := disk[c.name := c.body];
        i := i + 1;
      }
      assert all[..i] == all;
    }

    /** One message of DataReceiver::Run. */
    method Handle(msg: ClientMessage, ghost cs: seq<Data>)
      requires Valid() && Environment(sv) && AllChunks(sv.z, cs) && Framable(cs)
      requires if msg.UploadChunk? then msg.itemNum == |cs| && msg.data == Frames(cs) else cs == []
      modifies this, body, entryList
      ensures Valid() && View() == PutAll(sv, old(View()), cs).0
      ensures Recipe() == old(Recipe()) + PutAll(sv, old(View()), cs).1
      ensures msg.UploadRecipe? ==> keyRecipeFile == old(keyRecipeFile) + msg.data
      ensures msg.RecipeEnd? ==> recipeNum == 0 && recipeHead == msg.head
      ensures !msg.UploadRecipe? ==> keyRecipeFile == old(keyRecipeFile)
    {
      hide Put, Environment, Frames, WriteAll, Disk;
      match msg
      case UploadChunk(itemNum, data) => ProcessOneBatch(itemNum, data, cs);
      case UploadRecipe(data) => keyRecipeFile := keyRecipeFile + data;
      case RecipeEnd(head) =>
        ProcessTailBatch();
        recipeHead := head;
    }

    /** DataReceiver::Run until the connection closes: whatever the batch boundaries, the
        recipe holds the entries of all chunks and the containers are on disk. After a recipe
        end all entries are in the recipe file; without one a rest stays in the buffer.
        `css[i]` are the chunks that message `i` carries. */
    method Receive(msgs: seq<ClientMessage>, ghost css: seq<seq<Data>>)
      requires Valid() && Environment(sv) && |css| == |msgs|
      requires forall i {:trigger css[i]} :: 0 <= i < |css| ==> AllChunks(sv.z, css[i]) && Framable(css[i])
      requires forall i {:trigger css[i]} :: 0 <= i < |css| ==>
        if msgs[i].UploadChunk? then msgs[i].itemNum == |css[i]| && msgs[i].data == Frames(css[i]) else css[i] == []
      modifies this, body, entryList
      ensures Valid() && View() == Upload(sv, old(View()), Flatten(css)).0
      ensures Recipe() == Upload(sv, old(View()), Flatten(css)).1
      ensures inputMQ == [] && disk == Disk(files) && keyRecipeFile == RecipeBytes(msgs)
      ensures msgs != [] && msgs[|msgs| - 1].RecipeEnd? ==>
        recipeFile == Recipe() && recipeNum == 0 && recipeHead == msgs[|msgs| - 1].head
    {
      hide Put, Environment, Frames, WriteAll, Disk, Close, Framable, AllChunks, PutAll, Flatten;
      hide RecipeBytes, Valid, View, Recipe;
      ghost var st := Open(sv, View());
      StartSession();
      NothingPut(sv, st);
      NothingSent();
      for i := 0 to |msgs|
        invariant Valid() && View() == PutAll(sv, st, Flatten(css[..i])).0
        invariant Recipe() == PutAll(sv, st, Flatten(css[..i])).1
        invariant keyRecipeFile == RecipeBytes(msgs[..i])
        invariant i > 0 && msgs[i - 1].RecipeEnd? ==> recipeNum == 0 && recipeHead == msgs[i - 1].head
      {
        FlattenStep(css, i);
        RecipeBytesStep(msgs, i);
        PutAllAppend(sv, st, Flatten(css[..i]), css[i]);
        Handle(msgs[i], css[i]);
      }
      assert css[..|msgs|] == css && msgs[..|msgs|] == msgs;
      FinishSession();
      RecipeOnFile();
    }

    lemma RecipeOnFile()
      requires Valid()
      ensures recipeNum == 0 ==> recipeFile == Recipe()
    {
    }
  }
}
