/**
 The restoring client (Baseline/src/Client/dataRetriever.cc): it decrypts every received
 chunk with the next key of its key recipe file, until a FINAL message.
 */
module DataRetriever {
  import opened Sequences
  import opened Bytes
  import opened Codec
  import opened StorageServer
  import opened DataSender
  import opened RecvDecoder

  /** How `Run` ends: `Waiting` stands for blocking in ReceiveData after the last message. */
  datatype Status = Finished | CountMismatch | Waiting

  function Decrypted(z: Codec, keys: seq<Data>, cs: seq<Data>): (r: seq<Data>)
    requires |cs| <= |keys|
    ensures |r| == |cs|
  {
    seq(|cs|, i requires 0 <= i < |cs| => z.decrypt(keys[i], cs[i]))
  }

  /** Decrypting a prefix of the ciphertexts with the recorded keys. */
  lemma DecryptedPrefix(z: Codec, cs: seq<Data>, es: seq<Data>)
    requires CipherLaws(z) && es <= Ciphers(z, cs)
    ensures Decrypted(z, Keys(z, cs), es) == cs[..|es|]
  {
    forall i | 0 <= i < |es|
      ensures z.decrypt(z.hash(cs[i]), es[i]) == cs[i]
    {
      assert es[i] == Ciphers(z, cs)[i] == z.encrypt(z.hash(cs[i]), cs[i]);
    }
  }

  /** The chunks up to and including the first FINAL message. */
  function UntilFinal(msgs: seq<ServerMessage>): (n: nat)
    ensures n <= |msgs|
    ensures forall i :: 0 <= i < n - 1 ==> msgs[i].RestoreChunk?
    ensures n < |msgs| ==> n > 0 && msgs[n - 1].RestoreFinal?
  {
    if msgs == [] then 0 else if msgs[0].RestoreFinal? then 1 else 1 + UntilFinal(msgs[1..])
  }

  /** `out` are the chunks `got`, decrypted in order as far as there are keys. */
  ghost predicate DecryptedSoFar(z: Codec, keys: seq<Data>, got: seq<Data>, out: seq<Data>) {
    |out| == |got| && forall i {:trigger out[i]} :: 0 <= i < |got| && i < |keys| ==>
      out[i] == z.decrypt(keys[i], got[i])
  }

  lemma EnoughKeys(z: Codec, keys: seq<Data>, got: seq<Data>, out: seq<Data>)
    requires DecryptedSoFar(z, keys, got, out) && |got| <= |keys|
    ensures out == Decrypted(z, keys, got)
  {
  }

  function Least(a: nat, b: nat): nat {
    if a <= b then a else b
  }

  class Retriever {
    const z: Codec
    const keyRecipeFile: seq<Data>
    const fileRecipeHead: RecipeHead
    /** readKeyBuffer_: what a read does not fill keeps the keys of the batch before. */
    var readKeyBuffer: seq<Data>
    /** How many keys have been read. */
    var keysRead: nat
    var outputMQ: seq<Data>
    var done: bool
    var totalRecvChunkNum: nat
    var totalRecvDataSize: nat

    /** `got` are the chunks received so far. */
    ghost predicate Valid(got: seq<Data>)
      reads this
    {
      && totalRecvChunkNum == |got| && keysRead == Least(|got|, |keyRecipeFile|)
      && DecryptedSoFar(z, keyRecipeFile, got, outputMQ) && totalRecvDataSize == |Flatten(got)|
    }

    /** `junk` is what the allocated key buffer holds at first. */
    constructor (z: Codec, keyRecipeFile: seq<Data>, head: RecipeHead, junk: seq<Data>)
      ensures Valid([]) && this.z == z && this.keyRecipeFile == keyRecipeFile && fileRecipeHead == head && !done
      ensures readKeyBuffer == junk
    {
      this.z, this.keyRecipeFile, fileRecipeHead, readKeyBuffer := z, keyRecipeFile, head, junk;
      keysRead, outputMQ, done, totalRecvChunkNum, totalRecvDataSize := 0, [], false, 0, 0;
    }

    /** ProcessChunkBatch on a message that carries `cs`: the i-th chunk received so far is
        decrypted with the i-th key, if the key file has one. */
    method ProcessChunkBatch(itemNum: nat, data: Data, ghost got: seq<Data>, ghost cs: seq<Data>)
      requires Valid(got) && itemNum == |cs| <= |readKeyBuffer| && Framable(cs) && data == Frames(cs)
      modifies this`readKeyBuffer, this`keysRead, this`outputMQ, this`totalRecvChunkNum, this`totalRecvDataSize
      ensures Valid(got + cs) && |readKeyBuffer| == old(|readKeyBuffer|)
    {
      hide Frames, Framable, ReadU32, DecryptedSoFar, Flatten;
      var available := Least(itemNum, |keyRecipeFile| - keysRead);
      readKeyBuffer := keyRecipeFile[keysRead..keysRead + available] + readKeyBuffer[available..];
      keysRead := keysRead + available;
      ghost var keys, read := readKeyBuffer, keysRead;
      var offset := 0;
      NoFrames(cs);
      assert got + cs[..0] == got;
      for i := 0 to itemNum
        invariant Framable(cs[..i]) && offset == |Frames(cs[..i])|
        invariant totalRecvChunkNum == |got| + i && readKeyBuffer == keys && keysRead == read
        invariant DecryptedSoFar(z, keyRecipeFile, got + cs[..i], outputMQ)
        invariant totalRecvDataSize == |Flatten(got + cs[..i])|
      {
        FrameAt(cs, i);
        var chunkSize := ReadU32(data, offset);
        offset := offset + 4;
        var chunk := data[offset..offset + chunkSize];
        var key := readKeyBuffer[i];
        assert |got| + i < |keyRecipeFile| ==> key == keyRecipeFile[|got| + i];
        NextChunk(z, keyRecipeFile, got, cs, i, outputMQ, key);
        outputMQ := outputMQ + [z.decrypt(key, chunk)];
        offset := offset + chunkSize;
        totalRecvDataSize := totalRecvDataSize + chunkSize;
        totalRecvChunkNum := totalRecvChunkNum + 1;
        FramesStep(cs, i);
      }
      assert cs[..itemNum] == cs;
    }

    /** Run on the messages in the order of arrival; `css[i]` are the chunks of message `i`. */
    method Run(msgs: seq<ServerMessage>, batch: nat, ghost css: seq<seq<Data>>) returns (status: Status)
      requires Valid([]) && !done && Delivers(batch, msgs, css) && batch <= |readKeyBuffer|
      modifies this
      ensures Valid(Flatten(css[..UntilFinal(msgs)]))
      ensures done <==> status != Waiting
      ensures status == Waiting <==> forall i :: 0 <= i < |msgs| ==> msgs[i].RestoreChunk?
      ensures status == Finished ==> totalRecvChunkNum == fileRecipeHead.totalChunkNum
      ensures status == CountMismatch ==> totalRecvChunkNum != fileRecipeHead.totalChunkNum
    {
      hide Frames, Framable, DecryptedSoFar;
      var n := 0;
      while n < |msgs|
        invariant n <= |msgs| && !done && Valid(Flatten(css[..n])) && batch <= |readKeyBuffer|
        invariant forall i :: 0 <= i < n ==> msgs[i].RestoreChunk?
      {
        ghost var got := Flatten(css[..n]);
        assert 0 < |css[n]|;
        FlattenSnoc(css[..n], css[n]);
        assert css[..n + 1] == css[..n] + [css[n]];
        ProcessChunkBatch(msgs[n].itemNum, msgs[n].data, got, css[n]);
        n := n + 1;
        if msgs[n - 1].RestoreFinal? {
          done := true;
          FirstFinal(msgs, n - 1);
          status := if totalRecvChunkNum != fileRecipeHead.totalChunkNum then CountMismatch else Finished;
          return;
        }
      }
      NoFinal(msgs);
      status := Waiting;
    }
  }

  lemma NextChunk(z: Codec, keys: seq<Data>, got: seq<Data>, cs: seq<Data>, i: nat, out: seq<Data>, key: Data)
    requires i < |cs| && DecryptedSoFar(z, keys, got + cs[..i], out)
    requires |got| + i < |keys| ==> key == keys[|got| + i]
    ensures DecryptedSoFar(z, keys, got + cs[..i + 1], out + [z.decrypt(key, cs[i])])
    ensures |Flatten(got + cs[..i + 1])| == |Flatten(got + cs[..i])| + |cs[i]|
  {
    var a := got + cs[..i];
    assert got + cs[..i + 1] == a + [cs[i]];
    FlattenSnoc(a, cs[i]);
  }

  lemma {:induction false} FirstFinal(msgs: seq<ServerMessage>, k: nat)
    requires k < |msgs| && msgs[k].RestoreFinal? && forall i :: 0 <= i < k ==> msgs[i].RestoreChunk?
    ensures UntilFinal(msgs) == k + 1
  {
    if k > 0 {
      FirstFinal(msgs[1..], k - 1);
    }
  }

  lemma {:induction false} NoFinal(msgs: seq<ServerMessage>)
    requires forall i :: 0 <= i < |msgs| ==> msgs[i].RestoreChunk?
    ensures UntilFinal(msgs) == |msgs|
  {
    if msgs != [] {
      NoFinal(msgs[1..]);
    }
  }
}
