/**
 The uploading client (Baseline/src/Client/dataSender.cc) with convergent encryption
 (Baseline/src/KeyGen/mleDaE.cc): chunks are buffered, encrypted in batches, framed into
 messages and sent, with one key recipe row per chunk. The three send buffers are updated
 in place; `sent` is what went over the connection.
 */
module DataSender {
  import opened Sequences
  import opened Bytes
  import opened Codec
  import opened Framing
  import opened StorageServer
  import RingArithmetic

  /** KeyRecipeEntry_t */
  datatype Row = Row(key: Data, cipherHash: Data)

  function Keys(z: Codec, cs: seq<Data>): (r: seq<Data>)
    ensures |r| == |cs|
  {
    seq(|cs|, i requires 0 <= i < |cs| => z.hash(cs[i]))
  }

  function Ciphers(z: Codec, cs: seq<Data>): (r: seq<Data>)
    ensures |r| == |cs|
  {
    seq(|cs|, i requires 0 <= i < |cs| => z.encrypt(z.hash(cs[i]), cs[i]))
  }

  /** The key and the ciphertext hash of each chunk. */
  function Rows(z: Codec, cs: seq<Data>): (r: seq<Row>)
    ensures |r| == |cs|
  {
    seq(|cs|, i requires 0 <= i < |cs| => Row(z.hash(cs[i]), z.hash(z.encrypt(z.hash(cs[i]), cs[i]))))
  }

  /** The data section of a key recipe message. */
  function RowBytes(rows: seq<Row>): Data {
    if rows == [] then [] else
    RowBytes(rows[..|rows| - 1]) + rows[|rows| - 1].key + rows[|rows| - 1].cipherHash
  }

  lemma LastRow(rows: seq<Row>)
    requires rows != []
    ensures var last := rows[|rows| - 1];
      RowBytes(rows) == RowBytes(rows[..|rows| - 1]) + (last.key + last.cipherHash)
  {
  }

  lemma {:induction false} RowBytesAppend(a: seq<Row>, b: seq<Row>)
    ensures RowBytes(a + b) == RowBytes(a) + RowBytes(b)
    decreases |b|
  {
    if b == [] {
      assert a + b == a;
    } else {
      hide RowBytes;
      var init, last := b[..|b| - 1], b[|b| - 1];
      RowBytesAppend(a, init);
      assert (a + b)[..|a + b| - 1] == a + init && (a + b)[|a + b| - 1] == last;
      LastRow(b);
      LastRow(a + b);
      Associative(RowBytes(a), RowBytes(init), last.key + last.cipherHash);
    }
  }

  lemma CipherChunks(z: Codec, cs: seq<Data>)
    requires CipherLaws(z) && AllChunks(z, cs) && z.maxChunk <= U32_MAX
    ensures AllChunks(z, Ciphers(z, cs)) && Framable(Ciphers(z, cs)) && Framable(cs)
  {
    forall i | 0 <= i < |cs|
      ensures IsChunk(z, Ciphers(z, cs)[i])
    {
      assert IsChunk(z, cs[i]);
      assert |z.encrypt(z.hash(cs[i]), cs[i])| == |cs[i]|;
    }
  }

  /** The messages `msgs` carry the chunk lists `css`, as the receiver expects them. */
  ghost predicate Carries(z: Codec, batch: nat, msgs: seq<ClientMessage>, css: seq<seq<Data>>) {
    && |msgs| == |css|
    && forall i {:trigger css[i]} :: 0 <= i < |css| ==>
         if msgs[i].UploadChunk?
         then 0 < |css[i]| <= batch && Framable(css[i]) && msgs[i].itemNum == |css[i]| && msgs[i].data == Frames(css[i])
         else css[i] == []
  }

  lemma CarriesSnoc(z: Codec, batch: nat, msgs: seq<ClientMessage>, css: seq<seq<Data>>, m: ClientMessage,
                    cs: seq<Data>)
    requires Carries(z, batch, msgs, css)
    requires if m.UploadChunk?
      then 0 < |cs| <= batch && Framable(cs) && m.itemNum == |cs| && m.data == Frames(cs) else cs == []
    ensures Carries(z, batch, msgs + [m], css + [cs]) && Flatten(css + [cs]) == Flatten(css) + cs
    ensures RecipeBytes(msgs + [m]) == RecipeBytes(msgs) + (if m.UploadRecipe? then m.data else [])
  {
    hide Frames;
    FlattenSnoc(css, cs);
    assert (msgs + [m])[..|msgs|] == msgs;
  }

  /** The ciphertexts `flat` and `unsent`, the recipe bytes sent and the buffered rows, and
      the key file are those of the chunks `cs`. */
  ghost predicate Accounts(z: Codec, cs: seq<Data>, flat: seq<Data>, unsent: seq<Data>,
                           recipe: Data, rows: seq<Row>, keys: seq<Data>) {
    flat + unsent == Ciphers(z, cs) && recipe + RowBytes(rows) == RowBytes(Rows(z, cs)) && keys == Keys(z, cs)
  }

  lemma AccountsMore(z: Codec, a: seq<Data>, b: seq<Data>, flat: seq<Data>, recipe: Data, rows: seq<Row>,
                     keys: seq<Data>)
    requires Accounts(z, a, flat, [], recipe, rows, keys)
    ensures Accounts(z, a + b, flat, Ciphers(z, b), recipe, rows + Rows(z, b), keys + Keys(z, b))
  {
    SplitAt(z, a + b, |a|);
    assert (a + b)[..|a|] == a && (a + b)[|a|..] == b;
    RowBytesAppend(rows, Rows(z, b));
    RowBytesAppend(Rows(z, a), Rows(z, b));
    assert flat + [] == flat;
  }

  /** The buffered rows are sent. */
  lemma AccountsRows(z: Codec, cs: seq<Data>, flat: seq<Data>, unsent: seq<Data>, recipe: Data, rows: seq<Row>,
                     keys: seq<Data>)
    requires Accounts(z, cs, flat, unsent, recipe, rows, keys)
    ensures Accounts(z, cs, flat, unsent, recipe + RowBytes(rows), [], keys)
  {
  }

  /** The unsent ciphertexts are sent. */
  lemma AccountsChunks(z: Codec, cs: seq<Data>, flat: seq<Data>, unsent: seq<Data>, recipe: Data, rows: seq<Row>,
                       keys: seq<Data>)
    requires Accounts(z, cs, flat, unsent, recipe, rows, keys)
    ensures Accounts(z, cs, flat + unsent, [], recipe, rows, keys)
  {
    assert flat + unsent + [] == flat + unsent;
  }

  /** Nothing is buffered any more. */
  lemma AllAccounted(z: Codec, cs: seq<Data>, flat: seq<Data>, recipe: Data, keys: seq<Data>)
    requires Accounts(z, cs, flat, [], recipe, [], keys)
    ensures flat == Ciphers(z, cs) && recipe == RowBytes(Rows(z, cs)) && keys == Keys(z, cs)
    ensures flat + [] == flat && recipe + [] == recipe
  {
  }

  predicate Multiple(n: nat, m: nat)
    requires m > 0
  {
    n % m == 0
  }

  lemma MultipleOfZero(m: nat)
    requires m > 0
    ensures Multiple(0, m)
  {
  }

  class Sender {
    const z: Codec
    const chunkBatch: nat
    const recipeBatch: nat

    const plain: array<Byte>
    var plainSize: nat
    var plainNum: nat
    const cipher: array<Byte>
    var cipherSize: nat
    var cipherNum: nat
    const rows: array<Row>
    var rowNum: nat
    var keyRecipeFile: seq<Data>
    var sent: seq<ClientMessage>

    /** Every chunk popped so far; the first `done` of them have been encrypted. */
    ghost var chunks: seq<Data>
    ghost var done: nat
    ghost var css: seq<seq<Data>>

    /** What the configuration demands: configure.cc stops unless the recipe batch is a multiple. */
    ghost predicate Configured()
    {
      && CipherLaws(z) && z.maxChunk <= U32_MAX && chunkBatch > 0 && recipeBatch > 0
      && Multiple(recipeBatch, chunkBatch)
      && plain.Length == cipher.Length == Capacity(z, chunkBatch) && rows.Length == recipeBatch
      && plain != cipher
    }

    /** The plaintext buffer holds the chunks that are not yet encrypted. */
    ghost predicate PlainOk()
      reads this, plain
    {
      && done <= |chunks| && AllChunks(z, chunks) && Framable(chunks[done..])
      && plainNum == |chunks| - done <= chunkBatch && plainSize <= plain.Length
      && plain[..plainSize] == Frames(chunks[done..])
    }

    /** What was sent, the ciphertexts `unsent` and the buffered rows account for the first
        `done` chunks. */
    ghost predicate SentOk(unsent: seq<Data>)
      reads this, rows
    {
      && done <= |chunks| && rowNum <= rows.Length
      && Carries(z, chunkBatch, sent, css) && (forall i :: 0 <= i < |sent| ==> !sent[i].RecipeEnd?)
      && Accounts(z, chunks[..done], Flatten(css), unsent, RecipeBytes(sent), rows[..rowNum], keyRecipeFile)
    }

    /** The state between two chunks of the loop in `Run`. */
    ghost predicate Valid()
      reads this, plain, cipher, rows
    {
      && Configured() && PlainOk() && SentOk([]) && plainNum < chunkBatch
      && cipherNum == 0 && cipherSize == 0 && Multiple(rowNum, chunkBatch) && rowNum < recipeBatch
    }

    constructor (z: Codec, chunkBatch: nat, recipeBatch: nat)
      requires CipherLaws(z) && z.maxChunk <= U32_MAX && chunkBatch > 0 && recipeBatch > 0
      requires Multiple(recipeBatch, chunkBatch)
      ensures Valid() && chunks == [] && sent == [] && this.z == z
      ensures this.chunkBatch == chunkBatch && this.recipeBatch == recipeBatch
      ensures fresh(plain) && fresh(cipher) && fresh(rows)
    {
      hide Capacity, Multiple, CipherLaws;
      this.z, this.chunkBatch, this.recipeBatch := z, chunkBatch, recipeBatch;
      plain := new Byte[Capacity(z, chunkBatch)](i => 0);
      cipher := new Byte[Capacity(z, chunkBatch)](i => 0);
      rows := new Row[recipeBatch](i => Row([], []));
      plainSize, plainNum, cipherSize, cipherNum, rowNum := 0, 0, 0, 0, 0;
      keyRecipeFile, sent, chunks, done, css := [], [], [], 0, [];
      MultipleOfZero(chunkBatch);
    }

    /** MLEDAE::ProcessBatchChunk: key, key file, key recipe row and ciphertext of each
        chunk in the plaintext buffer. `cs` are those chunks. */
    method ProcessBatchChunk(ghost cs: seq<Data>)
      requires Configured() && AllChunks(z, cs) && Framable(cs) && |cs| <= chunkBatch
      requires plainSize <= plain.Length && plain[..plainSize] == Frames(cs) && plainNum == |cs|
      requires cipherSize == 0 && cipherNum == 0 && rowNum + |cs| <= rows.Length
      modifies this`keyRecipeFile, this`cipherSize, this`cipherNum, cipher, rows
      ensures cipherSize <= cipher.Length && Framable(Ciphers(z, cs))
      ensures cipher[..cipherSize] == Frames(Ciphers(z, cs)) && cipherNum == |cs|
      ensures keyRecipeFile == old(keyRecipeFile) + Keys(z, cs)
      ensures rows[..rowNum] == old(rows[..rowNum])
      ensures forall j :: 0 <= j < |cs| ==> rows[rowNum + j].key == z.hash(cs[j])
    {
      hide Frames, CipherLaws, Framable, Capacity, Multiple, AllChunks, Ciphers, Keys, U32, ReadU32;
      hide Frame, Rows, IsChunk;
      CipherChunks(z, cs);
      var offset := 0;
      ghost var es, ks := Ciphers(z, cs), Keys(z, cs);
      NoFrames(cs);
      NoFrames(es);
      for i := 0 to plainNum
        invariant plain[..plainSize] == Frames(cs) && Framable(cs[..i]) && offset == |Frames(cs[..i])|
        invariant Framable(es[..i]) && cipherSize == |Frames(es[..i])| <= cipher.Length
        invariant cipher[..cipherSize] == Frames(es[..i]) && cipherNum == i
        invariant keyRecipeFile == old(keyRecipeFile) + ks[..i]
        invariant rows[..rowNum] == old(rows[..rowNum])
        invariant forall j :: 0 <= j < i ==> rows[rowNum + j].key == z.hash(cs[j])
      {
        FrameAt(cs, i);
        RowAt(z, cs, i);
        var chunkSize := ReadU32(plain[..plainSize], offset);
        offset := offset + 4;
        var chunkData := plain[..plainSize][offset..offset + chunkSize];
        offset := offset + chunkSize;
        var key := z.hash(chunkData);
        keyRecipeFile := keyRecipeFile + [key];
        rows[rowNum + i] := rows[rowNum + i].(key := key);
        NextFrame(z, es, i, chunkBatch);
        SameSize(z, key, chunkData);
        AppendCipher(chunkSize, z.encrypt(key, chunkData));
        FramesStep(cs, i);
      }
      assert cs[..plainNum] == cs && es[..plainNum] == es && ks[..plainNum] == ks;
    }

    method AppendCipher(chunkSize: nat, c: Data)
      requires chunkSize == |c| <= U32_MAX && cipherSize + 4 + |c| <= cipher.Length
      modifies this`cipherSize, this`cipherNum, cipher
      ensures cipherSize == old(cipherSize) + 4 + |c| && cipherNum == old(cipherNum) + 1
      ensures cipher[..cipherSize] == old(cipher[..cipherSize]) + Frame(c)
    {
      ghost var before := cipher[..cipherSize];
      CopyTo(cipher, cipherSize, U32(chunkSize));
      cipherSize := cipherSize + 4;
      CopyTo(cipher, cipherSize, c);
      cipherSize := cipherSize + chunkSize;
      cipherNum := cipherNum + 1;
      assert before + U32(chunkSize) + c == before + Frame(c);
    }

    /** DataSender::GenerateRecipe: the ciphertext hashes, then the rows count. */
    method GenerateRecipe(ghost cs: seq<Data>)
      requires Configured() && AllChunks(z, cs) && Framable(Ciphers(z, cs))
      requires cipherSize <= cipher.Length && cipher[..cipherSize] == Frames(Ciphers(z, cs)) && cipherNum == |cs|
      requires rowNum + |cs| <= rows.Length
      requires forall j :: 0 <= j < |cs| ==> rows[rowNum + j].key == z.hash(cs[j])
      modifies this`rowNum, rows
      ensures rowNum == old(rowNum) + |cs| <= rows.Length
      ensures rows[..rowNum] == old(rows[..rowNum]) + Rows(z, cs)
    {
      hide Frames, CipherLaws, Framable, Ciphers, Rows, Keys, AllChunks, Multiple, Capacity;
      hide ReadU32, Frame, IsChunk, U32;
      var offset := 0;
      ghost var es := Ciphers(z, cs);
      ghost var rs := Rows(z, cs);
      NoFrames(es);
      for i := 0 to cipherNum
        invariant rowNum == old(rowNum) && Framable(es[..i]) && offset == |Frames(es[..i])|
        invariant rows[..rowNum] == old(rows[..rowNum])
        invariant forall j :: 0 <= j < i ==> rows[rowNum + j] == rs[j]
        invariant forall j :: i <= j < |cs| ==> rows[rowNum + j].key == z.hash(cs[j])
      {
        FrameAt(es, i);
        RowAt(z, cs, i);
        var chunkSize := ReadU32(cipher[..cipherSize], offset);
        offset := offset + 4;
        var chunkData := cipher[..cipherSize][offset..offset + chunkSize];
        rows[rowNum + i] := rows[rowNum + i].(cipherHash := z.hash(chunkData));
        offset := offset + chunkSize;
        FramesStep(es, i);
      }
      assert rows[..rowNum + cipherNum] == old(rows[..rowNum]) + rs;
      rowNum := rowNum + cipherNum;
    }

    /** Both steps on the whole plaintext buffer. */
    method EncryptBuffer() returns (ghost unsent: seq<Data>)
      requires Configured() && PlainOk() && SentOk([]) && cipherNum == 0 && cipherSize == 0
      requires rowNum + plainNum <= recipeBatch
      modifies this`keyRecipeFile, this`cipherSize, this`cipherNum, this`rowNum, this`done, cipher, rows
      ensures done == |chunks| && rowNum == old(rowNum) + plainNum && SentOk(unsent)
      ensures |unsent| == cipherNum == plainNum && AllChunks(z, unsent) && Framable(unsent)
      ensures cipherSize <= cipher.Length && cipher[..cipherSize] == Frames(unsent)
      ensures done - old(done) == plainNum
    {
      hide Carries, Frames, CipherLaws, Framable, AllChunks, RecipeBytes, Flatten, Ciphers, Rows;
      hide Keys, RowBytes, Accounts, Multiple;
      ghost var cs := chunks[done..];
      TailChunks(z, chunks, done);
      AccountsMore(z, chunks[..done], cs, Flatten(css), RecipeBytes(sent), rows[..rowNum], keyRecipeFile);
      ProcessBatchChunk(cs);
      GenerateRecipe(cs);
      CipherChunks(z, cs);
      unsent := Ciphers(z, cs);
      assert chunks[..done] + cs == chunks == chunks[..|chunks|];
      done := |chunks|;
    }

    method SendRecipes(ghost unsent: seq<Data>)
      requires SentOk(unsent)
      modifies this`sent, this`css, this`rowNum
      ensures SentOk(unsent) && rowNum == 0
    {
      hide Carries, Accounts, RecipeBytes, Flatten;
      var m := UploadRecipe(RowBytes(rows[..rowNum]));
      CarriesSnoc(z, chunkBatch, sent, css, m, []);
      AccountsRows(z, chunks[..done], Flatten(css), unsent, RecipeBytes(sent), rows[..rowNum], keyRecipeFile);
      assert Flatten(css) + [] == Flatten(css);
      sent := sent + [m];
      css := css + [[]];
      rowNum := 0;
      assert rows[..0] == [];
    }

    method SendChunks(ghost unsent: seq<Data>)
      requires SentOk(unsent) && cipherSize <= cipher.Length && Framable(unsent)
      requires cipher[..cipherSize] == Frames(unsent) && 0 < |unsent| == cipherNum <= chunkBatch
      modifies this`sent, this`css, this`cipherNum, this`cipherSize
      ensures SentOk([]) && cipherNum == 0 && cipherSize == 0
    {
      hide Carries, Accounts, RecipeBytes, Flatten, Frames, Framable;
      var m := UploadChunk(cipherNum, cipher[..cipherSize]);
      CarriesSnoc(z, chunkBatch, sent, css, m, unsent);
      AccountsChunks(z, chunks[..done], Flatten(css), unsent, RecipeBytes(sent), rows[..rowNum], keyRecipeFile);
      assert RecipeBytes(sent) + [] == RecipeBytes(sent);
      sent := sent + [m];
      css := css + [unsent];
      cipherNum, cipherSize := 0, 0;
    }

    /** DataSender::ProcessChunkBatch on a full plaintext buffer. */
    method ProcessChunkBatch()
      requires Configured() && PlainOk() && SentOk([]) && plainNum == chunkBatch
      requires cipherNum == 0 && cipherSize == 0 && Multiple(rowNum, chunkBatch) && rowNum < recipeBatch
      modifies this, cipher, rows
      ensures SentOk([]) && done == |chunks| && unchanged(`chunks, `plainSize, `plainNum)
      ensures cipherNum == 0 && cipherSize == 0 && Multiple(rowNum, chunkBatch) && rowNum < recipeBatch
    {
      hide Carries, Accounts, RecipeBytes, Flatten, Frames, Framable, CipherLaws, AllChunks, Multiple;
      NextMultiple(rowNum, chunkBatch, recipeBatch);
      ghost var unsent := EncryptBuffer();
      FullIffMultiple(rowNum, recipeBatch);
      if rowNum % recipeBatch == 0 {
        SendRecipes(unsent);
      }
      FullIffMultiple(cipherNum, chunkBatch);
      if cipherNum % chunkBatch == 0 {
        SendChunks(unsent);
      }
    }

    /** DataSender::AddChunkToPlainBuffer */
    method AddChunkToPlainBuffer(c: Data)
      requires Configured() && PlainOk() && plainNum < chunkBatch && IsChunk(z, c)
      modifies this`plainSize, this`plainNum, this`chunks, plain
      ensures PlainOk() && chunks == old(chunks) + [c] && plainNum == old(plainNum) + 1
    {
      hide Frames, Framable, CipherLaws;
      ghost var cs := chunks[done..];
      BufferedChunks(z, chunks, done, c, chunkBatch);
      CopyTo(plain, plainSize, U32(|c|));
      plainSize := plainSize + 4;
      CopyTo(plain, plainSize, c);
      plainSize := plainSize + |c|;
      plainNum := plainNum + 1;
      chunks := chunks + [c];
    }

    /** A DATA_CHUNK in the loop of DataSender::Run. */
    method AddChunk(c: Data)
      requires Valid() && IsChunk(z, c)
      modifies this, plain, cipher, rows
      ensures Valid() && chunks == old(chunks) + [c]
    {
      hide Carries, Accounts, RecipeBytes, Flatten, Frames, Framable, CipherLaws, Multiple;
      ghost var was := chunks;
      AddChunkToPlainBuffer(c);
      assert chunks[..done] == was[..done];
      FullIffMultiple(plainNum, chunkBatch);
      if plainNum % chunkBatch == 0 {
        ProcessChunkBatch();
        plainSize, plainNum := 0, 0;
        assert plain[..0] == [] && chunks[done..] == [];
        NoFrames(chunks[done..]);
        assert chunks[done..][..0] == chunks[done..];
      }
    }

    /** The three flushes of DataSender::ProcessRecipeEnd. */
    method FlushBuffers()
      requires Valid()
      modifies this, cipher, rows
      ensures chunks == old(chunks) && done == |chunks| && rowNum == 0 && SentOk([])
    {
      hide Carries, Accounts, RecipeBytes, Flatten, Frames, Framable, CipherLaws, AllChunks, Multiple;
      ghost var unsent: seq<Data> := [];
      NextMultiple(rowNum, chunkBatch, recipeBatch);
      if plainNum != 0 {
        unsent := EncryptBuffer();
      }
      if rowNum != 0 {
        SendRecipes(unsent);
      }
      if cipherNum != 0 {
        SendChunks(unsent);
      }
    }

    /** DataSender::ProcessRecipeEnd: flush all three buffers, then the recipe end. */
    method ProcessRecipeEnd(head: RecipeHead)
      requires Valid()
      modifies this, cipher, rows
      ensures chunks == old(chunks) && Carries(z, chunkBatch, sent, css)
      ensures sent != [] && sent[|sent| - 1] == RecipeEnd(head)
      ensures forall i :: 0 <= i < |sent| - 1 ==> !sent[i].RecipeEnd?
      ensures Flatten(css) == Ciphers(z, chunks)
      ensures RecipeBytes(sent) == RowBytes(Rows(z, chunks)) && keyRecipeFile == Keys(z, chunks)
    {
      hide Carries, Accounts, Ciphers, Rows, Keys, RowBytes, RecipeBytes, Flatten, Valid;
      FlushBuffers();
      assert chunks[..done] == chunks && rows[..0] == [];
      AllAccounted(z, chunks, Flatten(css), RecipeBytes(sent), keyRecipeFile);
      CarriesSnoc(z, chunkBatch, sent, css, RecipeEnd(head), []);
      sent := sent + [RecipeEnd(head)];
      css := css + [[]];
    }

    /** DataSender::Run on the chunks `cs` and the recipe end that follows them: every chunk
        is encrypted under its own hash, framed and sent once, in order, in messages of at
        most `chunkBatch` chunks; the key recipe pairs key and ciphertext hash row by row. */
    method Run(cs: seq<Data>, head: RecipeHead)
      requires Valid() && chunks == [] && AllChunks(z, cs)
      modifies this, plain, cipher, rows
      ensures Carries(z, chunkBatch, sent, css) && Flatten(css) == Ciphers(z, cs)
      ensures sent != [] && sent[|sent| - 1] == RecipeEnd(head)
      ensures forall i :: 0 <= i < |sent| - 1 ==> !sent[i].RecipeEnd?
      ensures RecipeBytes(sent) == RowBytes(Rows(z, cs)) && keyRecipeFile == Keys(z, cs)
    {
      hide Carries, Ciphers, Rows, Keys, RecipeBytes, Flatten;
      for i := 0 to |cs|
        invariant Valid() && chunks == cs[..i]
      {
        assert cs[..i + 1] == cs[..i] + [cs[i]];
        AddChunk(cs[i]);
      }
      assert cs[..|cs|] == cs;
      ProcessRecipeEnd(head);
    }
  }

  lemma RowAt(z: Codec, cs: seq<Data>, i: nat)
    requires i < |cs|
    ensures Keys(z, cs)[i] == z.hash(cs[i]) && Ciphers(z, cs)[i] == z.encrypt(z.hash(cs[i]), cs[i])
    ensures Rows(z, cs)[i] == Row(Keys(z, cs)[i], z.hash(Ciphers(z, cs)[i]))
  {
  }

  lemma TailChunks(z: Codec, cs: seq<Data>, k: nat)
    requires AllChunks(z, cs) && k <= |cs|
    ensures AllChunks(z, cs[k..])
  {
  }

  lemma SplitAt(z: Codec, cs: seq<Data>, k: nat)
    requires k <= |cs|
    ensures Ciphers(z, cs) == Ciphers(z, cs[..k]) + Ciphers(z, cs[k..])
    ensures Rows(z, cs) == Rows(z, cs[..k]) + Rows(z, cs[k..])
    ensures Keys(z, cs) == Keys(z, cs[..k]) + Keys(z, cs[k..])
  {
  }

  lemma MulMonotone(a: nat, b: nat, m: nat)
    requires a <= b
    ensures a * m <= b * m
  {
    assert b * m == a * m + (b - a) * m;
  }

  lemma OneMoreTimes(a: nat, m: nat)
    ensures (a + 1) * m == a * m + m
  {
  }

  /** A multiple of `m` below a multiple `n` of `m` leaves room for `m` more. */
  lemma NextMultiple(r: nat, m: nat, n: nat)
    requires m > 0 && Multiple(r, m) && Multiple(n, m) && r < n
    ensures r + m <= n && Multiple(r + m, m) && Multiple(0, m)
  {
    var a, b := r / m, n / m;
    assert r == a * m && n == b * m;
    if a >= b {
      MulMonotone(b, a, m);
    }
    MulMonotone(a + 1, b, m);
    OneMoreTimes(a, m);
    RingArithmetic.DivModUnique(r + m, m, a + 1, 0);
  }

}
