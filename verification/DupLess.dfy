/**
 DupLESS on batches: the client fills a buffer of 128-byte slots with blinded fingerprints,
 the key manager signs every slot in place, the client unblinds slot by slot and encrypts.
 */
module DupLess {
  import opened Bytes
  import opened Codec
  import opened Framing
  import opened ModularPower
  import opened RsaKeys
  import opened BlindRsa
  import opened DataSender
  import opened DataRetriever

  const RSA_KEY_SIZE: nat := 128

  /** Every residue modulo `n` fits a slot. */
  predicate ValidModulus(n: nat) {
    0 < n <= Pow(256, RSA_KEY_SIZE)
  }

  /** The number in slot `i`. */
  function SlotValue(buf: Data, i: nat): nat
    requires i * RSA_KEY_SIZE + RSA_KEY_SIZE <= |buf|
  {
    OS2IP(buf[i * RSA_KEY_SIZE..i * RSA_KEY_SIZE + RSA_KEY_SIZE])
  }

  /** Zero, then BN_bn2bin to the right end of the slot. */
  method PutNumber(buf: array<Byte>, i: nat, x: nat)
    requires x < Pow(256, RSA_KEY_SIZE) && i * RSA_KEY_SIZE + RSA_KEY_SIZE <= buf.Length
    modifies buf
    ensures SlotValue(buf[..], i) == x
    ensures forall k :: 0 <= k < i * RSA_KEY_SIZE ==> buf[k] == old(buf[k])
    ensures forall k :: i * RSA_KEY_SIZE + RSA_KEY_SIZE <= k < buf.Length ==> buf[k] == old(buf[k])
  {
    hide Pow, OS2IP, I2OSP, Minimal;
    PaddingIsI2OSP(x, RSA_KEY_SIZE);
    NumberRoundTrip(x, RSA_KEY_SIZE);
    var digits := Minimal(x);
    var result := Zeros(RSA_KEY_SIZE - |digits|) + digits;
    var at := i * RSA_KEY_SIZE;
    forall k | 0 <= k < RSA_KEY_SIZE {
      buf[at + k] := result[k];
    }
    assert buf[..][at..at + RSA_KEY_SIZE] == result;
  }

  /** Writing another slot leaves slot `j` as it was. */
  lemma SameSlot(a: Data, b: Data, i: nat, j: nat)
    requires |a| == |b| && i != j && j * RSA_KEY_SIZE + RSA_KEY_SIZE <= |a|
    requires forall k :: 0 <= k < i * RSA_KEY_SIZE && k < |a| ==> a[k] == b[k]
    requires forall k :: i * RSA_KEY_SIZE + RSA_KEY_SIZE <= k < |a| ==> a[k] == b[k]
    ensures SlotValue(a, j) == SlotValue(b, j)
  {
    hide OS2IP;
    var at := j * RSA_KEY_SIZE;
    assert a[at..at + RSA_KEY_SIZE] == b[at..at + RSA_KEY_SIZE];
  }

  /** The key manager's loop: every received number is replaced by its signature. */
  method SignBatch(buf: array<Byte>, num: nat, d: nat, n: nat)
    requires ValidModulus(n) && num * RSA_KEY_SIZE <= buf.Length
    modifies buf
    ensures forall j {:trigger SlotValue(buf[..], j)} :: 0 <= j < num ==>
      SlotValue(buf[..], j) == Sign(old(SlotValue(buf[..], j)), d, n)
  {
    hide Pow, SlotValue, Sign;
    ghost var was := buf[..];
    for i := 0 to num
      invariant forall j {:trigger SlotValue(buf[..], j)} :: 0 <= j < num ==>
        SlotValue(buf[..], j) == if j < i then Sign(SlotValue(was, j), d, n) else SlotValue(was, j)
    {
      ghost var before := buf[..];
      var x := OS2IP(buf[i * RSA_KEY_SIZE..i * RSA_KEY_SIZE + RSA_KEY_SIZE]);
      ReadSlot(buf[..], i);
      assert buf[..][i * RSA_KEY_SIZE..i * RSA_KEY_SIZE + RSA_KEY_SIZE] ==
        buf[i * RSA_KEY_SIZE..i * RSA_KEY_SIZE + RSA_KEY_SIZE];
      PutNumber(buf, i, Sign(x, d, n));
      forall j | 0 <= j < num && j != i
        ensures SlotValue(buf[..], j) == SlotValue(before, j)
      {
        SameSlot(buf[..], before, i, j);
      }
    }
  }

  lemma ReadSlot(buf: Data, i: nat)
    requires i * RSA_KEY_SIZE + RSA_KEY_SIZE <= |buf|
    ensures SlotValue(buf, i) == OS2IP(buf[i * RSA_KEY_SIZE..i * RSA_KEY_SIZE + RSA_KEY_SIZE])
  {
  }

  // ----- the client -----

  /** The key of a chunk: the hash of the signed fingerprint. No blinding value occurs, so
      equal chunks get equal keys. */
  function DupKey(z: Codec, d: nat, n: nat, c: Data): Data
    requires n > 0
  {
    z.hash(I2OSP(Sign(OS2IP(z.hash(c)), d, n), RSA_KEY_SIZE))
  }

  function DupKeys(z: Codec, d: nat, n: nat, cs: seq<Data>): (r: seq<Data>)
    requires n > 0
    ensures |r| == |cs|
  {
    seq(|cs|, i requires 0 <= i < |cs| => DupKey(z, d, n, cs[i]))
  }

  function DupCiphers(z: Codec, d: nat, n: nat, cs: seq<Data>): (r: seq<Data>)
    requires n > 0
    ensures |r| == |cs|
  {
    seq(|cs|, i requires 0 <= i < |cs| => z.encrypt(DupKey(z, d, n, cs[i]), cs[i]))
  }

  /** The recorded keys decrypt the ciphertexts. */
  lemma DupDecrypts(z: Codec, d: nat, n: nat, cs: seq<Data>)
    requires CipherLaws(z) && n > 0
    ensures Decrypted(z, DupKeys(z, d, n, cs), DupCiphers(z, d, n, cs)) == cs
  {
    hide DupKey;
    forall i | 0 <= i < |cs|
      ensures z.decrypt(DupKey(z, d, n, cs[i]), z.encrypt(DupKey(z, d, n, cs[i]), cs[i])) == cs[i]
    {
    }
  }

  /** `inv` is what BN_mod_inverse computes for `r`. */
  predicate Inverse(r: nat, inv: nat, n: nat)
    requires n > 0
  {
    r * inv % n == 1 % n
  }

  /** `d` is the key manager's; the client knows `n` and `e` only. */
  class Client {
    const z: Codec
    const n: nat
    const e: nat
    const chunkBatch: nat
    const blindBuf: array<Byte>
    var keyRecipeFile: seq<Data>

    ghost predicate Valid() {
      ValidModulus(n) && blindBuf.Length == chunkBatch * RSA_KEY_SIZE
    }

    constructor (z: Codec, n: nat, e: nat, chunkBatch: nat)
      requires ValidModulus(n)
      ensures Valid() && keyRecipeFile == [] && fresh(blindBuf)
      ensures this.z == z && this.n == n && this.e == e && this.chunkBatch == chunkBatch
    {
      this.z, this.n, this.e, this.chunkBatch := z, n, e, chunkBatch;
      blindBuf := new Byte[chunkBatch * RSA_KEY_SIZE](i => 0);
      keyRecipeFile := [];
    }

    /** The first loop of ProcessBatchChunk and DecorateFP: slot `i` holds the blinded
        fingerprint of chunk `i`. */
    method BlindBatch(num: nat, plain: Data, rs: seq<nat>, ghost cs: seq<Data>)
      requires Valid() && num == |cs| == |rs| <= chunkBatch && Framable(cs) && plain == Frames(cs)
      modifies blindBuf
      ensures forall j {:trigger SlotValue(blindBuf[..], j)} :: 0 <= j < num ==>
        SlotValue(blindBuf[..], j) == Blind(OS2IP(z.hash(cs[j])), rs[j], e, n)
    {
      hide Pow, SlotValue, Blind, OS2IP, Frames, Framable, ReadU32;
      var offset := 0;
      NoFrames(cs);
      for i := 0 to num
        invariant Framable(cs[..i]) && offset == |Frames(cs[..i])|
        invariant forall j {:trigger SlotValue(blindBuf[..], j)} :: 0 <= j < i ==>
          SlotValue(blindBuf[..], j) == Blind(OS2IP(z.hash(cs[j])), rs[j], e, n)
      {
        FrameAt(cs, i);
        var chunkSize := ReadU32(plain, offset);
        offset := offset + 4;
        var chunk := plain[offset..offset + chunkSize];
        offset := offset + chunkSize;
        FramesStep(cs, i);
        ghost var before := blindBuf[..];
        PutNumber(blindBuf, i, Blind(OS2IP(z.hash(chunk)), rs[i], e, n));
        forall j | 0 <= j < i
          ensures SlotValue(blindBuf[..], j) == SlotValue(before, j)
        {
          SameSlot(blindBuf[..], before, i, j);
        }
      }
    }

    /** The second loop and Elimination: the key of every chunk, in the key file and in its
        recipe row, then its ciphertext. */
    method UnblindBatch(num: nat, plain: Data, invs: seq<nat>, rows: array<Row>, rowNum: nat,
                        ghost cs: seq<Data>, ghost rs: seq<nat>, ghost d: nat) returns (cipher: Data)
      requires Valid() && KeyPair(n, e, d) && CipherLaws(z) && AllChunks(z, cs) && z.maxChunk <= U32_MAX
      requires num == |cs| == |rs| == |invs| <= chunkBatch && Framable(cs) && plain == Frames(cs)
      requires forall j {:trigger SlotValue(blindBuf[..], j)} :: 0 <= j < num ==>
        SlotValue(blindBuf[..], j) == Sign(Blind(OS2IP(z.hash(cs[j])), rs[j], e, n), d, n)
      requires forall j {:trigger rs[j]} :: 0 <= j < num ==> Inverse(rs[j], invs[j], n)
      requires rowNum + num <= rows.Length
      modifies this`keyRecipeFile, rows
      ensures rows[..rowNum] == old(rows[..rowNum])
      ensures forall j :: 0 <= j < num ==> rows[rowNum + j].key == DupKey(z, d, n, cs[j])
      ensures keyRecipeFile == old(keyRecipeFile) + DupKeys(z, d, n, cs)
      ensures Framable(DupCiphers(z, d, n, cs)) && cipher == Frames(DupCiphers(z, d, n, cs))
    {
      hide Pow, SlotValue, Blind, Unblind, Sign, OS2IP, I2OSP, DupKey, Frames, Framable, ReadU32;
      hide Inverse, KeyPair, DupKeys, DupCiphers, CipherLaws, Minimal, Frame, U32;
      ghost var ks, es := DupKeys(z, d, n, cs), DupCiphers(z, d, n, cs);
      DupCipherChunks(z, d, n, cs);
      var offset := 0;
      cipher := [];
      NoFrames(cs);
      NoFrames(es);
      for i := 0 to num
        invariant Framable(cs[..i]) && offset == |Frames(cs[..i])|
        invariant keyRecipeFile == old(keyRecipeFile) + ks[..i]
        invariant Framable(es[..i]) && cipher == Frames(es[..i])
        invariant rows[..rowNum] == old(rows[..rowNum])
        invariant forall j :: 0 <= j < i ==> rows[rowNum + j].key == DupKey(z, d, n, cs[j])
      {
        FrameAt(cs, i);
        var chunkSize := ReadU32(plain, offset);
        offset := offset + 4;
        var chunk := plain[offset..offset + chunkSize];
        offset := offset + chunkSize;
        FramesStep(cs, i);
        ReadSlot(blindBuf[..], i);
        var y := OS2IP(blindBuf[..][i * RSA_KEY_SIZE..i * RSA_KEY_SIZE + RSA_KEY_SIZE]);
        var x := Unblind(y, invs[i], n);
        RightKey(z, cs[i], rs[i], invs[i], e, d, n);
        PaddingIsI2OSP(x, RSA_KEY_SIZE);
        var digits := Minimal(x);
        var key := z.hash(Zeros(RSA_KEY_SIZE - |digits|) + digits);
        keyRecipeFile := keyRecipeFile + [key];
        rows[rowNum + i] := rows[rowNum + i].(key := key);
        DupAt(z, d, n, cs, i);
        FramesStep(es, i);
        cipher := cipher + U32(chunkSize) + z.encrypt(key, chunk);
        OneFrame(Frames(es[..i]), es[i]);
      }
      assert ks[..num] == ks && es[..num] == es;
    }

    /** ProcessBatchChunk with the key manager's answer in between: the keys and ciphertexts
        are those of the unblinded signature, whatever blinding values were drawn, for every
        RSA key pair of the key manager. */
    method ProcessBatchChunk(num: nat, plain: Data, rs: seq<nat>, invs: seq<nat>, d: nat,
                             rows: array<Row>, rowNum: nat, ghost cs: seq<Data>) returns (cipher: Data)
      requires Valid() && KeyPair(n, e, d) && CipherLaws(z) && AllChunks(z, cs) && z.maxChunk <= U32_MAX
      requires num == |cs| == |rs| == |invs| <= chunkBatch && Framable(cs) && plain == Frames(cs)
      requires forall j {:trigger rs[j]} :: 0 <= j < num ==> Inverse(rs[j], invs[j], n)
      requires rowNum + num <= rows.Length
      modifies this`keyRecipeFile, blindBuf, rows
      ensures rows[..rowNum] == old(rows[..rowNum])
      ensures forall j :: 0 <= j < num ==> rows[rowNum + j].key == DupKey(z, d, n, cs[j])
      ensures keyRecipeFile == old(keyRecipeFile) + DupKeys(z, d, n, cs)
      ensures Framable(DupCiphers(z, d, n, cs)) && cipher == Frames(DupCiphers(z, d, n, cs))
    {
      hide Pow, SlotValue, Blind, Sign, OS2IP, Frames, Framable, Inverse, KeyPair, DupKeys, DupCiphers, CipherLaws;
      BlindBatch(num, plain, rs, cs);
      SignBatch(blindBuf, num, d, n);
      cipher := UnblindBatch(num, plain, invs, rows, rowNum, cs, rs, d);
    }
  }

  lemma RightKey(z: Codec, c: Data, r: nat, inv: nat, e: nat, d: nat, n: nat)
    requires ValidModulus(n) && KeyPair(n, e, d) && Inverse(r, inv, n)
    ensures var x := Unblind(Sign(Blind(OS2IP(z.hash(c)), r, e, n), d, n), inv, n);
      x < Pow(256, RSA_KEY_SIZE) && DupKey(z, d, n, c) == z.hash(I2OSP(x, RSA_KEY_SIZE))
  {
    hide Pow, Blind, Sign, Unblind, OS2IP, I2OSP, KeyPair;
    KeyPairIsIdentity(n, e, d, r);
    BlindingVanishes(OS2IP(z.hash(c)), r, inv, e, d, n);
  }

  lemma DupAt(z: Codec, d: nat, n: nat, cs: seq<Data>, i: nat)
    requires n > 0 && i < |cs|
    ensures DupKeys(z, d, n, cs)[i] == DupKey(z, d, n, cs[i])
    ensures DupCiphers(z, d, n, cs)[i] == z.encrypt(DupKey(z, d, n, cs[i]), cs[i])
    ensures DupKeys(z, d, n, cs)[..i + 1] == DupKeys(z, d, n, cs)[..i] + [DupKey(z, d, n, cs[i])]
  {
    hide DupKey;
  }

  lemma DupCipherChunks(z: Codec, d: nat, n: nat, cs: seq<Data>)
    requires CipherLaws(z) && AllChunks(z, cs) && z.maxChunk <= U32_MAX && n > 0
    ensures Framable(DupCiphers(z, d, n, cs))
    ensures forall i {:trigger cs[i]} :: 0 <= i < |cs| ==> |DupCiphers(z, d, n, cs)[i]| == |cs[i]|
  {
    hide DupKey;
    forall i | 0 <= i < |cs|
      ensures |DupCiphers(z, d, n, cs)[i]| == |cs[i]| <= U32_MAX
    {
      assert IsChunk(z, cs[i]);
      SameSize(z, DupKey(z, d, n, cs[i]), cs[i]);
    }
  }

  lemma OneFrame(before: Data, c: Data)
    requires |c| <= U32_MAX
    ensures before + U32(|c|) + c == before + Frame(c)
  {
    hide U32;
  }
}
