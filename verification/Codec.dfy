/**
 The foreign primitives as function values: a hash, a cipher and the LZ4 block codec
 (Baseline/src/Util/cryptoPrimitive.cc and the LZ4 library), and what a chunk is stored
 as (Baseline/src/Index/absIndex.cc, Baseline/src/Server/recvDecoder.cc).
 */
module Codec {
  import opened Bytes

  /** `compress` and `decompress` return the empty sequence where LZ4 returns a number that
      is not positive. `maxChunk` is the capacity given to LZ4_decompress_safe. */
  datatype Codec = Codec(
    hash: Data -> Data,
    encrypt: (Data, Data) -> Data, decrypt: (Data, Data) -> Data,
    compress: Data -> Data, decompress: Data -> Data, maxChunk: nat)

  /** What LZ4 promises: the output never exceeds the input (that is the destination
      capacity), and decompression undoes compression. */
  ghost predicate Lz4Laws(z: Codec) {
    forall d {:trigger z.compress(d)} :: |d| <= z.maxChunk && |z.compress(d)| > 0 ==>
      |z.compress(d)| <= |d| && z.decompress(z.compress(d)) == d
  }

  /** What the cipher promises: sizes are kept, and decryption undoes encryption. */
  ghost predicate CipherLaws(z: Codec) {
    forall key, d {:trigger z.encrypt(key, d)} ::
      |z.encrypt(key, d)| == |d| && z.decrypt(key, z.encrypt(key, d)) == d
  }

  /** A chunk that the system handles: not empty, and within the chunk buffers. */
  predicate IsChunk(z: Codec, c: Data) {
    0 < |c| <= z.maxChunk
  }

  predicate AllChunks(z: Codec, cs: seq<Data>) {
    forall i :: 0 <= i < |cs| ==> IsChunk(z, cs[i])
  }

  /** What `ProcessUniqueChunk` stores. */
  function Payload(z: Codec, c: Data): (p: Data)
    ensures c != [] ==> p != []
  {
    var small := z.compress(c);
    if |small| > 0 then small else c
  }

  /** What `RecoverOneChunk` makes of stored bytes. */
  function Recover(z: Codec, p: Data): Data {
    var big := z.decompress(p);
    if |big| > 0 then big else p
  }

  /** A chunk stored raw must not itself be LZ4 data for something else. */
  predicate Recoverable(z: Codec, c: Data) {
    |z.compress(c)| > 0 || |z.decompress(c)| == 0 || z.decompress(c) == c
  }

  /** Exactly the recoverable chunks come back; the decoder cannot tell a raw chunk from a
      compressed one. */
  lemma RecoveredIffRecoverable(z: Codec, c: Data)
    requires Lz4Laws(z) && IsChunk(z, c)
    ensures Recover(z, Payload(z, c)) == c <==> Recoverable(z, c)
  {
    assert |z.compress(c)| > 0 ==> z.decompress(z.compress(c)) == c;
  }

  /** With a codec under which some incompressible chunk decodes as another, that chunk is
      lost; the hypothesis is not implied by the LZ4 laws. */
  lemma RawChunkCanBeLost() returns (z: Codec, c: Data)
    ensures Lz4Laws(z) && IsChunk(z, c) && Recover(z, Payload(z, c)) != c
  {
    z := Codec(d => [], (k, d) => d, (k, d) => d, d => [], d => [7], 16);
    c := [3];
  }
}
