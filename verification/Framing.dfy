/**
 Send buffers: their capacity, and the frames of chunks in them
 (Baseline/src/Client/dataSender.cc, Baseline/src/Server/recvDecoder.cc).
 */
module Framing {
  import opened Bytes
  import opened Codec

  /** The size that a send buffer for `n` chunks is allocated with. */
  function Capacity(z: Codec, n: nat): nat {
    n * (4 + z.maxChunk)
  }

  lemma OneMore(z: Codec, n: nat)
    ensures Capacity(z, n + 1) == Capacity(z, n) + 4 + z.maxChunk
  {
  }

  /** That is enough for `n` chunks. */
  lemma {:induction false} FramesFit(z: Codec, cs: seq<Data>, n: nat)
    requires Framable(cs) && AllChunks(z, cs) && |cs| <= n
    ensures |Frames(cs)| <= Capacity(z, n)
    decreases |cs|
  {
    hide Capacity, U32;
    if cs != [] {
      var k := |cs| - 1;
      FramesFit(z, cs[..k], n - 1);
      assert IsChunk(z, cs[k]);
      OneMore(z, n - 1);
    }
  }

  /** There is room for the next frame. */
  lemma NextFrame(z: Codec, es: seq<Data>, i: nat, batch: nat)
    requires Framable(es) && AllChunks(z, es) && i < |es| <= batch
    ensures Framable(es[..i]) && Framable(es[..i + 1])
    ensures Frames(es[..i + 1]) == Frames(es[..i]) + Frame(es[i])
    ensures |Frames(es[..i])| + 4 + |es[i]| <= Capacity(z, batch) && |es[i]| <= U32_MAX
  {
    FramesStep(es, i);
    FramesFit(z, es[..i + 1], batch);
  }

  lemma BufferedChunks(z: Codec, cs: seq<Data>, k: nat, c: Data, batch: nat)
    requires AllChunks(z, cs) && IsChunk(z, c) && k <= |cs| && |cs| - k < batch && z.maxChunk <= U32_MAX
    requires Framable(cs[k..])
    ensures AllChunks(z, cs + [c]) && (cs + [c])[k..] == cs[k..] + [c] && Framable(cs[k..] + [c])
    ensures Frames(cs[k..] + [c]) == Frames(cs[k..]) + U32(|c|) + c
    ensures |Frames(cs[k..])| + 4 + |c| <= Capacity(z, batch)
  {
    var t := cs[k..];
    assert (t + [c])[..|t|] == t;
    assert AllChunks(z, t + [c]);
    assert Frames(t + [c]) == Frames(t) + U32(|c|) + c;
    FramesFit(z, t + [c], batch);
  }

  lemma SameSize(z: Codec, key: Data, c: Data)
    requires CipherLaws(z)
    ensures |z.encrypt(key, c)| == |c|
  {
  }
}
