/**
 Bytes and the framing of chunks inside a message: a 32-bit little-endian length, then
 the content, one frame after the other (Baseline/include/chunkStructure.h,
 Baseline/src/Client/dataSender.cc, Baseline/src/Server/recvDecoder.cc).
 */
module Bytes {
  type Byte = x: int | 0 <= x < 256
  type Data = seq<Byte>

  const U32_MAX: nat := 0xFFFF_FFFF

  function U32(n: nat): (r: Data)
    requires n <= U32_MAX
    ensures |r| == 4
  {
    [n % 256, n / 256 % 256, n / 65536 % 256, n / 16777216 % 256]
  }

  function ReadU32(d: Data, at: nat): (n: nat)
    requires at + 4 <= |d|
    ensures n <= U32_MAX
  {
    var b0: int, b1: int, b2: int, b3: int := d[at], d[at + 1], d[at + 2], d[at + 3];
    b0 + 256 * b1 + 65536 * b2 + 16777216 * b3
  }

  /** Four bytes written by `memcpy` from a `uint32_t` read back as the same number. */
  lemma U32RoundTrip(before: Data, n: nat, after: Data)
    requires n <= U32_MAX
    ensures ReadU32(before + U32(n) + after, |before|) == n
  {
    var d := before + U32(n) + after;
    var k := |before|;
    assert d[k] == n % 256 && d[k + 1] == n / 256 % 256;
    assert d[k + 2] == n / 65536 % 256 && d[k + 3] == n / 16777216 % 256;
    assert n / 65536 == n / 256 / 256 && n / 16777216 == n / 256 / 256 / 256;
  }

  predicate Framable(cs: seq<Data>) {
    forall i :: 0 <= i < |cs| ==> |cs[i]| <= U32_MAX
  }

  function Frame(c: Data): Data
    requires |c| <= U32_MAX
  {
    U32(|c|) + c
  }

  /** The data section of a message that carries the chunks `cs`. */
  function Frames(cs: seq<Data>): Data
    requires Framable(cs)
  {
    if cs == [] then [] else Frames(cs[..|cs| - 1]) + Frame(cs[|cs| - 1])
  }

  lemma {:induction false} FramesAppend(a: seq<Data>, b: seq<Data>)
    requires Framable(a) && Framable(b)
    ensures Framable(a + b) && Frames(a + b) == Frames(a) + Frames(b)
    decreases |b|
  {
    hide Frame;
    if b == [] {
      assert a + b == a;
    } else {
      var k := |b| - 1;
      FramesAppend(a, b[..k]);
      assert (a + b)[..|a + b| - 1] == a + b[..k];
      assert Frames(a + b) == Frames(a) + Frames(b[..k]) + Frame(b[k]);
    }
  }

  /** Where frame `i` starts, its length field and its content are read back. */
  lemma FrameAt(cs: seq<Data>, i: nat)
    requires Framable(cs) && i < |cs|
    ensures var d, at := Frames(cs), |Frames(cs[..i])|;
      && at + 4 + |cs[i]| <= |d|
      && ReadU32(d, at) == |cs[i]| && d[at + 4..at + 4 + |cs[i]|] == cs[i]
      && |Frames(cs[..i + 1])| == at + 4 + |cs[i]|
  {
    var before, after := Frames(cs[..i]), Frames(cs[i + 1..]);
    assert cs == cs[..i + 1] + cs[i + 1..];
    FramesAppend(cs[..i + 1], cs[i + 1..]);
    assert cs[..i + 1][..i] == cs[..i];
    var d := Frames(cs);
    assert d == before + (U32(|cs[i]|) + cs[i]) + after;
    assert d == before + U32(|cs[i]|) + (cs[i] + after);
    U32RoundTrip(before, |cs[i]|, cs[i] + after);
    assert d[|before| + 4..|before| + 4 + |cs[i]|] == cs[i];
  }

  lemma NoFrames(cs: seq<Data>)
    ensures Framable(cs[..0]) && Frames(cs[..0]) == []
  {
  }

  lemma FramesStep(cs: seq<Data>, i: nat)
    requires Framable(cs) && i < |cs|
    ensures Framable(cs[..i]) && Framable(cs[..i + 1]) && Frames(cs[..i + 1]) == Frames(cs[..i]) + Frame(cs[i])
  {
    assert cs[..i + 1][..i] == cs[..i];
  }

  /** `memcpy` of `d` to position `at`. */
  method CopyTo(buf: array<Byte>, at: nat, d: Data)
    requires at + |d| <= buf.Length
    modifies buf
    ensures buf[..at + |d|] == old(buf[..at]) + d
  {
    forall i | 0 <= i < |d| {
      buf[at + i] := d[i];
    }
  }
}
