/**
 Content-defined chunking (Baseline/src/Client/chunker.cc). `CutPoint` is the gear-hash
 scan of one chunk, `Chunks` cuts a whole file, and `FastCDC` is the client's loop, which
 sees the file through a read buffer and seeks back to the first byte it has not cut.
 */
module Chunker {
  import opened Sequences
  import opened Bytes
  import opened RingArithmetic

  /** `gear` is the table of 256 random words. The masks come from
      `GenerateFastCDCMask`; nothing below depends on their value. */
  datatype Config = Config(
    minSize: nat, avgSize: nat, maxSize: nat, normalSize: nat,
    maskS: nat, maskL: nat, gear: Byte -> nat)

  function DivCeil(a: nat, b: nat): nat
    requires b > 0
  {
    if a % b == 0 then a / b else a / b + 1
  }

  function CalNormalSize(min: nat, av: nat, max: nat): nat {
    var off := min + DivCeil(min, 2);
    var diff := av - (if off > av then av else off);
    if diff > max then max else diff
  }

  /** What `ChunkerInit` insists on for FastCDC. */
  predicate ValidConfig(cfg: Config) {
    && cfg.minSize < cfg.avgSize < cfg.maxSize <= U32_MAX
    && cfg.normalSize == CalNormalSize(cfg.minSize, cfg.avgSize, cfg.maxSize)
  }

  // ----- one cut -----

  /** The 32-bit fingerprint after one more byte. */
  function Roll(cfg: Config, fp: nat, b: Byte): nat {
    (fp / 2 + cfg.gear(b)) % 0x1_0000_0000
  }

  predicate IsBoundary(fp: nat, mask: nat) {
    And(fp, mask) == 0
  }

  datatype Scanned = Cut(at: nat) | Uncut(i: nat, fp: nat)

  /** Scan bytes `i` to `n`, rolling the fingerprint, until the masked bits are all zero. */
  function Scan(cfg: Config, src: Data, i: nat, n: nat, fp: nat, mask: nat): (r: Scanned)
    requires n <= |src|
    ensures match r
      case Cut(at) => i < at <= n
      case Uncut(j, _) => j == if i < n then n else i
    decreases n - i
  {
    if i >= n then Uncut(i, fp) else
    var fp' := Roll(cfg, fp, src[i]);
    if IsBoundary(fp', mask) then Cut(i + 1) else Scan(cfg, src, i + 1, n, fp', mask)
  }

  function Min(a: nat, b: nat): nat {
    if a <= b then a else b
  }

  /** The length of the first chunk of `src`. */
  function CutPoint(cfg: Config, src: Data): (cp: nat)
    requires ValidConfig(cfg)
    ensures cp <= |src| && cp <= cfg.maxSize
    ensures if |src| <= cfg.minSize then cp == |src| else cp > cfg.minSize
  {
    match Scan(cfg, src, Min(|src|, cfg.minSize), Min(cfg.normalSize, |src|), 0, cfg.maskS)
    case Cut(at) => at
    case Uncut(i, fp) =>
      match Scan(cfg, src, i, Min(cfg.maxSize, |src|), fp, cfg.maskL)
      case Cut(at) => at
      case Uncut(j, _) => j
  }

  // What a cut is, without the scan.

  /** The fingerprint of the bytes from `i` to `j`. */
  function Fingerprint(cfg: Config, src: Data, i: nat, j: nat): nat
    requires i <= j <= |src|
  {
    if i == j then 0 else Roll(cfg, Fingerprint(cfg, src, i, j - 1), src[j - 1])
  }

  /** The bytes behind the minimum size up to `k` have a fingerprint whose masked bits are
      zero; up to the normal size the mask is the strict one. */
  predicate BoundaryAt(cfg: Config, src: Data, k: nat)
    requires cfg.minSize <= k <= |src|
  {
    IsBoundary(Fingerprint(cfg, src, cfg.minSize, k), if k <= cfg.normalSize then cfg.maskS else cfg.maskL)
  }

  lemma {:induction false} ScanFinds(cfg: Config, src: Data, start: nat, i: nat, n: nat, mask: nat)
    requires start <= i <= |src| && n <= |src|
    ensures match Scan(cfg, src, i, n, Fingerprint(cfg, src, start, i), mask)
      case Cut(at) =>
        && IsBoundary(Fingerprint(cfg, src, start, at), mask)
        && forall k :: i < k < at ==> !IsBoundary(Fingerprint(cfg, src, start, k), mask)
      case Uncut(j, fp) =>
        && fp == Fingerprint(cfg, src, start, j)
        && forall k :: i < k <= n ==> !IsBoundary(Fingerprint(cfg, src, start, k), mask)
    decreases n - i
  {
    hide Roll, IsBoundary;
    if i < n {
      ScanFinds(cfg, src, start, i + 1, n, mask);
    }
  }

  /** A cut is the first boundary behind the minimum size, or the maximum size or the end of
      the data if there is none before. */
  lemma CutIsFirstBoundary(cfg: Config, src: Data)
    requires ValidConfig(cfg) && |src| > cfg.minSize
    ensures var cp, end := CutPoint(cfg, src), Min(cfg.maxSize, |src|);
      && cfg.minSize < cp <= end
      && (forall k {:trigger BoundaryAt(cfg, src, k)} :: cfg.minSize < k < cp ==> !BoundaryAt(cfg, src, k))
      && (cp == end || BoundaryAt(cfg, src, cp))
  {
    hide Scan, IsBoundary;
    var i, n := cfg.minSize, Min(cfg.normalSize, |src|);
    ScanFinds(cfg, src, i, i, n, cfg.maskS);
    var first := Scan(cfg, src, i, n, 0, cfg.maskS);
    if first.Uncut? {
      ScanFinds(cfg, src, i, first.i, Min(cfg.maxSize, |src|), cfg.maskL);
    }
  }

  /** The two scanning loops. */
  method FindCutPoint(cfg: Config, src: Data) returns (cp: nat)
    requires ValidConfig(cfg)
    ensures cp == CutPoint(cfg, src)
  {
    hide Roll, IsBoundary;
    var fp: nat := 0;
    var i := Min(|src|, cfg.minSize);
    var n := Min(cfg.normalSize, |src|);
    ghost var first := Scan(cfg, src, i, n, 0, cfg.maskS);
    while i < n
      invariant Scan(cfg, src, i, n, fp, cfg.maskS) == first
    {
      fp := Roll(cfg, fp, src[i]);
      if IsBoundary(fp, cfg.maskS) {
        return i + 1;
      }
      i := i + 1;
    }
    n := Min(cfg.maxSize, |src|);
    ghost var second := Scan(cfg, src, i, n, fp, cfg.maskL);
    while i < n
      invariant Scan(cfg, src, i, n, fp, cfg.maskL) == second
    {
      fp := Roll(cfg, fp, src[i]);
      if IsBoundary(fp, cfg.maskL) {
        return i + 1;
      }
      i := i + 1;
    }
    cp := i;
  }

  lemma {:induction false} ScanLocal(cfg: Config, a: Data, b: Data, i: nat, n: nat, fp: nat, mask: nat)
    requires n <= |a| && n <= |b| && a[..n] == b[..n]
    ensures Scan(cfg, a, i, n, fp, mask) == Scan(cfg, b, i, n, fp, mask)
    decreases n - i
  {
    hide Roll, IsBoundary;
    if i < n {
      assert a[i] == a[..n][i] == b[i];
      ScanLocal(cfg, a, b, i + 1, n, Roll(cfg, fp, a[i]), mask);
    }
  }

  /** A cut depends on the next `maxSize` bytes only. */
  lemma CutLocal(cfg: Config, a: Data, b: Data)
    requires ValidConfig(cfg) && cfg.maxSize <= |a| && cfg.maxSize <= |b| && a[..cfg.maxSize] == b[..cfg.maxSize]
    ensures CutPoint(cfg, a) == CutPoint(cfg, b)
  {
    hide Scan;
    var n := cfg.normalSize;
    assert a[..n] == a[..cfg.maxSize][..n];
    assert b[..n] == b[..cfg.maxSize][..n];
    ScanLocal(cfg, a, b, cfg.minSize, n, 0, cfg.maskS);
    var first := Scan(cfg, a, cfg.minSize, n, 0, cfg.maskS);
    if first.Uncut? {
      ScanLocal(cfg, a, b, first.i, cfg.maxSize, first.fp, cfg.maskL);
    }
  }

  // ----- when the strict mask matters -----

  /** No choice of the strict mask changes any cut. */
  ghost predicate StrictMaskUnused(cfg: Config)
    requires ValidConfig(cfg)
  {
    forall m, src {:trigger CutPoint(cfg.(maskS := m), src)} ::
      CutPoint(cfg.(maskS := m), src) == CutPoint(cfg.(maskS := 0), src)
  }

  /** Every word of the gear table is a multiple of 2^32, so that fingerprints stay zero. */
  ghost predicate ZeroGear(cfg: Config) {
    forall b: Byte {:trigger cfg.gear(b)} :: cfg.gear(b) % 0x1_0000_0000 == 0
  }

  /** The normal size lies behind the minimum size iff the average size exceeds about 2.5
      times the minimum. */
  lemma NormalBeyondMin(cfg: Config)
    requires ValidConfig(cfg)
    ensures cfg.normalSize > cfg.minSize <==> cfg.avgSize > 2 * cfg.minSize + DivCeil(cfg.minSize, 2)
  {
  }

  /** The strict mask is never consulted if the normal size is not behind the minimum. */
  lemma NormalizationIsOff(cfg: Config, mask: nat, src: Data)
    requires ValidConfig(cfg) && cfg.normalSize <= cfg.minSize
    ensures CutPoint(cfg.(maskS := mask), src) == CutPoint(cfg, src)
  {
    var i, n := Min(|src|, cfg.minSize), Min(cfg.normalSize, |src|);
    assert i >= n;
    assert Scan(cfg.(maskS := mask), src, i, n, 0, mask) == Uncut(i, 0) == Scan(cfg, src, i, n, 0, cfg.maskS);
    SameScan(cfg, mask, src, i, Min(cfg.maxSize, |src|), 0, cfg.maskL);
  }

  /** With a zero gear every byte behind the minimum size is a boundary. */
  lemma ZeroGearCuts(cfg: Config, src: Data)
    requires ValidConfig(cfg) && ZeroGear(cfg)
    ensures CutPoint(cfg, src) == Min(|src|, cfg.minSize + 1)
  {
    if |src| > cfg.minSize {
      assert Roll(cfg, 0, src[cfg.minSize]) == 0;
    }
  }

  lemma BitSquared(b: nat)
    requires b <= 1
    ensures b * b == b
  {
    if b == 1 {
      assert 1 * 1 == 1;
    }
  }

  lemma {:induction false} AndSelf(x: nat)
    ensures And(x, x) == x
  {
    if x > 0 {
      AndSelf(x / 2);
      BitSquared(x % 2);
    }
  }

  /** Otherwise a run of one byte is cut at different places under two strict masks. */
  lemma StrictMaskMatters(cfg: Config, b: Byte) returns (m: nat, src: Data)
    requires ValidConfig(cfg) && cfg.normalSize > cfg.minSize && cfg.gear(b) % 0x1_0000_0000 != 0
    ensures CutPoint(cfg.(maskS := m), src) != CutPoint(cfg.(maskS := 0), src)
  {
    hide And;
    m := cfg.gear(b) % 0x1_0000_0000;
    src := seq(cfg.minSize + 2, i => b);
    var at := cfg.minSize;
    AndSelf(m);
    AndZero(m);
    assert Roll(cfg, 0, src[at]) == m;
    CutAtOnce(cfg.(maskS := 0), src);
    CutAtOnce(cfg.(maskS := m), src);
  }

  lemma AndZero(x: nat)
    ensures And(x, 0) == 0
  {
  }

  /** The first position behind the minimum size is a cut iff it is a boundary. */
  lemma CutAtOnce(cfg: Config, src: Data)
    requires ValidConfig(cfg) && cfg.normalSize > cfg.minSize && |src| > cfg.minSize + 1
    ensures CutPoint(cfg, src) == cfg.minSize + 1 <==> IsBoundary(Roll(cfg, 0, src[cfg.minSize]), cfg.maskS)
  {
    hide IsBoundary, Roll;
    CutIsFirstBoundary(cfg, src);
    assert Fingerprint(cfg, src, cfg.minSize, cfg.minSize + 1) == Roll(cfg, 0, src[cfg.minSize]);
    assert BoundaryAt(cfg, src, cfg.minSize + 1) <==> IsBoundary(Roll(cfg, 0, src[cfg.minSize]), cfg.maskS);
  }

  /** The strict mask is without influence exactly if the average size is at most about 2.5
      times the minimum size, or the gear table is zero. */
  lemma StrictMaskUnusedIff(cfg: Config)
    requires ValidConfig(cfg)
    ensures StrictMaskUnused(cfg) <==>
      cfg.avgSize <= 2 * cfg.minSize + DivCeil(cfg.minSize, 2) || ZeroGear(cfg)
  {
    hide CutPoint;
    NormalBeyondMin(cfg);
    if cfg.normalSize <= cfg.minSize {
      forall m, src
        ensures CutPoint(cfg.(maskS := m), src) == CutPoint(cfg.(maskS := 0), src)
      {
        NormalizationIsOff(cfg.(maskS := 0), m, src);
      }
    } else if ZeroGear(cfg) {
      forall m, src
        ensures CutPoint(cfg.(maskS := m), src) == CutPoint(cfg.(maskS := 0), src)
      {
        ZeroGearCuts(cfg.(maskS := m), src);
        ZeroGearCuts(cfg.(maskS := 0), src);
      }
    } else {
      var b: Byte :| cfg.gear(b) % 0x1_0000_0000 != 0;
      var m, src := StrictMaskMatters(cfg, b);
    }
  }

  /** With the sizes of constVar.h the strict mask is without influence. */
  lemma ShippedSizes(cfg: Config)
    requires cfg.minSize == 4096 && cfg.avgSize == 8192 && cfg.maxSize == 16384
    requires cfg.normalSize == CalNormalSize(4096, 8192, 16384)
    ensures ValidConfig(cfg) && cfg.normalSize == 2048 && StrictMaskUnused(cfg)
  {
    StrictMaskUnusedIff(cfg);
  }

  lemma {:induction false} SameScan(cfg: Config, maskS: nat, src: Data, i: nat, n: nat, fp: nat, mask: nat)
    requires n <= |src|
    ensures Scan(cfg.(maskS := maskS), src, i, n, fp, mask) == Scan(cfg, src, i, n, fp, mask)
    decreases n - i
  {
    hide IsBoundary;
    if i < n {
      SameScan(cfg, maskS, src, i + 1, n, Roll(cfg, fp, src[i]), mask);
    }
  }

  // ----- a whole file -----

  function Chunks(cfg: Config, file: Data): seq<Data>
    requires ValidConfig(cfg)
    decreases |file|
  {
    if file == [] then [] else
    var cp := CutPoint(cfg, file);
    [file[..cp]] + Chunks(cfg, file[cp..])
  }

  /** The chunks concatenate to the file. */
  lemma {:induction false} ChunksCover(cfg: Config, file: Data)
    requires ValidConfig(cfg)
    ensures Flatten(Chunks(cfg, file)) == file
    decreases |file|
  {
    hide CutPoint;
    if file != [] {
      var cp := CutPoint(cfg, file);
      ChunksCover(cfg, file[cp..]);
      assert Chunks(cfg, file)[1..] == Chunks(cfg, file[cp..]);
      assert file == file[..cp] + file[cp..];
    }
  }

  /** Every chunk is non-empty and at most `maxSize` long; every chunk but the last is longer than `minSize`. */
  lemma {:induction false} ChunkSizes(cfg: Config, file: Data, i: nat)
    requires ValidConfig(cfg) && i < |Chunks(cfg, file)|
    ensures 0 < |Chunks(cfg, file)[i]| <= cfg.maxSize
    ensures i + 1 < |Chunks(cfg, file)| ==> |Chunks(cfg, file)[i]| > cfg.minSize
    decreases |file|
  {
    hide CutPoint;
    var cp := CutPoint(cfg, file);
    if i > 0 {
      ChunkSizes(cfg, file[cp..], i - 1);
    } else if |Chunks(cfg, file)| > 1 {
      assert cp < |file|;
    }
  }

  /** The chunks after a cut are the chunks of the bytes after it. */
  lemma {:induction false} ChunksAfterCut(cfg: Config, file: Data, n: nat)
    requires ValidConfig(cfg) && n <= |Chunks(cfg, file)|
    ensures |Flatten(Chunks(cfg, file)[..n])| <= |file|
    ensures Chunks(cfg, file)[n..] == Chunks(cfg, file[|Flatten(Chunks(cfg, file)[..n])|..])
    decreases n
  {
    hide CutPoint;
    var all := Chunks(cfg, file);
    if n == 0 {
      assert all[..0] == [] && all[0..] == all && file[0..] == file;
    } else {
      var cp := CutPoint(cfg, file);
      var rest := Chunks(cfg, file[cp..]);
      ChunksAfterCut(cfg, file[cp..], n - 1);
      assert all[..n] == [file[..cp]] + rest[..n - 1];
      assert all[..n][1..] == rest[..n - 1];
      var k := |Flatten(rest[..n - 1])|;
      assert file[cp..][k..] == file[cp + k..];
      assert all[n..] == rest[n - 1..];
    }
  }

  /** A chunk on its own is cut into itself. */
  lemma CutOfCut(cfg: Config, src: Data)
    requires ValidConfig(cfg)
    ensures CutPoint(cfg, src[..CutPoint(cfg, src)]) == CutPoint(cfg, src)
  {
    hide CutPoint, IsBoundary;
    var cp := CutPoint(cfg, src);
    var c := src[..cp];
    if |src| > cfg.minSize {
      CutIsFirstBoundary(cfg, src);
      CutIsFirstBoundary(cfg, c);
      var d := CutPoint(cfg, c);
      SameFingerprint(cfg, src, c, cfg.minSize, d);
      assert d < cp ==> !BoundaryAt(cfg, src, d);
    }
  }

  lemma {:induction false} SameFingerprint(cfg: Config, src: Data, c: Data, i: nat, j: nat)
    requires i <= j <= |c| && c <= src
    ensures Fingerprint(cfg, src, i, j) == Fingerprint(cfg, c, i, j)
  {
    hide Roll;
    if i < j {
      SameFingerprint(cfg, src, c, i, j - 1);
    }
  }

  lemma {:induction false} ChunkOfChunk(cfg: Config, file: Data, i: nat)
    requires ValidConfig(cfg) && i < |Chunks(cfg, file)|
    ensures Chunks(cfg, Chunks(cfg, file)[i]) == [Chunks(cfg, file)[i]]
    decreases |file|
  {
    hide CutPoint;
    var cp := CutPoint(cfg, file);
    if i == 0 {
      var c := file[..cp];
      CutOfCut(cfg, file);
      assert c[..cp] == c && c[cp..] == [];
      assert Chunks(cfg, c) == [c] + Chunks(cfg, []);
    } else {
      ChunkOfChunk(cfg, file[cp..], i - 1);
    }
  }

  /** Two files that are cut at points after which their bytes agree are chunked identically
      from there, whatever precedes. */
  lemma Resynchronizes(cfg: Config, f: Data, g: Data, m: nat, n: nat)
    requires ValidConfig(cfg) && m <= |Chunks(cfg, f)| && n <= |Chunks(cfg, g)|
    requires var i, j := |Flatten(Chunks(cfg, f)[..m])|, |Flatten(Chunks(cfg, g)[..n])|;
      i <= |f| && j <= |g| && f[i..] == g[j..]
    ensures Chunks(cfg, f)[m..] == Chunks(cfg, g)[n..]
  {
    ChunksAfterCut(cfg, f, m);
    ChunksAfterCut(cfg, g, n);
  }

  // ----- the buffered loop -----

  /** One `read` at position `pos`: the buffer's contents, and whether it hit end of file. */
  function Read(file: Data, pos: nat, readSize: nat): (r: (Data, bool))
    requires pos <= |file|
    ensures |r.0| <= readSize && pos + |r.0| <= |file|
    ensures r.1 ==> pos + |r.0| == |file|
    ensures !r.1 ==> |r.0| == readSize
  {
    if |file| - pos < readSize then (file[pos..], true) else (file[pos..pos + readSize], false)
  }

  /** Whether the loop gets past the first buffer: it holds a whole chunk or the whole file. */
  predicate BufferSuffices(cfg: Config, file: Data, readSize: nat) {
    cfg.maxSize <= readSize || |file| < readSize
  }

  /** Where a pass over the buffer `buf` ends that stands at `off`. */
  function PassEnd(cfg: Config, buf: Data, end: bool, off: nat): (r: nat)
    requires ValidConfig(cfg) && off <= |buf|
    ensures off <= r <= |buf| && (|buf| - off >= cfg.maxSize ==> r > off)
    decreases |buf| - off
  {
    if |buf| - off >= cfg.maxSize || (end && off < |buf|)
    then PassEnd(cfg, buf, end, off + CutPoint(cfg, buf[off..]))
    else off
  }

  /** The file position, and whether the loop has been left. */
  datatype Progress = Progress(pos: nat, stopped: bool)

  /** The loop after at most `k` passes: read, cut, seek behind the last cut. */
  function Passes(cfg: Config, file: Data, readSize: nat, k: nat): (p: Progress)
    requires ValidConfig(cfg)
    ensures p.pos <= |file|
  {
    if k == 0 then Progress(0, false) else
    var p := Passes(cfg, file, readSize, k - 1);
    if p.stopped then p else
    var (buf, eof) := Read(file, p.pos, readSize);
    if buf == [] then p.(stopped := true) else Progress(p.pos + PassEnd(cfg, buf, eof, 0), eof)
  }

  /** If the buffer does not suffice, every pass over a full buffer cuts nothing and seeks
      back to the start. */
  lemma {:induction false} StuckWhenTooSmall(cfg: Config, file: Data, readSize: nat, k: nat)
    requires ValidConfig(cfg) && readSize > 0 && !BufferSuffices(cfg, file, readSize)
    ensures Passes(cfg, file, readSize, k) == Progress(0, false)
  {
    if k > 0 {
      StuckWhenTooSmall(cfg, file, readSize, k - 1);
    }
  }

  /** If it suffices, every pass moves on or is the last. */
  lemma {:induction false} EveryPassMoves(cfg: Config, file: Data, readSize: nat, k: nat)
    requires ValidConfig(cfg) && BufferSuffices(cfg, file, readSize)
    ensures Passes(cfg, file, readSize, k).stopped || Passes(cfg, file, readSize, k).pos >= k
  {
    hide PassEnd, CutPoint;
    if k > 0 {
      EveryPassMoves(cfg, file, readSize, k - 1);
    }
  }

  ghost predicate Terminates(cfg: Config, file: Data, readSize: nat)
    requires ValidConfig(cfg)
  {
    exists k: nat :: Passes(cfg, file, readSize, k).stopped
  }

  /** The loop is left exactly if the buffer suffices; a buffer of no bytes reads nothing,
      which ends the loop as well. */
  lemma TerminatesIff(cfg: Config, file: Data, readSize: nat)
    requires ValidConfig(cfg)
    ensures Terminates(cfg, file, readSize) <==> BufferSuffices(cfg, file, readSize) || readSize == 0
  {
    if BufferSuffices(cfg, file, readSize) {
      EveryPassMoves(cfg, file, readSize, |file| + 1);
      assert Passes(cfg, file, readSize, |file| + 1).stopped;
    } else if readSize == 0 {
      assert Passes(cfg, file, readSize, 0) == Progress(0, false);
      assert Passes(cfg, file, readSize, 1).stopped;
    } else {
      forall k: nat
        ensures !Passes(cfg, file, readSize, k).stopped
      {
        StuckWhenTooSmall(cfg, file, readSize, k);
      }
    }
  }

  /** Cutting in the buffer is cutting in the file. */
  lemma BufferedCut(cfg: Config, file: Data, pos: nat, buf: Data, off: nat, end: bool)
    requires ValidConfig(cfg) && off <= |buf| && pos + |buf| <= |file| && buf == file[pos..pos + |buf|]
    requires end ==> pos + |buf| == |file|
    requires |buf| - off >= cfg.maxSize || end
    ensures CutPoint(cfg, buf[off..]) == CutPoint(cfg, file[pos + off..])
  {
    hide CutPoint;
    var a, b := buf[off..], file[pos + off..];
    if end {
      assert a == b;
    } else {
      assert a[..cfg.maxSize] == b[..cfg.maxSize];
      CutLocal(cfg, a, b);
    }
  }

  lemma ChunksStep(cfg: Config, file: Data, at: nat)
    requires ValidConfig(cfg) && at < |file|
    ensures var cp := CutPoint(cfg, file[at..]);
      && 0 < cp <= |file| - at
      && Chunks(cfg, file[at..]) == [file[at..at + cp]] + Chunks(cfg, file[at + cp..])
  {
    hide CutPoint;
    var cp := CutPoint(cfg, file[at..]);
    assert file[at..][..cp] == file[at..at + cp];
    assert file[at..][cp..] == file[at + cp..];
  }

  /** Where the client's loop terminates, it emits exactly the chunks of the whole file and
      counts its bytes; with a buffer of no bytes it emits nothing. */
  method FastCDC(cfg: Config, file: Data, readSize: nat) returns (out: seq<Data>, fileSize: nat, chunkNum: nat)
    requires ValidConfig(cfg) && readSize <= U32_MAX && Terminates(cfg, file, readSize)
    ensures BufferSuffices(cfg, file, readSize) ==> out == Chunks(cfg, file) && fileSize == |file|
    ensures !BufferSuffices(cfg, file, readSize) ==> out == [] && fileSize == 0
    ensures chunkNum == |out|
  {
    hide CutPoint, Chunks, PassEnd, Terminates;
    TerminatesIff(cfg, file, readSize);
    out, fileSize, chunkNum := [], 0, 0;
    assert file[0..] == file;
    var totalOffset := 0;
    var end := false;
    while !end
      invariant totalOffset <= |file| && fileSize == totalOffset && chunkNum == |out|
      invariant Chunks(cfg, file) == out + Chunks(cfg, file[totalOffset..])
      invariant end ==> totalOffset == |file|
      invariant !BufferSuffices(cfg, file, readSize) ==> out == [] && totalOffset == 0 && !end
      decreases if end then 0 else 1, |file| - totalOffset
    {
      var (buf, eof) := Read(file, totalOffset, readSize);
      end := eof;
      if |buf| == 0 {
        break;
      }
      var localOffset := 0;
      while |buf| - localOffset >= cfg.maxSize || (end && localOffset < |buf|)
        invariant localOffset <= |buf| && end == eof
        invariant fileSize == totalOffset + localOffset && chunkNum == |out|
        invariant Chunks(cfg, file) == out + Chunks(cfg, file[totalOffset + localOffset..])
        invariant |buf| >= cfg.maxSize ==> localOffset > 0 || |buf| - localOffset >= cfg.maxSize
        decreases |buf| - localOffset
      {
        BufferedCut(cfg, file, totalOffset, buf, localOffset, end);
        ChunksStep(cfg, file, totalOffset + localOffset);
        var cp := FindCutPoint(cfg, buf[localOffset..]);
        ghost var at := totalOffset + localOffset;
        SliceOfSlice(file, totalOffset, buf, localOffset, cp);
        AppendChunk(out, file[at..at + cp], Chunks(cfg, file[at + cp..]));
        out := out + [buf[localOffset..localOffset + cp]];
        localOffset := localOffset + cp;
        fileSize := fileSize + cp;
        chunkNum := chunkNum + 1;
      }
      totalOffset := totalOffset + localOffset;
    }
    if BufferSuffices(cfg, file, readSize) {
      assert file[totalOffset..] == [];
      NoChunks(cfg);
    }
  }

  lemma SliceOfSlice(file: Data, pos: nat, buf: Data, off: nat, n: nat)
    requires pos + |buf| <= |file| && buf == file[pos..pos + |buf|] && off + n <= |buf|
    ensures buf[off..off + n] == file[pos + off..pos + off + n]
  {
    assert forall k :: 0 <= k < |buf| ==> buf[k] == file[pos + k];
  }

  lemma AppendChunk(out: seq<Data>, c: Data, rest: seq<Data>)
    ensures out + ([c] + rest) == (out + [c]) + rest
  {
  }

  lemma NoChunks(cfg: Config)
    requires ValidConfig(cfg)
    ensures Chunks(cfg, []) == []
  {
  }
}
