/**
 The frequency counting of the TED key manager (Baseline/src/KeyManager/tedKM.cc): a
 count-min sketch of 32-bit counters, updated for every request and cleared when the
 client disconnects.
 */
module TedSketch {

  const DEPTH: nat := 4
  const WIDTH: nat := 0x10_0000
  const WRAP: nat := 0x1_0000_0000

  /** A short hash: one 32-bit word per row. */
  type ShortHash = w: seq<nat> | |w| == DEPTH witness [0, 0, 0, 0]

  function Column(w: ShortHash, j: nat): (c: nat)
    requires j < DEPTH
    ensures c < WIDTH
  {
    w[j] % WIDTH
  }

  // ----- what the counters mean -----

  /** How many requests of `hist` fall into column `c` of row `j`. */
  function CellCount(hist: seq<ShortHash>, j: nat, c: nat): (n: nat)
    requires j < DEPTH
    ensures n <= |hist|
  {
    if hist == [] then 0 else
    var k := |hist| - 1;
    CellCount(hist[..k], j, c) + if Column(hist[k], j) == c then 1 else 0
  }

  /** A 32-bit counter after `n` increments. */
  function Wrapped(n: nat): nat {
    n % WRAP
  }

  lemma WrapStep(n: nat)
    ensures (Wrapped(n) + 1) % WRAP == Wrapped(n + 1)
    ensures Wrapped(n + 1) < WRAP && (n + 1 < WRAP ==> Wrapped(n + 1) == n + 1)
  {
  }

  lemma CountOneMore(hist: seq<ShortHash>, w: ShortHash, j: nat)
    requires j < DEPTH
    ensures forall c: nat {:trigger CellCount(hist + [w], j, c)} ::
      CellCount(hist + [w], j, c) == CellCount(hist, j, c) + if c == Column(w, j) then 1 else 0
  {
    hide Column;
    assert (hist + [w])[..|hist|] == hist;
  }

  /** How many requests of `hist` are `w` itself. */
  function Exact(hist: seq<ShortHash>, w: ShortHash): nat {
    if hist == [] then 0 else
    var k := |hist| - 1;
    Exact(hist[..k], w) + if hist[k] == w then 1 else 0
  }

  /** Some other request of `hist` shares the cell of `w` in row `j`. */
  predicate Collides(hist: seq<ShortHash>, w: ShortHash, j: nat)
    requires j < DEPTH
  {
    exists i :: 0 <= i < |hist| && hist[i] != w && Column(hist[i], j) == Column(w, j)
  }

  /** A cell counts at least its own hash, and exactly it iff nothing else falls there. */
  lemma {:induction false} CellVersusExact(hist: seq<ShortHash>, w: ShortHash, j: nat)
    requires j < DEPTH
    ensures CellCount(hist, j, Column(w, j)) >= Exact(hist, w)
    ensures CellCount(hist, j, Column(w, j)) == Exact(hist, w) <==> !Collides(hist, w, j)
  {
    hide Column;
    if hist != [] {
      var k := |hist| - 1;
      CellVersusExact(hist[..k], w, j);
      CollidesSnoc(hist, w, j);
    }
  }

  lemma CollidesSnoc(hist: seq<ShortHash>, w: ShortHash, j: nat)
    requires j < DEPTH && hist != []
    ensures var k := |hist| - 1;
      Collides(hist, w, j) <==> Collides(hist[..k], w, j) || (hist[k] != w && Column(hist[k], j) == Column(w, j))
  {
    hide Column;
    var k := |hist| - 1;
    if Collides(hist, w, j) {
      var i :| 0 <= i < |hist| && hist[i] != w && Column(hist[i], j) == Column(w, j);
      assert i < k ==> hist[..k][i] == hist[i];
    }
    if Collides(hist[..k], w, j) {
      var i :| 0 <= i < k && hist[..k][i] != w && Column(hist[..k][i], j) == Column(w, j);
      assert hist[i] == hist[..k][i];
    }
  }

  /** The first `n` counters of row `j`, added up. */
  function RowSum(hist: seq<ShortHash>, j: nat, n: nat): nat
    requires j < DEPTH
  {
    if n == 0 then 0 else RowSum(hist, j, n - 1) + CellCount(hist, j, n - 1)
  }

  lemma {:induction false} RowSumSnoc(hist: seq<ShortHash>, j: nat, n: nat)
    requires j < DEPTH && hist != []
    ensures var k := |hist| - 1;
      RowSum(hist, j, n) == RowSum(hist[..k], j, n) + if Column(hist[k], j) < n then 1 else 0
  {
    hide Column;
    if n > 0 {
      RowSumSnoc(hist, j, n - 1);
    }
  }

  lemma {:induction false} RowSumOfNone(j: nat, n: nat)
    requires j < DEPTH
    ensures RowSum([], j, n) == 0
  {
    if n > 0 {
      RowSumOfNone(j, n - 1);
    }
  }

  /** The counts of a row add up to the number of requests. */
  lemma {:induction false} CountsSumToRequests(hist: seq<ShortHash>, j: nat)
    requires j < DEPTH
    ensures RowSum(hist, j, WIDTH) == |hist|
  {
    hide Column;
    if hist == [] {
      RowSumOfNone(j, WIDTH);
    } else {
      CountsSumToRequests(hist[..|hist| - 1], j);
      RowSumSnoc(hist, j, WIDTH);
    }
  }

  /** Wrapping a counter takes away a multiple of 2^32. */
  lemma WrappedBelow(n: nat)
    ensures Wrapped(n) <= n && (Wrapped(n) == n <==> n < WRAP) && (n - Wrapped(n)) % WRAP == 0
  {
    assert n - Wrapped(n) == n / WRAP * WRAP;
  }

  /** None of the first `n` counters of row `j` has wrapped around. */
  ghost predicate Unwrapped(hist: seq<ShortHash>, j: nat, n: nat)
    requires j < DEPTH
  {
    forall c: nat {:trigger CellCount(hist, j, c)} :: c < n ==> CellCount(hist, j, c) < WRAP
  }

  lemma UnwrappedStep(hist: seq<ShortHash>, j: nat, n: nat)
    requires j < DEPTH && n > 0
    ensures Unwrapped(hist, j, n) <==> Unwrapped(hist, j, n - 1) && CellCount(hist, j, n - 1) < WRAP
  {
  }

  lemma NoCounters(hist: seq<ShortHash>, j: nat)
    requires j < DEPTH
    ensures Unwrapped(hist, j, 0)
  {
  }

  lemma SameResidue(a: nat, b: nat)
    requires b <= a && (a - b) % WRAP == 0
    ensures a % WRAP == b % WRAP
  {
  }

  lemma MultiplesAdd(a: nat, b: nat)
    requires a % WRAP == 0 && b % WRAP == 0
    ensures (a + b) % WRAP == 0
  {
  }

  /** What the key manager uses as the frequency of `w`. */
  ghost predicate IsEstimate(hist: seq<ShortHash>, w: ShortHash, freq: nat) {
    && freq >= Exact(hist, w)
    && (freq == Exact(hist, w) <==> exists j: nat :: j < DEPTH && !Collides(hist, w, j))
  }

  class Sketch {
    const table: array2<nat>
    /** The requests since the last reset. */
    ghost var hist: seq<ShortHash>

    /** The counters, which wrap around at 2^32. */
    ghost predicate Valid()
      reads this, table
    {
      && table.Length0 == DEPTH && table.Length1 == WIDTH
      && forall j, c :: 0 <= j < DEPTH && 0 <= c < WIDTH ==> table[j, c] == Wrapped(CellCount(hist, j, c))
    }

    /** The first `n` counters of row `j` of the table, added up. */
    ghost function TableSum(j: nat, n: nat): nat
      requires Valid() && j < DEPTH && n <= WIDTH
      reads this, table
    {
      if n == 0 then 0 else TableSum(j, n - 1) + table[j, n - 1]
    }

    /** The counters against the counts: what is missing is a multiple of 2^32, and nothing
        is missing iff no counter has wrapped around. */
    lemma {:induction false} TableVersusCounts(j: nat, n: nat)
      requires Valid() && j < DEPTH && n <= WIDTH
      ensures TableSum(j, n) <= RowSum(hist, j, n) && (RowSum(hist, j, n) - TableSum(j, n)) % WRAP == 0
      ensures TableSum(j, n) == RowSum(hist, j, n) <==> Unwrapped(hist, j, n)
    {
      hide Wrapped, CellCount, Unwrapped;
      NoCounters(hist, j);
      if n > 0 {
        TableVersusCounts(j, n - 1);
        UnwrappedStep(hist, j, n);
        var x := CellCount(hist, j, n - 1);
        WrappedBelow(x);
        MultiplesAdd(RowSum(hist, j, n - 1) - TableSum(j, n - 1), x - Wrapped(x));
      }
    }

    /** Every row of the table sums to the number of requests since the last reset, modulo
        2^32; exactly iff no counter of the row has wrapped around, which takes 2^32 requests. */
    lemma RowSumIsRequests(j: nat)
      requires Valid() && j < DEPTH
      ensures TableSum(j, WIDTH) % WRAP == |hist| % WRAP
      ensures TableSum(j, WIDTH) == |hist| <==> Unwrapped(hist, j, WIDTH)
      ensures |hist| < WRAP ==> TableSum(j, WIDTH) == |hist|
    {
      hide Wrapped, TableSum;
      TableVersusCounts(j, WIDTH);
      CountsSumToRequests(hist, j);
      SameResidue(|hist|, TableSum(j, WIDTH));
    }

    constructor ()
      ensures Valid() && hist == [] && fresh(table)
    {
      table := new nat[DEPTH, WIDTH]((j, c) => 0);
      hist := [];
    }

    /** One request: every row counts it, and the smallest counter is its frequency. */
    method Update(shortHash: ShortHash) returns (curFreq: nat)
      requires Valid()
      modifies this, table
      ensures Valid() && hist == old(hist) + [shortHash]
      ensures |hist| < WRAP ==> IsEstimate(hist, shortHash, curFreq)
    {
      hide Column, Collides, Exact, Wrapped, CellCount, IsEstimate;
      ghost var was, now := hist, hist + [shortHash];
      curFreq := WRAP - 1;
      ghost var best := 0;
      for j := 0 to DEPTH
        invariant hist == was && (j == 0 ==> curFreq == WRAP - 1)
        invariant forall i, c :: 0 <= i < DEPTH && 0 <= c < WIDTH ==>
          table[i, c] == Wrapped(CellCount(if i < j then now else was, i, c))
        invariant |now| < WRAP ==> forall i :: 0 <= i < j ==> curFreq <= CellCount(now, i, Column(shortHash, i))
        invariant |now| < WRAP && j > 0 ==> 0 <= best < j && curFreq == CellCount(now, best, Column(shortHash, best))
      {
        var c := Column(shortHash, j);
        CountOneMore(was, shortHash, j);
        WrapStep(CellCount(was, j, c));
        assert CellCount(was, j, c) <= |was|;
        table[j, c] := (table[j, c] + 1) % WRAP;
        if curFreq > table[j, c] || j == 0 {
          best := j;
        }
        if curFreq > table[j, c] {
          curFreq := table[j, c];
        }
      }
      if |now| < WRAP {
        Estimates(now, shortHash, curFreq, best);
      }
      hist := now;
    }

    /** A batch of key generation requests. */
    method Serve(batch: seq<ShortHash>) returns (freqs: seq<nat>)
      requires Valid()
      modifies this, table
      ensures Valid() && hist == old(hist) + batch && |freqs| == |batch|
      ensures forall i {:trigger freqs[i]} :: 0 <= i < |batch| && |old(hist)| + i + 1 < WRAP ==>
        IsEstimate(old(hist) + batch[..i + 1], batch[i], freqs[i])
    {
      hide IsEstimate;
      freqs := [];
      for i := 0 to |batch|
        invariant Valid() && hist == old(hist) + batch[..i] && |freqs| == i
        invariant forall k {:trigger freqs[k]} :: 0 <= k < i && |old(hist)| + k + 1 < WRAP ==>
          IsEstimate(old(hist) + batch[..k + 1], batch[k], freqs[k])
      {
        var f := Update(batch[i]);
        assert old(hist) + batch[..i] + [batch[i]] == old(hist) + batch[..i + 1];
        freqs := freqs + [f];
      }
      assert batch[..|batch|] == batch;
    }

    /** The client closed the connection. */
    method Reset()
      requires Valid()
      modifies this, table
      ensures Valid() && hist == []
    {
      for i := 0 to DEPTH
        invariant forall a, b :: 0 <= a < i && 0 <= b < WIDTH ==> table[a, b] == 0
      {
        for j := 0 to WIDTH
          invariant forall a, b :: 0 <= a < i && 0 <= b < WIDTH ==> table[a, b] == 0
          invariant forall b :: 0 <= b < j ==> table[i, b] == 0
        {
          table[i, j] := 0;
        }
      }
      hist := [];
    }
  }

  lemma Estimates(hist: seq<ShortHash>, w: ShortHash, freq: nat, best: nat)
    requires best < DEPTH && freq == CellCount(hist, best, Column(w, best))
    requires forall i :: 0 <= i < DEPTH ==> freq <= CellCount(hist, i, Column(w, i))
    ensures IsEstimate(hist, w, freq)
  {
    hide Column, Collides, Exact;
    forall j: nat | j < DEPTH
      ensures CellCount(hist, j, Column(w, j)) >= Exact(hist, w)
      ensures CellCount(hist, j, Column(w, j)) == Exact(hist, w) <==> !Collides(hist, w, j)
    {
      CellVersusExact(hist, w, j);
    }
  }
}
