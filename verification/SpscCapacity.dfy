/**
 What `try_enqueue` returning false means, and the sizes of the blocks.
 */
module SpscCapacity {
  import opened Sequences
  import opened RingArithmetic
  import opened SpscQueue
  import opened SpscInvariant
  import opened SpscSafety
  import opened SpscTheorems

  // ----- block sizes -----

  predicate SizeOk<T>(b: Block<T>, minBlock: nat) {
    b.size >= minBlock && IsPow2(b.size)
  }

  ghost predicate AllSizes<T>(blocks: seq<Block<T>>, minBlock: nat) {
    forall i {:trigger SizeOk(blocks[i], minBlock)} :: 0 <= i < |blocks| ==> SizeOk(blocks[i], minBlock)
  }

  /** Blocks are powers of two, never smaller than the first ones, and never removed. */
  ghost predicate SizeInv<T>(s: State<T>, minBlock: nat, minCount: nat) {
    && AllSizes(s.q.blocks, minBlock) && |s.q.blocks| >= minCount
    && s.q.largestBlockSize >= minBlock >= 1 && IsPow2(s.q.largestBlockSize)
    && (s.prod.PLink? ==> SizeOk(s.prod.made, minBlock))
  }

  lemma AllSizesKept<T>(bs: seq<Block<T>>, cs: seq<Block<T>>, minBlock: nat)
    requires AllSizes(bs, minBlock) && SameSizes(bs, cs)
    requires |cs| > |bs| ==> |cs| == |bs| + 1 && SizeOk(cs[|bs|], minBlock)
    ensures AllSizes(cs, minBlock)
  {
    forall i | 0 <= i < |cs|
      ensures SizeOk(cs[i], minBlock)
    {
      assert i < |bs| ==> SizeOk(bs[i], minBlock);
    }
  }

  lemma SizeStep<T>(s: State<T>, a: Action<T>, minBlock: nat, minCount: nat)
    requires SizeInv(s, minBlock, minCount) && Step(s, a).Ok?
    ensures SizeInv(Step(s, a).state, minBlock, minCount)
  {
    var s' := Step(s, a).state;
    StepSizes(s, a);
    AllSizesKept(s.q.blocks, s'.q.blocks, minBlock);
    StepLargest(s, a, minBlock);
  }

  lemma StepLargest<T>(s: State<T>, a: Action<T>, minBlock: nat)
    requires Step(s, a).Ok? && s.q.largestBlockSize >= minBlock >= 1 && IsPow2(s.q.largestBlockSize)
    requires s.prod.PLink? ==> SizeOk(s.prod.made, minBlock)
    ensures var s' := Step(s, a).state;
      && s'.q.largestBlockSize >= minBlock && IsPow2(s'.q.largestBlockSize)
      && (s'.prod.PLink? ==> SizeOk(s'.prod.made, minBlock))
  {
    assert IsPow2(s.q.largestBlockSize * 2);
  }

  lemma {:induction false} RunSizes<T>(size: nat, maxBlock: nat, schedule: seq<Action<T>>, trace: seq<State<T>>, i: nat)
    requires IsRun(size, maxBlock, schedule, trace) && i < |trace|
    ensures SizeInv(trace[i], InitialBlocks(size, maxBlock).1, InitialBlocks(size, maxBlock).0)
    decreases i
  {
    var (count, block) := InitialBlocks(size, maxBlock);
    if i == 0 {
      var bs := trace[0].q.blocks;
      forall k | 0 <= k < |bs|
        ensures SizeOk(bs[k], block)
      {
      }
    } else {
      RunSizes(size, maxBlock, schedule, trace, i - 1);
      assert Moves(schedule, trace, i - 1);
      SizeStep(trace[i - 1], schedule[i - 1], block, count);
    }
  }

  /** In every reachable state every block size is a power of two, so that masking with
      `sizeMask` is the `Advance` of the model. */
  lemma MaskingIsAdvancing<T>(size: nat, maxBlock: nat, schedule: seq<Action<T>>, trace: seq<State<T>>, i: nat,
                              b: nat, k: nat)
    requires IsRun(size, maxBlock, schedule, trace) && i < |trace| && b < |trace[i].q.blocks|
    requires k < trace[i].q.blocks[b].size
    ensures And(k + 1, trace[i].q.blocks[b].size - 1) == Advance(k, trace[i].q.blocks[b].size)
  {
    RunSizes(size, maxBlock, schedule, trace, i);
    assert SizeOk(trace[i].q.blocks[b], InitialBlocks(size, maxBlock).1);
    MaskedIncrement(k, trace[i].q.blocks[b].size);
  }

  // ----- how much a full queue holds -----

  /** The tail block's successor is the front block: no block is free. */
  predicate Surrounded<T>(q: Queue<T>) {
    q.tailBlock < |q.blocks| && q.blocks[q.tailBlock].next == q.frontBlock
  }

  lemma SurroundedMeansLast<T>(s: State<T>, ring: seq<nat>, t: nat)
    requires RingInv(s.q, ring, t)
    ensures Surrounded(s.q) <==> t + 1 == |ring|
  {
    assert Linked(s.q, ring, t);
  }

  lemma PackedLength<T>(s: State<T>, i: nat, minBlock: nat)
    requires i < |s.q.blocks| && IsPacked(s.q.blocks[i]) && SlotsOk(Settled(s, i)) && s.q.blocks[i].size >= minBlock
    ensures |BlockItems(Settled(s, i))| >= minBlock - 1
  {
    BlockLength(Settled(s, i));
  }

  /** A full tail block and no free block: every block but perhaps the front one is packed. */
  lemma PartsWhenFull<T>(s: State<T>, ring: seq<nat>, t: nat, minBlock: nat, minCount: nat)
    requires Inv(s, ring, t) && SizeInv(s, minBlock, minCount) && IsPacked(s.q.blocks[s.q.tailBlock])
    ensures forall k :: 0 <= k <= t && (k > 0 || t == 0) ==> |Parts(s, ring, t)[k]| >= minBlock - 1
  {
    forall k | 0 <= k <= t && (k > 0 || t == 0)
      ensures |Parts(s, ring, t)[k]| >= minBlock - 1
    {
      assert IsPacked(s.q.blocks[ring[k]]);
      assert SizeOk(s.q.blocks[ring[k]], minBlock);
      assert SlotsOk(Settled(s, ring[k]));
      PackedLength(s, ring[k], minBlock);
    }
  }

  lemma FullHoldsEnough<T>(s: State<T>, minBlock: nat, minCount: nat)
    requires Good(s) && SizeInv(s, minBlock, minCount) && minCount >= 1
    requires Surrounded(s.q) && IsPacked(s.q.blocks[s.q.tailBlock])
    ensures |Contents(s)| >= (minCount - 1) * (minBlock - 1)
    ensures |Contents(s)| >= minBlock - 1
  {
    hide Contents, IsPacked, History, InFlight, AllSlots, Occupancy;
    var ring: seq<nat>, t: nat :| Inv(s, ring, t);
    SurroundedMeansLast(s, ring, t);
    ContentsIsFlatten(s, ring, t);
    PartsWhenFull(s, ring, t, minBlock, minCount);
    EnoughInAll(Parts(s, ring, t), minBlock - 1, minCount);
  }

  lemma EnoughInAll<T>(ps: seq<seq<T>>, each: nat, minCount: nat)
    requires |ps| >= minCount >= 1
    requires forall k :: 0 <= k < |ps| && (k > 0 || |ps| == 1) ==> |ps[k]| >= each
    ensures |Flatten(ps)| >= (minCount - 1) * each && |Flatten(ps)| >= each
  {
    if |ps| == 1 {
      FlattenAtLeast(ps, 0, each);
    } else {
      FlattenAtLeast(ps, 1, each);
      assert (|ps| - 1) * each >= (minCount - 1) * each;
      assert (|ps| - 1) * each >= 1 * each;
    }
  }

  /** The constructor's arithmetic: blocks suffice for `size` elements even when the
      producer and the consumer are in different blocks. */
  lemma InitialBlocksSuffice(size: nat, maxBlock: nat)
    requires MaxBlockOk(maxBlock)
    ensures var (count, block) := InitialBlocks(size, maxBlock);
      count >= 1 && block >= 1 && ((count - 1) * (block - 1) >= size || block - 1 >= size)
  {
    var (count, block) := InitialBlocks(size, maxBlock);
    if CeilToPow2(size + 1) > maxBlock * 2 {
      var a, m := size + maxBlock * 2 - 3, maxBlock - 1;
      assert a == (a / m) * m + a % m;
      assert (count - 1) * m == (a / m) * m - m;
    }
  }

  // ----- what `try_enqueue` returning false means -----

  predicate Waiting<T>(p: Producer<T>) {
    p.PLoadNext? || p.PLoadFrontBlock?
  }

  lemma ConsumerLeavesProducer<T>(s: State<T>)
    requires ConsumerStep(s).Ok?
    ensures ConsumerStep(s).state.prod == s.prod
  {
  }

  /** The consumer never closes the ring behind the producer. */
  lemma ConsumerKeepsSurrounded<T>(p: State<T>)
    requires Good(p) && ConsumerStep(p).Ok? && Surrounded(ConsumerStep(p).state.q)
    ensures Surrounded(p.q)
  {
    var ring: seq<nat>, t: nat :| Inv(p, ring, t);
    var ring', t' := ConsumerKeeps(p, ring, t);
    SurroundedMeansLast(p, ring, t);
    SurroundedMeansLast(ConsumerStep(p).state, ring', t');
  }

  lemma WaitsAfterFull<T>(p: State<T>, y: T, mode: bool, memory: bool)
    requires Good(p) && ProducerStep(p, y, mode, memory).Ok? && Waiting(ProducerStep(p, y, mode, memory).state.prod)
    ensures var s := ProducerStep(p, y, mode, memory).state;
      if p.prod.PLoadFront? then s.q.tailBlock < |s.q.blocks| && IsPacked(s.q.blocks[s.q.tailBlock])
      else Waiting(p.prod) && s.q == p.q
  {
    EntersWaiting(p, y, mode, memory);
    if p.prod.PLoadFront? {
      LoadFrontFacts(p);
    }
  }

  lemma EntersWaiting<T>(p: State<T>, y: T, mode: bool, memory: bool)
    requires ProducerStep(p, y, mode, memory).Ok? && Waiting(ProducerStep(p, y, mode, memory).state.prod)
    ensures var s := ProducerStep(p, y, mode, memory).state;
      if p.prod.PLoadFront? then
        && p.prod.tb < |p.q.blocks| == |s.q.blocks| && s.q.tailBlock == p.q.tailBlock
        && var b, c := p.q.blocks[p.prod.tb], s.q.blocks[p.prod.tb];
           p.prod.nt == b.front == c.front && b.tail == c.tail && b.size == c.size
      else Waiting(p.prod) && s.q == p.q
  {
  }

  lemma LoadFrontFacts<T>(p: State<T>)
    requires Good(p) && p.prod.PLoadFront?
    ensures p.prod.tb == p.q.tailBlock < |p.q.blocks|
    ensures var b := p.q.blocks[p.q.tailBlock];
      p.prod.bt == b.tail < b.size && p.prod.nt == Advance(b.tail, b.size)
  {
    var ring: seq<nat>, t: nat :| Inv(p, ring, t);
  }

  lemma WaitingStep<T>(p: State<T>, a: Action<T>, size: nat, minBlock: nat, minCount: nat)
    requires Good(p) && Step(p, a).Ok? && Good(Step(p, a).state) && Waiting(Step(p, a).state.prod)
    requires SizeInv(Step(p, a).state, minBlock, minCount) && minCount >= 1
    requires (minCount - 1) * (minBlock - 1) >= size || minBlock - 1 >= size
    ensures var s := Step(p, a).state;
      if a.Produce? && p.prod.PLoadFront? then Surrounded(s.q) ==> |Contents(s)| >= size
      else Waiting(p.prod) && (Surrounded(s.q) ==> Surrounded(p.q))
  {
    var s := Step(p, a).state;
    if a.Consume? {
      ConsumerLeavesProducer(p);
      if Surrounded(s.q) {
        ConsumerKeepsSurrounded(p);
      }
    } else {
      WaitsAfterFull(p, a.x, a.alloc, a.memory);
      if p.prod.PLoadFront? && Surrounded(s.q) {
        FullHoldsEnough(s, minBlock, minCount);
      }
    }
  }

  lemma SufficientSizes<T>(size: nat, maxBlock: nat, schedule: seq<Action<T>>, trace: seq<State<T>>, j: nat)
      returns (block: nat, count: nat)
    requires IsRun(size, maxBlock, schedule, trace) && j < |trace|
    ensures SizeInv(trace[j], block, count) && count >= 1
    ensures (count - 1) * (block - 1) >= size || block - 1 >= size
  {
    RunSizes(size, maxBlock, schedule, trace, j);
    InitialBlocksSuffice(size, maxBlock);
    count, block := InitialBlocks(size, maxBlock).0, InitialBlocks(size, maxBlock).1;
  }

  lemma WaitingInRun<T>(size: nat, maxBlock: nat, schedule: seq<Action<T>>, trace: seq<State<T>>, j: nat)
    requires IsRun(size, maxBlock, schedule, trace) && 0 < j < |trace| && Waiting(trace[j].prod)
    ensures if schedule[j - 1].Produce? && trace[j - 1].prod.PLoadFront?
            then Surrounded(trace[j].q) ==> |Contents(trace[j])| >= size
            else Waiting(trace[j - 1].prod) && (Surrounded(trace[j].q) ==> Surrounded(trace[j - 1].q))
  {
    hide ConsumerStep, ProducerStep, Good, Contents, Surrounded, SizeInv, Waiting;
    var block, count := SufficientSizes(size, maxBlock, schedule, trace, j);
    RunIsGood(size, maxBlock, schedule, trace, j);
    RunIsGood(size, maxBlock, schedule, trace, j - 1);
    assert Moves(schedule, trace, j - 1);
    WaitingStep(trace[j - 1], schedule[j - 1], size, block, count);
  }

  lemma RunShape<T>(size: nat, maxBlock: nat, schedule: seq<Action<T>>, trace: seq<State<T>>)
    requires IsRun(size, maxBlock, schedule, trace)
    ensures |trace| == |schedule| + 1 && !Waiting(trace[0].prod)
  {
  }

  lemma {:induction false} FoundFull<T>(size: nat, maxBlock: nat, schedule: seq<Action<T>>, trace: seq<State<T>>,
                                        j: nat)
      returns (m: nat)
    requires IsRun(size, maxBlock, schedule, trace) && j < |trace| && Waiting(trace[j].prod)
    ensures m <= j && forall k :: m <= k <= j ==> Waiting(trace[k].prod)
    ensures Surrounded(trace[j].q) ==> |Contents(trace[m])| >= size
    decreases j
  {
    hide IsRun, Contents, Surrounded, Waiting;
    m := j;
    RunShape(size, maxBlock, schedule, trace);
    if j > 0 {
      WaitingInRun(size, maxBlock, schedule, trace, j);
      if !(schedule[j - 1].Produce? && trace[j - 1].prod.PLoadFront?) {
        m := FoundFull(size, maxBlock, schedule, trace, j - 1);
      }
    }
  }

  lemma FalseMeansSurrounded<T>(p: State<T>, a: Action<T>)
    requires Good(p) && Step(p, a).Ok? && p.prod != PReturned(false) && Step(p, a).state.prod == PReturned(false)
    ensures a.Produce?
    ensures (p.prod.PAlloc? && !a.memory) || (p.prod.PLoadFrontBlock? && !p.prod.alloc && Surrounded(p.q))
  {
    if a.Consume? {
      ConsumerLeavesProducer(p);
    }
    OnlyFromCheck(p, a.x, a.alloc, a.memory);
    if p.prod.PLoadFrontBlock? {
      LoadFrontBlockFacts(p);
    }
  }

  lemma OnlyFromCheck<T>(p: State<T>, y: T, mode: bool, memory: bool)
    requires ProducerStep(p, y, mode, memory).Ok? && ProducerStep(p, y, mode, memory).state.prod == PReturned(false)
    ensures (p.prod.PAlloc? && !memory) ||
            (p.prod.PLoadFrontBlock? && !p.prod.alloc && p.prod.next == p.q.frontBlock)
  {
  }

  lemma LoadFrontBlockFacts<T>(p: State<T>)
    requires Good(p) && p.prod.PLoadFrontBlock?
    ensures p.q.tailBlock < |p.q.blocks| && p.prod.next == p.q.blocks[p.q.tailBlock].next
  {
    var ring: seq<nat>, t: nat :| Inv(p, ring, t);
  }

  /** An enqueue call that returns false in the step after moment `j` either asked for memory
      in vain, or was a `try_enqueue` during which, at moment `m`, at least `size` elements
      were queued, where `size` is what the constructor was given. */
  lemma FalseEnqueueSawFull<T>(size: nat, maxBlock: nat, schedule: seq<Action<T>>, trace: seq<State<T>>, j: nat)
      returns (m: nat)
    requires IsRun(size, maxBlock, schedule, trace) && j < |schedule|
    requires trace[j].prod != PReturned(false) && trace[j + 1].prod == PReturned(false)
    ensures schedule[j].Produce?
    ensures (trace[j].prod.PAlloc? && !schedule[j].memory) ||
            (m <= j && |Contents(trace[m])| >= size && forall k :: m <= k <= j ==> Waiting(trace[k].prod))
  {
    RunIsGood(size, maxBlock, schedule, trace, j);
    assert Moves(schedule, trace, j);
    FalseMeansSurrounded(trace[j], schedule[j]);
    m := 0;
    if !trace[j].prod.PAlloc? {
      m := FoundFull(size, maxBlock, schedule, trace, j);
    }
  }
}
