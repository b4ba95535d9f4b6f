/**
 What the queue guarantees on every schedule of one producer and one consumer.
 */
module SpscTheorems {
  import opened Sequences
  import opened RingArithmetic
  import opened SpscQueue
  import opened SpscInvariant
  import opened SpscSafety

  // ----- reachable states -----

  /** The template parameter MAX_BLOCK_SIZE, as the constructor asserts it. */
  predicate MaxBlockOk(maxBlock: nat) {
    maxBlock >= 2 && IsPow2(maxBlock)
  }

  predicate TryOnly<T>(schedule: seq<Action<T>>) {
    forall i :: 0 <= i < |schedule| && schedule[i].Produce? ==> !schedule[i].alloc
  }

  /** A queue made for no elements has a one-slot block, which only `try_enqueue` copes with. */
  predicate Supported<T>(size: nat, schedule: seq<Action<T>>) {
    size >= 1 || TryOnly(schedule)
  }

  ghost predicate Good<T>(s: State<T>) {
    exists ring: seq<nat>, t: nat :: Inv(s, ring, t)
  }

  function Run<T>(size: nat, maxBlock: nat, schedule: seq<Action<T>>): Outcome<State<T>>
    requires MaxBlockOk(maxBlock)
  {
    Exec(Construct(size, maxBlock), schedule)
  }

  lemma ConstructGood<T>(size: nat, maxBlock: nat)
    requires MaxBlockOk(maxBlock)
    ensures Good(Construct<T>(size, maxBlock))
    ensures size >= 1 ==> Wide(Construct<T>(size, maxBlock).q)
  {
    var s := Construct<T>(size, maxBlock);
    var n := |s.q.blocks|;
    var ring := seq(n, i requires 0 <= i < n => i as nat);
    forall i | 0 <= i < n
      ensures Linked(s.q, ring, i) && Indices(s.q.blocks[i]) && IsVacant(s.q.blocks[ring[i]])
      ensures SlotsOk(Settled(s, i))
    {
    }
    var ps := Parts(s, ring, 0);
    assert ps == [[]];
    FlattenOne<T>([]);
    assert RingInv(s.q, ring, 0);
    assert size == 0 ==> CeilToPow2(1) == 1 && n == 1;
    assert SizesOk(s);
    assert Inv(s, ring, 0);
  }

  ghost predicate SameSizes<T>(bs: seq<Block<T>>, cs: seq<Block<T>>) {
    |bs| <= |cs| && forall i :: 0 <= i < |bs| ==> cs[i].size == bs[i].size
  }

  /** What `cs` has more than `bs` is the block that the producer links in. */
  ghost predicate OnlyLinked<T>(bs: seq<Block<T>>, cs: seq<Block<T>>, p: Producer<T>) {
    SameSizes(bs, cs) && (|cs| > |bs| ==> p.PLink? && |cs| == |bs| + 1 && cs[|bs|] == p.made)
  }

  lemma ConsumerSizes<T>(s: State<T>)
    requires ConsumerStep(s).Ok?
    ensures OnlyLinked(s.q.blocks, ConsumerStep(s).state.q.blocks, s.prod)
    ensures ConsumerStep(s).state.q.largestBlockSize == s.q.largestBlockSize
  {
  }

  lemma ProducerSizes<T>(s: State<T>, y: T, mode: bool, memory: bool)
    requires ProducerStep(s, y, mode, memory).Ok?
    ensures OnlyLinked(s.q.blocks, ProducerStep(s, y, mode, memory).state.q.blocks, s.prod)
    ensures ProducerStep(s, y, mode, memory).state.q.largestBlockSize >= s.q.largestBlockSize
  {
  }

  lemma StepSizes<T>(s: State<T>, a: Action<T>)
    requires Step(s, a).Ok?
    ensures OnlyLinked(s.q.blocks, Step(s, a).state.q.blocks, s.prod)
    ensures Step(s, a).state.q.largestBlockSize >= s.q.largestBlockSize
  {
    hide ConsumerStep, ProducerStep;
    if a.Consume? {
      ConsumerSizes(s);
    } else {
      ProducerSizes(s, a.x, a.alloc, a.memory);
    }
  }

  /** Block sizes never change, and new blocks have at least two slots. */
  lemma WideStep<T>(s: State<T>, a: Action<T>)
    requires Wide(s.q) && s.maxBlock >= 2 && (s.prod.PLink? ==> s.prod.made.size >= 2) && Step(s, a).Ok?
    ensures Wide(Step(s, a).state.q)
  {
    hide Step;
    StepSizes(s, a);
  }

  lemma StepGood<T>(s: State<T>, a: Action<T>)
    requires Good(s) && (a.Produce? && a.alloc ==> Wide(s.q))
    ensures Step(s, a).Ok? && Good(Step(s, a).state)
    ensures Wide(s.q) ==> Wide(Step(s, a).state.q)
  {
    var ring: seq<nat>, t: nat :| Inv(s, ring, t);
    if a.Consume? {
      var ring', t' := ConsumerKeeps(s, ring, t);
    } else {
      var ring', t' := ProducerKeeps(s, ring, t, a.x, a.alloc, a.memory);
    }
    if Wide(s.q) {
      WideStep(s, a);
    }
  }

  /** No schedule makes either thread follow a wild pointer, move out of an empty slot,
      construct over a live element or fail an assertion. */
  lemma {:induction false} NeverFaults<T>(size: nat, maxBlock: nat, schedule: seq<Action<T>>)
    requires MaxBlockOk(maxBlock) && Supported(size, schedule)
    ensures Run(size, maxBlock, schedule).Ok? && Good(Run(size, maxBlock, schedule).state)
    ensures size >= 1 ==> Wide(Run(size, maxBlock, schedule).state.q)
    decreases |schedule|
  {
    if schedule == [] {
      ConstructGood<T>(size, maxBlock);
    } else {
      var k := |schedule| - 1;
      NeverFaults(size, maxBlock, schedule[..k]);
      StepGood(Run(size, maxBlock, schedule[..k]).state, schedule[k]);
    }
  }

  // ----- first in, first out -----

  /** `ring[i]` is a block on the way from the front block to the tail block. */
  predicate OnTheWay<T>(s: State<T>, ring: seq<nat>, t: nat, i: nat)
    requires i <= t < |ring|
  {
    && ring[i] < |s.q.blocks|
    && (if i == t then ring[i] == s.q.tailBlock
        else ring[i] != s.q.tailBlock && s.q.blocks[ring[i]].next == ring[i + 1])
  }

  lemma {:induction false} WalkIsFlatten<T>(s: State<T>, ring: seq<nat>, t: nat, ps: seq<seq<T>>, i: nat, fuel: nat)
    requires i <= t < |ring| && |ps| == t + 1 && fuel > t - i
    requires forall k {:trigger OnTheWay(s, ring, t, k)} :: 0 <= k <= t ==> OnTheWay(s, ring, t, k)
    requires forall k {:trigger ps[k]} :: 0 <= k <= t && ring[k] < |s.q.blocks| ==>
      ps[k] == BlockItems(Settled(s, ring[k]))
    ensures Walk(s, ring[i], fuel) == Flatten(ps[i..])
    decreases t - i
  {
    FlattenHead(ps, i);
    assert OnTheWay(s, ring, t, i);
    if i < t {
      WalkIsFlatten(s, ring, t, ps, i + 1, fuel - 1);
      WalkStep(s, ring[i], fuel);
    } else {
      assert ps[i + 1..] == [];
      WalkEnd(s, fuel);
    }
  }

  lemma WalkEnd<T>(s: State<T>, fuel: nat)
    requires s.q.tailBlock < |s.q.blocks| && fuel > 0
    ensures Walk(s, s.q.tailBlock, fuel) == BlockItems(Settled(s, s.q.tailBlock))
  {
  }

  lemma WalkStep<T>(s: State<T>, i: nat, fuel: nat)
    requires i < |s.q.blocks| && i != s.q.tailBlock && fuel > 0
    ensures Walk(s, i, fuel) == BlockItems(Settled(s, i)) + Walk(s, s.q.blocks[i].next, fuel - 1)
  {
  }

  lemma ContentsIsFlatten<T>(s: State<T>, ring: seq<nat>, t: nat)
    requires RingInv(s.q, ring, t)
    ensures Contents(s) == Flatten(Parts(s, ring, t))
  {
    var ps := Parts(s, ring, t);
    forall i | 0 <= i <= t
      ensures OnTheWay(s, ring, t, i)
    {
      assert Linked(s.q, ring, i);
    }
    WalkIsFlatten(s, ring, t, ps, 0, |s.q.blocks|);
    assert ps[0..] == ps;
  }

  /** On every schedule, what was enqueued is what was dequeued followed by what the blocks
      from the front block round to the tail block hold. */
  lemma FirstInFirstOut<T>(size: nat, maxBlock: nat, schedule: seq<Action<T>>)
    requires MaxBlockOk(maxBlock) && Supported(size, schedule)
    ensures Run(size, maxBlock, schedule).Ok?
    ensures var s := Run(size, maxBlock, schedule).state;
      s.enqueued == s.dequeued + Contents(s) && s.dequeued <= s.enqueued
  {
    NeverFaults(size, maxBlock, schedule);
    var s := Run(size, maxBlock, schedule).state;
    var ring: seq<nat>, t: nat :| Inv(s, ring, t);
    ContentsIsFlatten(s, ring, t);
  }

  // ----- runs as sequences of states -----

  /** `trace[i]` is the state at moment `i` of the run under `schedule`. */
  ghost predicate IsRun<T>(size: nat, maxBlock: nat, schedule: seq<Action<T>>, trace: seq<State<T>>) {
    && MaxBlockOk(maxBlock) && Supported(size, schedule)
    && |trace| == |schedule| + 1 && trace[0] == Construct(size, maxBlock)
    && forall i {:trigger Moves(schedule, trace, i)} :: 0 <= i < |schedule| ==> Moves(schedule, trace, i)
  }

  ghost predicate Moves<T>(schedule: seq<Action<T>>, trace: seq<State<T>>, i: nat)
    requires i < |schedule| == |trace| - 1
  {
    Step(trace[i], schedule[i]) == Ok(trace[i + 1])
  }

  /** Every schedule has a run. */
  lemma {:induction false} RunExists<T>(size: nat, maxBlock: nat, schedule: seq<Action<T>>)
      returns (trace: seq<State<T>>)
    requires MaxBlockOk(maxBlock) && Supported(size, schedule)
    ensures IsRun(size, maxBlock, schedule, trace)
    ensures Run(size, maxBlock, schedule) == Ok(trace[|schedule|])
    decreases |schedule|
  {
    if schedule == [] {
      trace := [Construct(size, maxBlock)];
    } else {
      var k := |schedule| - 1;
      var before := RunExists(size, maxBlock, schedule[..k]);
      NeverFaults(size, maxBlock, schedule);
      trace := ExtendRun(size, maxBlock, schedule, before, Run(size, maxBlock, schedule).state);
    }
  }

  lemma ExtendRun<T>(size: nat, maxBlock: nat, schedule: seq<Action<T>>, before: seq<State<T>>, s: State<T>)
      returns (trace: seq<State<T>>)
    requires MaxBlockOk(maxBlock) && Supported(size, schedule) && schedule != []
    requires IsRun(size, maxBlock, schedule[..|schedule| - 1], before)
    requires Step(before[|schedule| - 1], schedule[|schedule| - 1]) == Ok(s)
    ensures IsRun(size, maxBlock, schedule, trace) && trace[|schedule|] == s
  {
    trace := before + [s];
    var k := |schedule| - 1;
    assert trace[0] == before[0];
    forall i | 0 <= i < |schedule|
      ensures Moves(schedule, trace, i)
    {
      if i < k {
        MovesInPrefix(schedule, trace, before, i);
      } else {
        assert trace[k] == before[k] && trace[k + 1] == s;
      }
    }
  }

  lemma MovesInPrefix<T>(schedule: seq<Action<T>>, trace: seq<State<T>>, before: seq<State<T>>, i: nat)
    requires |schedule| == |before| > 0 && |trace| == |schedule| + 1 && i < |schedule| - 1
    requires trace[i] == before[i] && trace[i + 1] == before[i + 1]
    requires Moves(schedule[..|schedule| - 1], before, i)
    ensures Moves(schedule, trace, i)
  {
  }

  lemma {:induction false} RunIsGood<T>(size: nat, maxBlock: nat, schedule: seq<Action<T>>, trace: seq<State<T>>,
                                        i: nat)
    requires IsRun(size, maxBlock, schedule, trace) && i < |trace|
    ensures Good(trace[i]) && (size >= 1 ==> Wide(trace[i].q))
    decreases i
  {
    if i == 0 {
      ConstructGood<T>(size, maxBlock);
    } else {
      RunIsGood(size, maxBlock, schedule, trace, i - 1);
      assert Moves(schedule, trace, i - 1);
      StepGood(trace[i - 1], schedule[i - 1]);
    }
  }

  // ----- what `try_dequeue` returning false means -----

  lemma SameBlockMeansTailFirst<T>(s: State<T>, ring: seq<nat>, t: nat)
    requires RingInv(s.q, ring, t)
    ensures s.q.frontBlock == s.q.tailBlock <==> t == 0
  {
  }

  /** The producer never moves the tail block onto the front block. */
  lemma ProducerKeepsApart<T>(s: State<T>, a: Action<T>)
    requires Good(s) && a.Produce? && (a.alloc ==> Wide(s.q)) && Step(s, a).Ok?
    requires Step(s, a).state.q.frontBlock == Step(s, a).state.q.tailBlock
    ensures s.q.frontBlock == s.q.tailBlock
  {
    var ring: seq<nat>, t: nat :| Inv(s, ring, t);
    var ring', t' := ProducerKeeps(s, ring, t, a.x, a.alloc, a.memory);
    SameBlockMeansTailFirst(s, ring, t);
    SameBlockMeansTailFirst(Step(s, a).state, ring', t');
  }

  lemma VacantFrontMeansEmpty<T>(s: State<T>)
    requires Good(s) && s.q.frontBlock == s.q.tailBlock < |s.q.blocks| && IsVacant(s.q.blocks[s.q.frontBlock])
    ensures Contents(s) == []
  {
    var ring: seq<nat>, t: nat :| Inv(s, ring, t);
    SameBlockMeansTailFirst(s, ring, t);
    ContentsIsFlatten(s, ring, t);
    var ps := Parts(s, ring, 0);
    assert ps == [ps[0]];
    FlattenOne(ps[0]);
    BlockLength(Settled(s, ring[0])) by {
      assert SlotsOk(Settled(s, ring[0]));
    }
  }

  /** The consumer compares `tailBlock` only after finding the front block vacant. */
  lemma ComparesAfterVacant<T>(p: State<T>)
    requires Good(p) && ConsumerStep(p).Ok? && ConsumerStep(p).state.cons.LoadTailBlock?
    ensures var s := ConsumerStep(p).state;
      s.q.frontBlock < |s.q.blocks| && IsVacant(s.q.blocks[s.q.frontBlock])
  {
    OnlyFromLoadTail(p);
    LoadTailFacts(p);
  }

  lemma OnlyFromLoadTail<T>(p: State<T>)
    requires ConsumerStep(p).Ok? && ConsumerStep(p).state.cons.LoadTailBlock?
    ensures p.cons.LoadTail?
  {
  }

  lemma LoadTailFacts<T>(p: State<T>)
    requires Good(p) && p.cons.LoadTail?
    ensures p.cons.fb == p.q.frontBlock < |p.q.blocks| && p.cons.bf == p.q.blocks[p.q.frontBlock].front
  {
    var ring: seq<nat>, t: nat :| Inv(p, ring, t);
  }

  lemma ProducerLeavesConsumer<T>(s: State<T>, a: Action<T>)
    requires a.Produce? && Step(s, a).Ok?
    ensures Step(s, a).state.cons == s.cons
  {
  }

  /** How the consumer comes to be, or stays, about to compare `tailBlock`. */
  lemma ComparingStep<T>(p: State<T>, a: Action<T>)
    requires Good(p) && (a.Produce? && a.alloc ==> Wide(p.q)) && Step(p, a).Ok? && Good(Step(p, a).state)
    requires Step(p, a).state.cons.LoadTailBlock?
    ensures a.Produce? ==> p.cons.LoadTailBlock?
    ensures var s := Step(p, a).state;
      s.q.frontBlock == s.q.tailBlock ==>
        if a.Consume? then Contents(s) == [] else p.q.frontBlock == p.q.tailBlock
  {
    var s := Step(p, a).state;
    if a.Consume? {
      ComparesAfterVacant(p);
      if s.q.frontBlock == s.q.tailBlock {
        VacantFrontMeansEmpty(s);
      }
    } else {
      ProducerLeavesConsumer(p, a);
      if s.q.frontBlock == s.q.tailBlock {
        ProducerKeepsApart(p, a);
      }
    }
  }

  lemma ComparingInRun<T>(size: nat, maxBlock: nat, schedule: seq<Action<T>>, trace: seq<State<T>>, j: nat)
    requires IsRun(size, maxBlock, schedule, trace) && 0 < j < |trace| && trace[j].cons.LoadTailBlock?
    ensures schedule[j - 1].Produce? ==> trace[j - 1].cons.LoadTailBlock?
    ensures trace[j].q.frontBlock == trace[j].q.tailBlock ==>
      if schedule[j - 1].Consume? then Contents(trace[j]) == []
      else trace[j - 1].q.frontBlock == trace[j - 1].q.tailBlock
  {
    hide ConsumerStep, ProducerStep, Good, Contents, Wide;
    RunIsGood(size, maxBlock, schedule, trace, j);
    RunIsGood(size, maxBlock, schedule, trace, j - 1);
    assert Moves(schedule, trace, j - 1);
    ComparingStep(trace[j - 1], schedule[j - 1]);
  }

  /** When the consumer is about to compare `tailBlock` at moment `j`, it found the front
      block vacant at moment `m` and has stood still since. */
  lemma {:induction false} FoundVacant<T>(size: nat, maxBlock: nat, schedule: seq<Action<T>>, trace: seq<State<T>>,
                                          j: nat)
      returns (m: nat)
    requires IsRun(size, maxBlock, schedule, trace) && j < |trace| && trace[j].cons.LoadTailBlock?
    ensures m <= j && forall k :: m <= k <= j ==> trace[k].cons.LoadTailBlock?
    ensures trace[j].q.frontBlock == trace[j].q.tailBlock ==> Contents(trace[m]) == []
    decreases j
  {
    m := j;
    if j > 0 {
      ComparingInRun(size, maxBlock, schedule, trace, j);
      if schedule[j - 1].Produce? {
        m := FoundVacant(size, maxBlock, schedule, trace, j - 1);
      }
    }
  }

  lemma FalseMeansCompared<T>(p: State<T>, a: Action<T>)
    requires Good(p) && Step(p, a).Ok? && p.cons != CReturned(false) && Step(p, a).state.cons == CReturned(false)
    ensures a.Consume? && p.cons.LoadTailBlock? && p.q.frontBlock == p.q.tailBlock
  {
    if a.Produce? {
      ProducerLeavesConsumer(p, a);
    }
    OnlyFromComparison(p);
    var ring: seq<nat>, t: nat :| Inv(p, ring, t);
  }

  lemma OnlyFromComparison<T>(p: State<T>)
    ensures ConsumerStep(p).Ok? && ConsumerStep(p).state.cons == CReturned(false) ==>
      p.cons.LoadTailBlock? && p.cons.fb == p.q.tailBlock
  {
  }

  /** `try_dequeue` returns false only if the queue was empty at a moment of the call: the
      call returns false in the step after moment `j`; the queue is empty at moment `m`, and
      from `m` to `j` the consumer stands at the last step before the return. */
  lemma FalseDequeueSawEmpty<T>(size: nat, maxBlock: nat, schedule: seq<Action<T>>, trace: seq<State<T>>, j: nat)
      returns (m: nat)
    requires IsRun(size, maxBlock, schedule, trace) && j < |schedule|
    requires trace[j].cons != CReturned(false) && trace[j + 1].cons == CReturned(false)
    ensures m <= j && Contents(trace[m]) == []
    ensures forall k :: m <= k <= j ==> trace[k].cons.LoadTailBlock?
  {
    RunIsGood(size, maxBlock, schedule, trace, j);
    assert Moves(schedule, trace, j);
    FalseMeansCompared(trace[j], schedule[j]);
    m := FoundVacant(size, maxBlock, schedule, trace, j);
  }
}
