/**
 From every reachable state of a pipeline the consumer can still finish: no interleaving leads
 into a dead end. The exception is a queue made for no elements, on which `Push` spins forever.
 */
module PipelineProgress {
  import opened Sequences
  import opened RingArithmetic
  import opened SpscQueue
  import opened SpscInvariant
  import opened SpscTheorems
  import opened SpscProgress
  import opened Pipeline

  // ----- going on from a state -----

  function GoOn<T>(p: Pipe<T>, schedule: seq<Thread>): Outcome<Pipe<T>>
    decreases |schedule|
  {
    if schedule == [] then Ok(p) else
    match PipeStep(p, schedule[0])
    case Fault => Fault
    case Ok(q) => GoOn(q, schedule[1..])
  }

  ghost predicate Reaches<T>(p: Pipe<T>, q: Pipe<T>) {
    exists schedule :: GoOn(p, schedule) == Ok(q)
  }

  lemma {:induction false} GoOnAppend<T>(p: Pipe<T>, a: seq<Thread>, b: seq<Thread>)
    requires GoOn(p, a).Ok?
    ensures GoOn(p, a + b) == GoOn(GoOn(p, a).state, b)
    decreases |a|
  {
    hide PipeStep;
    if a == [] {
      assert a + b == b;
    } else {
      assert (a + b)[0] == a[0] && (a + b)[1..] == a[1..] + b;
      GoOnAppend(PipeStep(p, a[0]).state, a[1..], b);
    }
  }

  lemma Stays<T>(p: Pipe<T>)
    ensures Reaches(p, p)
  {
    assert GoOn(p, []) == Ok(p);
  }

  lemma Trans<T>(p: Pipe<T>, q: Pipe<T>, r: Pipe<T>)
    requires Reaches(p, q) && Reaches(q, r)
    ensures Reaches(p, r)
  {
    hide GoOn;
    var a :| GoOn(p, a) == Ok(q);
    var b :| GoOn(q, b) == Ok(r);
    GoOnAppend(p, a, b);
  }

  /** The queue has blocks of at least two slots. */
  ghost predicate Live<T>(p: Pipe<T>) {
    PipeInv(p) && Wide(p.s.q)
  }

  /** One step, which is never a fault. */
  lemma OneStep<T>(p: Pipe<T>, t: Thread) returns (q: Pipe<T>)
    requires Live(p)
    ensures PipeStep(p, t) == Ok(q) && Reaches(p, q) && Live(q) && q.items == p.items
  {
    hide PusherStep, PopperStep, PipeInv, Wide;
    PusherKeeps(p);
    PopperKeeps(p);
    ItemsStay(p, t);
    WideStays(p, t);
    q := PipeStep(p, t).state;
    assert [t][1..] == [];
    assert GoOn(q, []) == Ok(q);
    assert GoOn(p, [t]) == Ok(q);
  }

  lemma WideStays<T>(p: Pipe<T>, t: Thread)
    requires Live(p) && PipeStep(p, t).Ok?
    ensures Wide(PipeStep(p, t).state.s.q)
  {
    hide ProducerStep, ConsumerStep, Good, Wide, LoopInv;
    StepGood(p.s, Consume);
    assert Step(p.s, Consume) == ConsumerStep(p.s);
    if !Resting(p.s.prod) || |p.s.enqueued| < |p.items| {
      var y := p.items[|p.s.enqueued|];
      StepGood(p.s, Produce(y, false, false));
      assert Step(p.s, Produce(y, false, false)) == ProducerStep(p.s, y, false, false);
    }
  }

  // ----- the consumer alone -----

  /** The queue holds an element, and the consumer is not about to find it empty. */
  ghost predicate Promising<T>(s: State<T>) {
    Contents(s) != [] && !(s.cons.LoadTailBlock? && s.q.frontBlock == s.q.tailBlock)
  }

  lemma ReturnFacts<T>(s: State<T>)
    requires ConsumerStep(s).Ok?
    ensures var s' := ConsumerStep(s).state;
      && s'.enqueued == s.enqueued && s'.prod == s.prod
      && (s'.cons == CReturned(true) ==> |s'.dequeued| == |s.dequeued| + 1)
      && (s'.cons != CReturned(true) ==> s'.dequeued == s.dequeued)
      && (s'.cons == CReturned(false) ==> s.cons.LoadTailBlock? && s.cons.fb == s.q.tailBlock)
  {
  }

  lemma ComparesFront<T>(s: State<T>)
    requires Good(s) && s.cons.LoadTailBlock?
    ensures s.cons.fb == s.q.frontBlock
  {
    var ring: seq<nat>, t: nat :| Inv(s, ring, t);
  }

  /** Undisturbed, a `try_dequeue` call on a queue with an element goes on or takes it. */
  lemma PromisingStep<T>(s: State<T>)
    requires Good(s) && Promising(s)
    ensures ConsumerStep(s).Ok?
    ensures var s' := ConsumerStep(s).state;
      if s'.cons.CReturned? then |s'.dequeued| == |s.dequeued| + 1 else Promising(s') && s'.dequeued == s.dequeued
  {
    hide ConsumerStep, Good, Contents;
    StepGood(s, Consume);
    assert Step(s, Consume) == ConsumerStep(s);
    var s' := ConsumerStep(s).state;
    ReturnFacts(s);
    if s.cons.LoadTailBlock? {
      ComparesFront(s);
    }
    if !s'.cons.CReturned? {
      QueueHoldsRest(s);
      QueueHoldsRest(s');
      SameRest(s.dequeued, Contents(s), Contents(s'));
      if s'.cons.LoadTailBlock? {
        ComparingStep(s, Consume);
      }
    }
  }

  lemma SameRest<T>(a: seq<T>, b: seq<T>, c: seq<T>)
    requires a + b == a + c
    ensures b == c
  {
    assert (a + b)[|a|..] == b && (a + c)[|a|..] == c;
  }

  /** What steps of the consumer leave as it is. */
  ghost predicate PusherSame<T>(p: Pipe<T>, q: Pipe<T>) {
    && q.items == p.items && q.done == p.done && q.s.prod == p.s.prod && q.s.enqueued == p.s.enqueued
    && |q.s.dequeued| >= |p.s.dequeued|
  }

  /** The `Pop` call of the loop runs to its end. */
  lemma {:induction false} PopOn<T>(p: Pipe<T>) returns (q: Pipe<T>)
    requires Live(p) && p.loop.Popping?
    ensures Reaches(p, q) && Live(q) && PusherSame(p, q)
    ensures q.loop == if p.loop.last then Exited else CheckDone
    ensures Promising(p.s) ==> |q.s.dequeued| == |p.s.dequeued| + 1
    decreases ConsumerLeft(p.s.cons)
  {
    hide ConsumerStep, Promising, Good, Reaches, Wide, LoopInv;
    q := OneStep(p, Popper);
    ConsumerAdvances(p.s);
    ReturnFacts(p.s);
    if Promising(p.s) {
      PromisingStep(p.s);
    }
    if q.loop.Popping? {
      var r := PopOn(q);
      Trans(p, q, r);
      q := r;
    }
  }

  /** The walk of `size_approx` runs to its end; it ends a last time iff it counted nothing. */
  lemma {:induction false} WalkOn<T>(p: Pipe<T>, ring: seq<nat>, t: nat, k: nat) returns (q: Pipe<T>)
    requires Live(p) && Inv(p.s, ring, t) && k < |ring|
    requires p.loop == SizeFront(ring[0], ring[k], Counted(p.s.q.blocks, ring, k))
    ensures Reaches(p, q) && Live(q)
    ensures q == p.(loop := Popping(Counted(p.s.q.blocks, ring, |ring|) == 0))
    decreases |ring| - k
  {
    hide Reaches, Wide, LoopInv, Good, ConsumerStep, Inv, ConsInv, ProdInv, Counted;
    RingFacts(p.s, ring, t, k);
    var q1 := OneStep(p, Popper);
    var q2 := OneStep(q1, Popper);
    Trans(p, q1, q2);
    q := OneStep(q2, Popper);
    Trans(p, q2, q);
    if k + 1 < |ring| {
      var r := WalkOn(q, ring, t, k + 1);
      Trans(p, q, r);
      q := r;
    }
  }

  /** What the walk sees at the block at position `k` of the ring. */
  lemma RingFacts<T>(s: State<T>, ring: seq<nat>, t: nat, k: nat)
    requires Inv(s, ring, t) && k < |ring|
    ensures AllIndices(s.q.blocks) && (forall i :: 0 <= i < |ring| ==> ring[i] < |s.q.blocks|)
    ensures var b := s.q.blocks[ring[k]];
      && b.front < b.size && b.tail < b.size
      && Counted(s.q.blocks, ring, k + 1) == Counted(s.q.blocks, ring, k) + Dist(b.front, b.tail, b.size)
      && (if k + 1 < |ring| then b.next == ring[k + 1] != ring[0] else b.next == ring[0])
  {
    assert Linked(s.q, ring, k);
    assert Indices(s.q.blocks[ring[k]]);
  }

  /** The walk from its start. */
  lemma WalkFromStart<T>(p: Pipe<T>) returns (q: Pipe<T>)
    requires Live(p) && p.loop.SizeStart?
    ensures Reaches(p, q) && Live(q) && q.loop.Popping? && q == p.(loop := q.loop)
    ensures AllVacant(p.s) ==> q.loop.last
  {
    hide Reaches, Wide, LoopInv, ConsumerStep, Inv, AllVacant;
    var ring: seq<nat>, t: nat :| Inv(p.s, ring, t);
    StartsAtFront(p.s, ring, t);
    var q1 := OneStep(p, Popper);
    q := WalkOn(q1, ring, t, 0);
    Trans(p, q1, q);
    if AllVacant(p.s) {
      VacantCountsNone(p.s, ring, t, |ring|);
    }
  }

  lemma StartsAtFront<T>(s: State<T>, ring: seq<nat>, t: nat)
    requires Inv(s, ring, t)
    ensures |ring| > 0 && ring[0] == s.q.frontBlock && AllIndices(s.q.blocks)
    ensures (forall i :: 0 <= i < |ring| ==> ring[i] < |s.q.blocks|) && Counted(s.q.blocks, ring, 0) == 0
  {
  }

  /** No block holds an element. */
  ghost predicate AllVacant<T>(s: State<T>) {
    forall ring: seq<nat>, t: nat {:trigger Inv(s, ring, t)} :: Inv(s, ring, t) ==> VacantRing(s, ring)
  }

  ghost predicate VacantRing<T>(s: State<T>, ring: seq<nat>) {
    forall i {:trigger ring[i]} :: 0 <= i < |ring| && ring[i] < |s.q.blocks| ==> IsVacant(s.q.blocks[ring[i]])
  }

  lemma {:induction false} VacantCountsNone<T>(s: State<T>, ring: seq<nat>, t: nat, k: nat)
    requires Inv(s, ring, t) && AllVacant(s) && k <= |ring|
    ensures AllIndices(s.q.blocks) && (forall i :: 0 <= i < |ring| ==> ring[i] < |s.q.blocks|)
    ensures Counted(s.q.blocks, ring, k) == 0
    decreases k
  {
    hide ConsInv, ProdInv, History, AllSlots, InFlight, Occupancy;
    if k > 0 {
      VacantCountsNone(s, ring, t, k - 1);
      RingFacts(s, ring, t, k - 1);
    }
  }

  /** The pass of the loop that the consumer is in ends. */
  lemma FinishPass<T>(p: Pipe<T>) returns (q: Pipe<T>)
    requires Live(p)
    ensures Reaches(p, q) && Live(q) && PusherSame(p, q) && (q.loop.CheckDone? || q.loop.Exited?)
  {
    hide Reaches, Wide, ConsumerStep, Good, Walking, Inv;
    q := p;
    Stays(p);
    if p.loop.SizeTail? {
      q := OneStep(q, Popper);
    }
    if q.loop.SizeNext? {
      var r := OneStep(q, Popper);
      Trans(p, q, r);
      q := r;
    }
    if q.loop.SizeFront? {
      var ring, t, k := WalkingAt(q);
      var r := WalkOn(q, ring, t, k);
      Trans(p, q, r);
      q := r;
    }
    if q.loop.SizeStart? {
      var r := WalkFromStart(q);
      Trans(p, q, r);
      q := r;
    }
    if q.loop.Popping? {
      var r := PopOn(q);
      Trans(p, q, r);
      q := r;
    }
  }

  lemma WalkingAt<T>(p: Pipe<T>) returns (ring: seq<nat>, t: nat, k: nat)
    requires PipeInv(p) && p.loop.SizeFront?
    ensures Inv(p.s, ring, t) && k < |ring| && AllIndices(p.s.q.blocks)
    ensures forall i :: 0 <= i < |ring| ==> ring[i] < |p.s.q.blocks|
    ensures p.loop == SizeFront(ring[0], ring[k], Counted(p.s.q.blocks, ring, k))
  {
    ring, t, k :| Inv(p.s, ring, t) && k < |ring| && p.loop.fb == ring[0] && p.loop.b == ring[k] &&
      p.loop.sum == Counted(p.s.q.blocks, ring, k);
  }

  /** One whole pass of the loop: it takes an element if there is one; with `done_` set and
      no element left it is the last. */
  lemma WholePass<T>(p: Pipe<T>) returns (q: Pipe<T>)
    requires Live(p) && p.loop.CheckDone?
    ensures Reaches(p, q) && Live(q) && PusherSame(p, q)
    ensures Contents(p.s) != [] ==> |q.s.dequeued| > |p.s.dequeued|
    ensures p.done && AllVacant(p.s) ==> q.loop.Exited?
    ensures q.loop.CheckDone? || q.loop.Exited?
  {
    hide Reaches, Wide, ConsumerStep, Good, Walking, Inv, AllVacant, Contents;
    q := OneStep(p, Popper);
    if q.loop.SizeStart? {
      var r := WalkFromStart(q);
      Trans(p, q, r);
      q := r;
    }
    var r := PopOn(q);
    Trans(p, q, r);
    q := r;
  }

  // ----- the producer alone -----

  /** What steps of the producer leave as it is. */
  ghost predicate PopperSame<T>(p: Pipe<T>, q: Pipe<T>) {
    && q.items == p.items && q.loop == p.loop && q.s.cons == p.s.cons && q.s.dequeued == p.s.dequeued
    && |q.s.enqueued| >= |p.s.enqueued|
  }

  /** An enqueue call on an empty queue that has found no full block. */
  ghost predicate Fitting<T>(s: State<T>) {
    && Contents(s) == [] && Wide(s.q)
    && (s.prod.PLoadTailBlock? || s.prod.PLoadTail? || s.prod.PLoadFront? || s.prod.PWrite? || s.prod.PStoreTail?)
  }

  /** The tail block of an empty queue is vacant. */
  lemma EmptyTailVacant<T>(s: State<T>)
    requires Good(s) && Contents(s) == []
    ensures s.q.tailBlock < |s.q.blocks| && IsVacant(s.q.blocks[s.q.tailBlock]) && Indices(s.q.blocks[s.q.tailBlock])
  {
    hide ConsInv, ProdInv, InFlight;
    var ring: seq<nat>, t: nat :| Inv(s, ring, t);
    ContentsIsFlatten(s, ring, t);
    PartVacant(s, ring, t, t);
    assert Indices(s.q.blocks[ring[t]]);
  }

  lemma PartVacant<T>(s: State<T>, ring: seq<nat>, t: nat, i: nat)
    requires Inv(s, ring, t) && Flatten(Parts(s, ring, t)) == [] && i <= t
    ensures IsVacant(s.q.blocks[ring[i]])
  {
    hide ConsInv, ProdInv, InFlight, Occupancy;
    var ps := Parts(s, ring, t);
    EmptyPart(ps, i);
    assert SlotsOk(Settled(s, ring[i]));
    BlockLength(Settled(s, ring[i]));
    assert Indices(s.q.blocks[ring[i]]);
  }

  lemma {:induction false} EmptyPart<T>(ps: seq<seq<T>>, i: nat)
    requires Flatten(ps) == [] && i < |ps|
    ensures ps[i] == []
  {
    if i > 0 {
      EmptyPart(ps[1..], i - 1);
    }
  }

  /** An empty queue with no call under way has no element in any block. */
  lemma EmptyMeansVacant<T>(s: State<T>)
    requires Good(s) && Contents(s) == [] && Resting(s.prod)
    ensures AllVacant(s)
  {
    hide ConsInv, ProdInv, InFlight, Contents;
    forall ring: seq<nat>, t: nat | Inv(s, ring, t)
      ensures VacantRing(s, ring)
    {
      EmptyRing(s, ring, t);
    }
  }

  lemma EmptyRing<T>(s: State<T>, ring: seq<nat>, t: nat)
    requires Inv(s, ring, t) && Contents(s) == [] && Resting(s.prod)
    ensures VacantRing(s, ring)
  {
    hide ConsInv, ProdInv, InFlight, Contents;
    ContentsIsFlatten(s, ring, t);
    forall i | 0 <= i < |ring| && ring[i] < |s.q.blocks|
      ensures IsVacant(s.q.blocks[ring[i]])
    {
      if i <= t {
        PartVacant(s, ring, t, i);
      } else {
        assert Occupancy(s.q, false, ring, t);
      }
    }
  }

  /** Undisturbed, a `try_enqueue` call on an empty queue goes on or succeeds. */
  lemma FittingStep<T>(s: State<T>, y: T)
    requires Good(s) && Fitting(s)
    ensures ProducerStep(s, y, false, false).Ok?
    ensures var s' := ProducerStep(s, y, false, false).state;
      if Resting(s'.prod) then |s'.enqueued| == |s.enqueued| + 1 else Fitting(s') && s'.enqueued == s.enqueued
  {
    hide Good, Contents, ProducerStep, Wide;
    StepGood(s, Produce(y, false, false));
    assert Step(s, Produce(y, false, false)) == ProducerStep(s, y, false, false);
    var s' := ProducerStep(s, y, false, false).state;
    EmptyTailVacant(s);
    FitsTail(s, y);
    if !Resting(s'.prod) {
      QueueHoldsRest(s);
      QueueHoldsRest(s');
      SameRest(s.dequeued, Contents(s), Contents(s'));
    }
  }

  lemma FitsTail<T>(s: State<T>, y: T)
    requires Good(s) && Fitting(s) && ProducerStep(s, y, false, false).Ok?
    requires s.q.tailBlock < |s.q.blocks| && IsVacant(s.q.blocks[s.q.tailBlock]) && Indices(s.q.blocks[s.q.tailBlock])
    ensures var s' := ProducerStep(s, y, false, false).state;
      && s'.dequeued == s.dequeued && (Resting(s'.prod) ==> |s'.enqueued| == |s.enqueued| + 1)
      && (!Resting(s'.prod) ==> s'.enqueued == s.enqueued)
      && (s'.prod.PReturned? || s'.prod.PLoadTail? || s'.prod.PLoadFront? || s'.prod.PWrite? || s'.prod.PStoreTail?)
  {
    hide Good, Contents;
    AtTailBlock(s);
  }

  lemma AtTailBlock<T>(s: State<T>)
    requires Good(s) && Fitting(s)
    ensures s.prod.PLoadTail? || s.prod.PLoadFront? ==> s.prod.tb == s.q.tailBlock
    ensures s.prod.PLoadFront? && s.q.tailBlock < |s.q.blocks| ==>
      var b := s.q.blocks[s.q.tailBlock]; s.prod.bt == b.tail < b.size && s.prod.nt == Advance(b.tail, b.size)
  {
    var ring: seq<nat>, t: nat :| Inv(s, ring, t);
  }

  /** The enqueue call that the producer is in runs to its end. */
  lemma {:induction false} PushOn<T>(p: Pipe<T>) returns (q: Pipe<T>)
    requires Live(p) && !Resting(p.s.prod)
    ensures Reaches(p, q) && Live(q) && PopperSame(p, q) && Resting(q.s.prod) && q.done == p.done
    ensures Fitting(p.s) ==> |q.s.enqueued| > |p.s.enqueued|
    decreases ProducerLeft(p.s.prod)
  {
    hide ProducerStep, Fitting, Good, Reaches, Wide, LoopInv;
    q := OneStep(p, Pusher);
    var y := p.s.prod.x;
    CallKeepsElement(p.s, y);
    ProducerAdvances(p.s, y, false, false);
    if Fitting(p.s) {
      FittingStep(p.s, y);
    }
    if !Resting(q.s.prod) {
      var r := PushOn(q);
      Trans(p, q, r);
      q := r;
    }
  }

  /** One whole call, which succeeds on an empty queue. */
  lemma WholePush<T>(p: Pipe<T>) returns (q: Pipe<T>)
    requires Live(p) && Resting(p.s.prod) && |p.s.enqueued| < |p.items| && Contents(p.s) == []
    ensures Reaches(p, q) && Live(q) && PopperSame(p, q) && Resting(q.s.prod) && q.done == p.done
    ensures |q.s.enqueued| > |p.s.enqueued|
  {
    hide Good, Reaches, Wide, LoopInv, Contents, ProducerStep;
    var q1 := OneStep(p, Pusher);
    CallBegins(p.s, p.items[|p.s.enqueued|]);
    QueueHoldsRest(p.s);
    QueueHoldsRest(q1.s);
    SameRest(p.s.dequeued, Contents(p.s), Contents(q1.s));
    q := PushOn(q1);
    Trans(p, q1, q);
  }

  lemma CallBegins<T>(s: State<T>, y: T)
    requires Resting(s.prod)
    ensures ProducerStep(s, y, false, false) == Ok(s.(prod := PLoadTailBlock(y, false)))
  {
  }

  // ----- both threads -----

  /** Some schedule leads to a state in which the consumer has left its loop. */
  ghost predicate CanFinish<T>(p: Pipe<T>) {
    exists schedule: seq<Thread> :: GoOn(p, schedule).Ok? && GoOn(p, schedule).state.loop.Exited?
  }

  lemma AtEnd<T>(p: Pipe<T>, q: Pipe<T>)
    requires Reaches(p, q) && q.loop.Exited?
    ensures CanFinish(p)
  {
  }

  lemma Later<T>(p: Pipe<T>, q: Pipe<T>)
    requires Reaches(p, q) && CanFinish(q)
    ensures CanFinish(p)
  {
    hide GoOn;
    var a :| GoOn(p, a) == Ok(q);
    var b: seq<Thread> :| GoOn(q, b).Ok? && GoOn(q, b).state.loop.Exited?;
    GoOnAppend(p, a, b);
  }

  lemma Bounds<T>(p: Pipe<T>)
    requires PipeInv(p)
    ensures |p.s.dequeued| <= |p.s.enqueued| <= |p.items|
  {
    hide Good, LoopInv;
    QueueHoldsRest(p.s);
  }

  /** Both threads reach the end of what they are doing. */
  lemma Pauses<T>(p: Pipe<T>) returns (q: Pipe<T>)
    requires Live(p)
    ensures Reaches(p, q) && Live(q) && q.items == p.items && Resting(q.s.prod)
    ensures q.loop.CheckDone? || q.loop.Exited?
    ensures |q.s.dequeued| >= |p.s.dequeued| && |q.s.enqueued| >= |p.s.enqueued|
  {
    hide Reaches, Live, GoOn;
    q := FinishPass(p);
    if !Resting(q.s.prod) {
      var r := PushOn(q);
      Trans(p, q, r);
      q := r;
    }
  }

  /** All items pushed and popped: `done_` is set and the next pass is the last. */
  lemma LastPass<T>(p: Pipe<T>) returns (q: Pipe<T>)
    requires Live(p) && Resting(p.s.prod) && p.loop.CheckDone? && |p.s.enqueued| >= |p.items| && Contents(p.s) == []
    ensures Reaches(p, q) && q.loop.Exited?
  {
    hide Reaches, Wide, Good, LoopInv, Contents, AllVacant;
    var q1 := OneStep(p, Pusher);
    EmptyMeansVacant(p.s);
    q := WholePass(q1);
    Trans(p, q1, q);
  }

  /** From every state that satisfies the invariant the consumer can finish. */
  lemma {:induction false} Finishes<T>(p: Pipe<T>)
    requires Live(p)
    ensures CanFinish(p)
    decreases |p.items| - |p.s.dequeued|, |p.items| - |p.s.enqueued|
  {
    hide Reaches, PipeInv, Wide, Contents, CanFinish, PusherSame, PopperSame;
    var q := Pauses(p);
    Bounds(p);
    Bounds(q);
    if q.loop.Exited? {
      AtEnd(p, q);
    } else {
      var r;
      if Contents(q.s) != [] {
        r := WholePass(q);
        MoreTaken(q, r);
        Finishes(r);
        Later(q, r);
      } else if |q.s.enqueued| < |q.items| {
        r := WholePush(q);
        MorePushed(q, r);
        Finishes(r);
        Later(q, r);
      } else {
        r := LastPass(q);
        AtEnd(q, r);
      }
      Later(p, q);
    }
  }

  lemma MoreTaken<T>(q: Pipe<T>, r: Pipe<T>)
    requires PusherSame(q, r) && PipeInv(r)
    ensures r.items == q.items && r.s.enqueued == q.s.enqueued && |r.s.dequeued| <= |r.items|
  {
    hide PipeInv;
    Bounds(r);
  }

  lemma MorePushed<T>(q: Pipe<T>, r: Pipe<T>)
    requires PopperSame(q, r) && PipeInv(r)
    ensures r.items == q.items && r.s.dequeued == q.s.dequeued && |r.s.enqueued| <= |r.items|
  {
    hide PipeInv;
    Bounds(r);
  }

  // ----- every reachable state -----

  lemma {:induction false} RunsStayWide<T>(size: nat, maxBlock: nat, items: seq<T>, schedule: seq<Thread>)
    requires MaxBlockOk(maxBlock) && size >= 1
    ensures RunPipe(size, maxBlock, items, schedule).Ok? && Live(RunPipe(size, maxBlock, items, schedule).state)
    decreases |schedule|
  {
    hide PipeInv, PipeStep, Wide;
    PipeIsSafe(size, maxBlock, items, schedule);
    if schedule == [] {
      ConstructGood<T>(size, maxBlock);
    } else {
      var k := |schedule| - 1;
      RunsStayWide(size, maxBlock, items, schedule[..k]);
      WideStays(RunPipe(size, maxBlock, items, schedule[..k]).state, schedule[k]);
    }
  }

  /** A queue made for no elements, used with `try_enqueue` only: its one slot is never used. */
  ghost predicate NothingFits<T>(s: State<T>) {
    && s.q.blocks == [EmptyBlock(1, 0)] && s.q.frontBlock == s.q.tailBlock == 0 && s.enqueued == []
    && TryingInVain(s.prod) && FindingNothing(s.cons)
  }

  predicate TryingInVain<T>(p: Producer<T>) {
    match p
    case PIdle => true
    case PReturned(_) => true
    case PLoadTailBlock(_, alloc) => !alloc
    case PLoadTail(_, alloc, tb) => !alloc && tb == 0
    case PLoadFront(_, alloc, tb, bt, nt) => !alloc && tb == bt == nt == 0
    case PLoadNext(_, alloc, tb) => !alloc && tb == 0
    case PLoadFrontBlock(_, alloc, tb, next) => !alloc && tb == next == 0
    case _ => false
  }

  predicate FindingNothing<T>(c: Consumer<T>) {
    match c
    case CIdle => true
    case CReturned(_) => true
    case LoadFrontBlock => true
    case LoadFront(fb) => fb == 0
    case LoadTail(fb, bf) => fb == bf == 0
    case LoadTailBlock(fb) => fb == 0
    case _ => false
  }

  lemma NothingFitsStep<T>(s: State<T>, y: T)
    requires NothingFits(s)
    ensures ProducerStep(s, y, false, false).Ok? && NothingFits(ProducerStep(s, y, false, false).state)
    ensures ConsumerStep(s).Ok? && NothingFits(ConsumerStep(s).state)
  {
    var b := EmptyBlock<T>(1, 0);
    assert [b][0 := b] == [b];
    assert b.(localFront := 0) == b && b.(localTail := 0) == b;
  }

  /** The loop of a pipeline over such a queue never gets to a state with `done_`. */
  ghost predicate Spinning<T>(p: Pipe<T>) {
    NothingFits(p.s) && p.items != [] && !p.done && (p.loop.CheckDone? || p.loop == Popping(false))
  }

  lemma SpinningStep<T>(p: Pipe<T>, t: Thread)
    requires Spinning(p)
    ensures PipeStep(p, t).Ok? && Spinning(PipeStep(p, t).state)
  {
    hide ProducerStep, ConsumerStep;
    var y := if Resting(p.s.prod) then p.items[0] else p.s.prod.x;
    NothingFitsStep(p.s, y);
  }

  lemma {:induction false} SpinsForever<T>(p: Pipe<T>, schedule: seq<Thread>)
    requires Spinning(p)
    ensures GoOn(p, schedule).Ok? && Spinning(GoOn(p, schedule).state)
    decreases |schedule|
  {
    hide PipeStep, Spinning;
    if schedule != [] {
      SpinningStep(p, schedule[0]);
      SpinsForever(PipeStep(p, schedule[0]).state, schedule[1..]);
    }
  }

  lemma StartsSpinning<T>(maxBlock: nat, items: seq<T>)
    requires MaxBlockOk(maxBlock) && items != []
    ensures Spinning(Start(0, maxBlock, items))
  {
    assert CeilToPow2(1) == 1;
    var b := EmptyBlock<T>(1, 0);
    assert Construct<T>(0, maxBlock).q.blocks == [b];
  }

  /** With a queue made for at least one element, every state of every interleaving can still
      be continued to the end; `ConsumesEverything` says what has been consumed there. */
  lemma NoDeadEnd<T>(size: nat, maxBlock: nat, items: seq<T>, schedule: seq<Thread>)
    requires MaxBlockOk(maxBlock) && size >= 1
    ensures RunPipe(size, maxBlock, items, schedule).Ok? && CanFinish(RunPipe(size, maxBlock, items, schedule).state)
  {
    hide Live, CanFinish;
    RunsStayWide(size, maxBlock, items, schedule);
    Finishes(RunPipe(size, maxBlock, items, schedule).state);
  }

  /** A pipeline with something to push can finish iff its queue was made for at least one
      element: otherwise `Push` never succeeds. */
  lemma FinishesIff<T>(size: nat, maxBlock: nat, items: seq<T>)
    requires MaxBlockOk(maxBlock) && items != []
    ensures CanFinish(Start(size, maxBlock, items)) <==> size >= 1
  {
    var p := Start(size, maxBlock, items);
    if size >= 1 {
      NoDeadEnd(size, maxBlock, items, []);
      assert RunPipe(size, maxBlock, items, []) == Ok(p);
    } else {
      StartsSpinning(maxBlock, items);
      forall schedule: seq<Thread>
        ensures GoOn(p, schedule).Ok? && !GoOn(p, schedule).state.loop.Exited?
      {
        SpinsForever(p, schedule);
      }
    }
  }
}
