/**
 The pipelines of the client and of the server: a producer thread pushes its items into a
 `MessageQueue` and then sets `done_`; a consumer thread loops on
 `done_ && IsEmpty()` and `Pop` (Baseline/include/messageQueue.h,
 Baseline/src/Client/chunker.cc, Baseline/src/Client/dataSender.cc,
 Baseline/src/Server/dataReceiver.cc, Baseline/src/Server/dataWriter.cc).

 The queue underneath is the step machine of `SpscQueue`, so that `Push` is a spin on
 `try_enqueue`, `Pop` is `try_dequeue` and `IsEmpty` walks the blocks as `size_approx`
 does, one shared access per step, interleaved with the other thread in every way.
 */
module Pipeline {
  import opened Sequences
  import opened RingArithmetic
  import opened SpscQueue
  import opened SpscInvariant
  import opened SpscTheorems

  /** Program counter of the consumer's loop. The `Size` counters belong to `size_approx`;
      `last` is the consumer's `jobDoneFlag`. */
  datatype Loop =
    | CheckDone
    | SizeStart
    | SizeFront(fb: nat, b: nat, sum: nat)
    | SizeTail(fb: nat, b: nat, sum: nat, f: nat)
    | SizeNext(fb: nat, b: nat, sum: nat)
    | Popping(last: bool)
    | Exited

  /** `items` is what the producer pushes, in order; `s.enqueued` is what it has pushed and
      `s.dequeued` what the consumer has popped. */
  datatype Pipe<T> = Pipe(s: State<T>, items: seq<T>, done: bool, loop: Loop)

  datatype Thread = Pusher | Popper

  predicate Resting<T>(p: Producer<T>) {
    p.PIdle? || p.PReturned?
  }

  predicate Waiting<T>(c: Consumer<T>) {
    c.CIdle? || c.CReturned?
  }

  function Lift<T>(p: Pipe<T>, o: Outcome<State<T>>): Outcome<Pipe<T>> {
    match o
    case Fault => Fault
    case Ok(s) => Ok(p.(s := s))
  }

  /** `Push` retries `try_enqueue` until it succeeds; after the last item `done_` is set. */
  function PusherStep<T>(p: Pipe<T>): Outcome<Pipe<T>> {
    if !Resting(p.s.prod) then Lift(p, ProducerStep(p.s, p.s.prod.x, false, false))
    else if |p.s.enqueued| < |p.items| then Lift(p, ProducerStep(p.s, p.items[|p.s.enqueued|], false, false))
    else Ok(p.(done := true))
  }

  function PopperStep<T>(p: Pipe<T>): Outcome<Pipe<T>> {
    var bs := p.s.q.blocks;
    match p.loop
    case CheckDone => Ok(p.(loop := if p.done then SizeStart else Popping(false)))
    case SizeStart => Ok(p.(loop := SizeFront(p.s.q.frontBlock, p.s.q.frontBlock, 0)))
    case SizeFront(fb, b, sum) =>
      if b >= |bs| then Fault else Ok(p.(loop := SizeTail(fb, b, sum, bs[b].front)))
    case SizeTail(fb, b, sum, f) =>
      if b >= |bs| || f >= bs[b].size || bs[b].tail >= bs[b].size then Fault else
      Ok(p.(loop := SizeNext(fb, b, sum + Dist(f, bs[b].tail, bs[b].size))))
    case SizeNext(fb, b, sum) =>
      if b >= |bs| then Fault else
      Ok(p.(loop := if bs[b].next != fb then SizeFront(fb, bs[b].next, sum) else Popping(sum == 0)))
    case Popping(last) =>
      var o := Lift(p, ConsumerStep(p.s));
      if o.Ok? && o.state.s.cons.CReturned?
      then Ok(o.state.(loop := if last then Exited else CheckDone))
      else o
    case Exited => Ok(p)
  }

  function PipeStep<T>(p: Pipe<T>, t: Thread): Outcome<Pipe<T>> {
    match t
    case Pusher => PusherStep(p)
    case Popper => PopperStep(p)
  }

  function Start<T>(size: nat, maxBlock: nat, items: seq<T>): Pipe<T>
    requires maxBlock >= 2
  {
    Pipe(Construct(size, maxBlock), items, false, CheckDone)
  }

  /** The state after the interleaving `schedule`. */
  function RunPipe<T>(size: nat, maxBlock: nat, items: seq<T>, schedule: seq<Thread>): Outcome<Pipe<T>>
    requires maxBlock >= 2
    decreases |schedule|
  {
    if schedule == [] then Ok(Start(size, maxBlock, items)) else
    var k := |schedule| - 1;
    match RunPipe(size, maxBlock, items, schedule[..k])
    case Fault => Fault
    case Ok(p) => PipeStep(p, schedule[k])
  }

  // ----- the invariant -----

  /** The number of elements that `size_approx` counts in the first `k` blocks of the ring. */
  ghost function Counted<T>(blocks: seq<Block<T>>, ring: seq<nat>, k: nat): nat
    requires k <= |ring| && AllIndices(blocks)
    requires forall i :: 0 <= i < |ring| ==> ring[i] < |blocks|
  {
    if k == 0 then 0 else
    var b := blocks[ring[k - 1]];
    assert Indices(b);
    Counted(blocks, ring, k - 1) + Dist(b.front, b.tail, b.size)
  }

  /** `size_approx` stands at block `b`, having started at `fb` and counted `sum`. */
  ghost predicate Walking<T>(s: State<T>, fb: nat, b: nat, sum: nat, past: bool) {
    exists ring: seq<nat>, t: nat, k: nat ::
      Inv(s, ring, t) && k < |ring| && fb == ring[0] && b == ring[k] &&
      sum == Counted(s.q.blocks, ring, if past then k + 1 else k)
  }

  ghost predicate LoopInv<T>(p: Pipe<T>) {
    match p.loop
    case CheckDone => Waiting(p.s.cons)
    case SizeStart => p.done && Waiting(p.s.cons)
    case SizeFront(fb, b, sum) => p.done && Waiting(p.s.cons) && Walking(p.s, fb, b, sum, false)
    case SizeTail(fb, b, sum, f) =>
      && p.done && Waiting(p.s.cons) && Walking(p.s, fb, b, sum, false)
      && b < |p.s.q.blocks| && f == p.s.q.blocks[b].front
    case SizeNext(fb, b, sum) => p.done && Waiting(p.s.cons) && Walking(p.s, fb, b, sum, true)
    case Popping(last) => last ==> p.done && p.s.dequeued == p.items
    case Exited => p.done && p.s.dequeued == p.items
  }

  ghost predicate PipeInv<T>(p: Pipe<T>) {
    && Good(p.s) && p.s.enqueued <= p.items
    && (!Resting(p.s.prod) ==> |p.s.enqueued| < |p.items| && p.s.prod.x == p.items[|p.s.enqueued|])
    && (p.done ==> p.s.enqueued == p.items && Resting(p.s.prod))
    && LoopInv(p)
  }

  // ----- the producer -----

  /** A call either goes on with its own element or ends; it has then pushed that element or nothing. */
  lemma CallKeepsElement<T>(s: State<T>, y: T)
    requires ProducerStep(s, y, false, false).Ok?
    requires !Resting(s.prod) ==> s.prod.x == y
    ensures var s' := ProducerStep(s, y, false, false).state;
      && s'.cons == s.cons && s'.dequeued == s.dequeued
      && (!Resting(s'.prod) ==> s'.prod.x == y && s'.enqueued == s.enqueued)
      && (Resting(s'.prod) ==> !Resting(s.prod) && (s'.enqueued == s.enqueued || s'.enqueued == s.enqueued + [y]))
  {
  }

  lemma PusherKeeps<T>(p: Pipe<T>)
    requires PipeInv(p)
    ensures PusherStep(p).Ok? && PipeInv(PusherStep(p).state)
  {
    hide ProducerStep, Good, Walking;
    if !Resting(p.s.prod) || |p.s.enqueued| < |p.items| {
      var y := p.items[|p.s.enqueued|];
      StepGood(p.s, Produce(y, false, false));
      CallKeepsElement(p.s, y);
      assert Step(p.s, Produce(y, false, false)) == ProducerStep(p.s, y, false, false);
    }
  }

  // ----- the consumer -----

  lemma QueueHoldsRest<T>(s: State<T>)
    requires Good(s)
    ensures s.enqueued == s.dequeued + Contents(s)
  {
    var ring: seq<nat>, t: nat :| Inv(s, ring, t);
    ContentsIsFlatten(s, ring, t);
  }

  lemma PopOnlyAppends<T>(s: State<T>)
    requires ConsumerStep(s).Ok?
    ensures var s' := ConsumerStep(s).state;
      s'.prod == s.prod && s'.enqueued == s.enqueued && s.dequeued <= s'.dequeued
  {
  }

  lemma PoppingKeeps<T>(p: Pipe<T>)
    requires PipeInv(p) && p.loop.Popping?
    ensures PopperStep(p).Ok? && PipeInv(PopperStep(p).state)
  {
    hide ConsumerStep, Good, Contents;
    StepGood(p.s, Consume);
    assert Step(p.s, Consume) == ConsumerStep(p.s);
    PopOnlyAppends(p.s);
    QueueHoldsRest(ConsumerStep(p.s).state);
  }

  lemma StartWalk<T>(p: Pipe<T>)
    requires PipeInv(p) && p.loop.SizeStart?
    ensures PopperStep(p).Ok? && PipeInv(PopperStep(p).state)
  {
    hide History, AllSlots, InFlight, Occupancy, SizesOk, ConsInv, ProdInv, ConsumerStep;
    var ring: seq<nat>, t: nat :| Inv(p.s, ring, t);
    assert Counted(p.s.q.blocks, ring, 0) == 0;
    assert Walking(p.s, ring[0], ring[0], 0, false);
  }

  lemma FrontWalk<T>(p: Pipe<T>)
    requires PipeInv(p) && p.loop.SizeFront?
    ensures PopperStep(p).Ok? && PipeInv(PopperStep(p).state)
  {
    hide History, AllSlots, InFlight, Occupancy, SizesOk, ConsInv, ProdInv, ConsumerStep;
    var fb, b, sum := p.loop.fb, p.loop.b, p.loop.sum;
    var ring: seq<nat>, t: nat, k: nat :| Inv(p.s, ring, t) && k < |ring| && fb == ring[0] && b == ring[k] &&
      sum == Counted(p.s.q.blocks, ring, k);
  }

  lemma TailWalk<T>(p: Pipe<T>)
    requires PipeInv(p) && p.loop.SizeTail?
    ensures PopperStep(p).Ok? && PipeInv(PopperStep(p).state)
  {
    hide History, AllSlots, InFlight, Occupancy, SizesOk, ConsInv, ProdInv, ConsumerStep;
    var fb, b, sum := p.loop.fb, p.loop.b, p.loop.sum;
    var ring: seq<nat>, t: nat, k: nat :| Inv(p.s, ring, t) && k < |ring| && fb == ring[0] && b == ring[k] &&
      sum == Counted(p.s.q.blocks, ring, k);
    var c := p.s.q.blocks[b];
    assert Indices(c);
    var sum' := sum + Dist(c.front, c.tail, c.size);
    assert Counted(p.s.q.blocks, ring, k + 1) == sum';
    assert Walking(p.s, fb, b, sum', true);
  }

  /** Nothing counted in the whole ring: every block of it is vacant. */
  lemma {:induction false} NoneCounted<T>(blocks: seq<Block<T>>, ring: seq<nat>, k: nat, i: nat)
    requires i < k <= |ring| && AllIndices(blocks)
    requires forall j :: 0 <= j < |ring| ==> ring[j] < |blocks|
    requires Counted(blocks, ring, k) == 0
    ensures IsVacant(blocks[ring[i]])
  {
    assert Indices(blocks[ring[k - 1]]);
    if i < k - 1 {
      NoneCounted(blocks, ring, k - 1, i);
    }
  }

  lemma VacantRingIsEmpty<T>(s: State<T>, ring: seq<nat>, t: nat)
    requires Inv(s, ring, t) && Counted(s.q.blocks, ring, |ring|) == 0
    ensures s.enqueued == s.dequeued
  {
    var ps := Parts(s, ring, t);
    forall i | 0 <= i <= t
      ensures ps[i] == []
    {
      NoneCounted(s.q.blocks, ring, |ring|, i);
      assert SlotsOk(Settled(s, ring[i]));
      BlockLength(Settled(s, ring[i]));
    }
    FlattenOfNone(ps);
  }

  lemma NextWalk<T>(p: Pipe<T>)
    requires PipeInv(p) && p.loop.SizeNext?
    ensures PopperStep(p).Ok? && PipeInv(PopperStep(p).state)
  {
    hide History, AllSlots, InFlight, Occupancy, SizesOk, ConsInv, ProdInv, ConsumerStep;
    var fb, b, sum := p.loop.fb, p.loop.b, p.loop.sum;
    var ring: seq<nat>, t: nat, k: nat :| Inv(p.s, ring, t) && k < |ring| && fb == ring[0] && b == ring[k] &&
      sum == Counted(p.s.q.blocks, ring, k + 1);
    assert Linked(p.s.q, ring, k);
    if k + 1 < |ring| {
      assert Walking(p.s, fb, ring[k + 1], sum, false);
    } else if sum == 0 {
      VacantRingIsEmpty(p.s, ring, t);
    }
  }

  lemma PopperKeeps<T>(p: Pipe<T>)
    requires PipeInv(p)
    ensures PopperStep(p).Ok? && PipeInv(PopperStep(p).state)
  {
    hide Good, Walking, ConsumerStep;
    match p.loop
    case CheckDone =>
    case SizeStart => StartWalk(p);
    case SizeFront(_, _, _) => FrontWalk(p);
    case SizeTail(_, _, _, _) => TailWalk(p);
    case SizeNext(_, _, _) => NextWalk(p);
    case Popping(_) => PoppingKeeps(p);
    case Exited =>
  }

  // ----- every interleaving -----

  lemma {:induction false} PipeIsSafe<T>(size: nat, maxBlock: nat, items: seq<T>, schedule: seq<Thread>)
    requires MaxBlockOk(maxBlock)
    ensures RunPipe(size, maxBlock, items, schedule).Ok?
    ensures var p := RunPipe(size, maxBlock, items, schedule).state; p.items == items && PipeInv(p)
    decreases |schedule|
  {
    hide PipeInv, PusherStep, PopperStep;
    if schedule == [] {
      StartInv(size, maxBlock, items);
    } else {
      var k := |schedule| - 1;
      PipeIsSafe(size, maxBlock, items, schedule[..k]);
      var p := RunPipe(size, maxBlock, items, schedule[..k]).state;
      PusherKeeps(p);
      PopperKeeps(p);
      ItemsStay(p, schedule[k]);
    }
  }

  lemma StartInv<T>(size: nat, maxBlock: nat, items: seq<T>)
    requires MaxBlockOk(maxBlock)
    ensures PipeInv(Start(size, maxBlock, items))
  {
    hide Good;
    ConstructGood<T>(size, maxBlock);
  }

  lemma ItemsStay<T>(p: Pipe<T>, t: Thread)
    requires PipeStep(p, t).Ok?
    ensures PipeStep(p, t).state.items == p.items
  {
    hide ConsumerStep, ProducerStep;
  }

  /** In every interleaving neither thread faults, the consumer has popped a prefix of the
      items, and once it leaves its loop it has popped them all. */
  lemma ConsumesEverything<T>(size: nat, maxBlock: nat, items: seq<T>, schedule: seq<Thread>)
    requires MaxBlockOk(maxBlock)
    ensures RunPipe(size, maxBlock, items, schedule).Ok?
    ensures var p := RunPipe(size, maxBlock, items, schedule).state;
      && p.s.dequeued <= items
      && (p.loop.Exited? ==> p.s.dequeued == items && Contents(p.s) == [])
  {
    hide Contents, Good;
    PipeIsSafe(size, maxBlock, items, schedule);
    QueueHoldsRest(RunPipe(size, maxBlock, items, schedule).state.s);
  }
}
