/**
 The exact limit of the queue's safety: a queue constructed for zero elements, filled
 with the allocating `enqueue`, fails the assertion at line 351. Its first block has one
 slot, so that `tail = (tail + 1) & 0` leaves the block looking empty after an element
 was put into it.
 */
module SpscEmptyQueue {
  import opened RingArithmetic
  import opened SpscQueue
  import opened SpscTheorems

  /** `s` is reached from a queue constructed for zero elements. */
  ghost predicate Reached<T>(maxBlock: nat, schedule: seq<Action<T>>, s: State<T>)
    requires MaxBlockOk(maxBlock)
  {
    Run(0, maxBlock, schedule) == Ok(s)
  }

  /** Taking the same action again and again leads along `path`. */
  ghost predicate Leads<T>(path: seq<State<T>>, a: Action<T>) {
    path != [] && forall i :: 0 <= i < |path| - 1 ==> Step(path[i], a) == Ok(path[i + 1])
  }

  lemma {:induction false} Follow<T>(maxBlock: nat, schedule: seq<Action<T>>, path: seq<State<T>>, a: Action<T>)
      returns (schedule': seq<Action<T>>)
    requires MaxBlockOk(maxBlock) && Leads(path, a) && Reached(maxBlock, schedule, path[0])
    ensures Reached(maxBlock, schedule', path[|path| - 1])
    decreases |path|
  {
    if |path| == 1 {
      schedule' := schedule;
    } else {
      var next := schedule + [a];
      assert next[..|schedule|] == schedule;
      assert Step(path[0], a) == Ok(path[1]);
      schedule' := Follow(maxBlock, next, path[1..], a);
    }
  }

  /** The states of this run: a one-slot block at address 0, later a two-slot block at 1. */
  function Start<T>(maxBlock: nat, p: Producer<T>): State<T> {
    State(Queue([Block(0, 0, 0, 0, 0, 1, [Empty])], 0, 0, 1), maxBlock, p, CIdle, [], [])
  }

  function Later<T>(maxBlock: nat, slot0: Slot<T>, front1: nat, slot1: Slot<T>, fb: nat, tb: nat,
                    p: Producer<T>, c: Consumer<T>, enqueued: seq<T>, dequeued: seq<T>): State<T> {
    State(Queue([Block(0, 0, 0, 0, 1, 1, [slot0]), Block(front1, 1, 1, 0, 0, 2, [slot1, Empty])], fb, tb, 2),
      maxBlock, p, c, enqueued, dequeued)
  }

  /** `enqueue(x)` finds the one-slot block full. */
  lemma FirstFull<T>(maxBlock: nat, x: T) returns (path: seq<State<T>>)
    requires MaxBlockOk(maxBlock)
    ensures Leads(path, Produce(x, true, true))
    ensures path[0] == Start(maxBlock, PIdle)
    ensures path[|path| - 1] == Start(maxBlock, PAlloc(x, 0))
  {
    hide ConsumerStep;
    var s: State<T> := Start(maxBlock, PIdle);
    assert Advance(0, 1) == 0;
    assert s.q.blocks[0 := s.q.blocks[0].(localFront := 0)] == s.q.blocks;
    path := [
      Start(maxBlock, PIdle),
      Start(maxBlock, PLoadTailBlock(x, true)),
      Start(maxBlock, PLoadTail(x, true, 0)),
      Start(maxBlock, PLoadFront(x, true, 0, 0, 0)),
      Start(maxBlock, PLoadNext(x, true, 0)),
      Start(maxBlock, PLoadFrontBlock(x, true, 0, 0)),
      Start(maxBlock, PAlloc(x, 0))];
  }

  /** It links a two-slot block and returns. */
  lemma Grows<T>(maxBlock: nat, x: T) returns (path: seq<State<T>>)
    requires MaxBlockOk(maxBlock)
    ensures Leads(path, Produce(x, true, true))
    ensures path[0] == Start(maxBlock, PAlloc(x, 0))
    ensures path[|path| - 1] == Later(maxBlock, Empty, 0, Full(x), 0, 1, PReturned(true), CIdle, [x], [])
  {
    hide ConsumerStep;
    var s := Start(maxBlock, PAlloc(x, 0));
    var made := Block(0, 1, 1, 0, 0, 2, [Full(x), Empty]);
    var e: Block<T> := EmptyBlock(2, 0);
    assert e.data[0 := Full(x)] == made.data;
    var linked := Later(maxBlock, Empty, 0, Full(x), 0, 0, PPublish(x, 1), CIdle, [], []);
    assert s.q.blocks[0 := s.q.blocks[0].(next := 1)] + [made] == linked.q.blocks;
    path := [
      s,
      s.(q := s.q.(largestBlockSize := 2), prod := PLink(x, 0, made)),
      linked,
      Later(maxBlock, Empty, 0, Full(x), 0, 1, PReturned(true), CIdle, [x], [])];
    assert [] + [x] == [x];
  }

  /** The consumer leaves the one-slot block. */
  lemma LeavesFirst<T>(maxBlock: nat, x: T) returns (path: seq<State<T>>)
    requires MaxBlockOk(maxBlock)
    ensures Leads(path, Consume)
    ensures path[0] == Later(maxBlock, Empty, 0, Full(x), 0, 1, PReturned(true), CIdle, [x], [])
    ensures path[|path| - 1] ==
      Later(maxBlock, Empty, 0, Full(x), 0, 1, PReturned(true), StoreFrontBlock(1, 0), [x], [])
  {
    hide ProducerStep;
    var s := Later(maxBlock, Empty, 0, Full(x), 0, 1, PReturned(true), CIdle, [x], []);
    assert s.q.blocks[0 := s.q.blocks[0].(localTail := 0)] == s.q.blocks;
    assert s.q.blocks[1 := s.q.blocks[1].(localTail := 1)] == s.q.blocks;
    path := [
      Later(maxBlock, Empty, 0, Full(x), 0, 1, PReturned(true), CIdle, [x], []),
      Later(maxBlock, Empty, 0, Full(x), 0, 1, PReturned(true), LoadFrontBlock, [x], []),
      Later(maxBlock, Empty, 0, Full(x), 0, 1, PReturned(true), LoadFront(0), [x], []),
      Later(maxBlock, Empty, 0, Full(x), 0, 1, PReturned(true), LoadTail(0, 0), [x], []),
      Later(maxBlock, Empty, 0, Full(x), 0, 1, PReturned(true), LoadTailBlock(0), [x], []),
      Later(maxBlock, Empty, 0, Full(x), 0, 1, PReturned(true), ReloadFrontBlock, [x], []),
      Later(maxBlock, Empty, 0, Full(x), 0, 1, PReturned(true), ReloadTail(0), [x], []),
      Later(maxBlock, Empty, 0, Full(x), 0, 1, PReturned(true), ReloadFront(0, 0), [x], []),
      Later(maxBlock, Empty, 0, Full(x), 0, 1, PReturned(true), LoadNext(0), [x], []),
      Later(maxBlock, Empty, 0, Full(x), 0, 1, PReturned(true), LoadNextFront(1), [x], []),
      Later(maxBlock, Empty, 0, Full(x), 0, 1, PReturned(true), LoadNextTail(1, 0), [x], []),
      Later(maxBlock, Empty, 0, Full(x), 0, 1, PReturned(true), StoreFrontBlock(1, 0), [x], [])];
  }

  /** A second `enqueue(x)` finds the two-slot block full and the one-slot block free. */
  lemma SecondFull<T>(maxBlock: nat, x: T) returns (path: seq<State<T>>)
    requires MaxBlockOk(maxBlock)
    ensures Leads(path, Produce(x, true, true))
    ensures path[0] == Later(maxBlock, Empty, 0, Full(x), 1, 1, PReturned(true), ReadElement(1, 0), [x], [])
    ensures path[|path| - 1] ==
      Later(maxBlock, Empty, 0, Full(x), 1, 1, PLoadNext(x, true, 1), ReadElement(1, 0), [x], [])
  {
    hide ConsumerStep;
    var s := Later(maxBlock, Empty, 0, Full(x), 1, 1, PReturned(true), ReadElement(1, 0), [x], []);
    assert Advance(1, 2) == 0;
    assert s.q.blocks[1 := s.q.blocks[1].(localFront := 0)] == s.q.blocks;
    path := [
      Later(maxBlock, Empty, 0, Full(x), 1, 1, PReturned(true), ReadElement(1, 0), [x], []),
      Later(maxBlock, Empty, 0, Full(x), 1, 1, PLoadTailBlock(x, true), ReadElement(1, 0), [x], []),
      Later(maxBlock, Empty, 0, Full(x), 1, 1, PLoadTail(x, true, 1), ReadElement(1, 0), [x], []),
      Later(maxBlock, Empty, 0, Full(x), 1, 1, PLoadFront(x, true, 1, 1, 0), ReadElement(1, 0), [x], []),
      Later(maxBlock, Empty, 0, Full(x), 1, 1, PLoadNext(x, true, 1), ReadElement(1, 0), [x], [])];
  }

  /** The first block seems free: its one slot is the next to be written. */
  lemma TakesFreeBlock<T>(maxBlock: nat, x: T) returns (path: seq<State<T>>)
    requires MaxBlockOk(maxBlock)
    ensures Leads(path, Produce(x, true, true))
    ensures path[0] == Later(maxBlock, Empty, 0, Full(x), 1, 1, PLoadNext(x, true, 1), ReadElement(1, 0), [x], [])
    ensures path[|path| - 1] ==
      Later(maxBlock, Empty, 0, Full(x), 1, 1, PNextWrite(x, 0, 0), ReadElement(1, 0), [x], [])
  {
    hide ConsumerStep;
    var s := Later(maxBlock, Empty, 0, Full(x), 1, 1, PLoadNext(x, true, 1), ReadElement(1, 0), [x], []);
    assert s.q.blocks[0 := s.q.blocks[0].(localFront := 0)] == s.q.blocks;
    path := [
      Later(maxBlock, Empty, 0, Full(x), 1, 1, PLoadNext(x, true, 1), ReadElement(1, 0), [x], []),
      Later(maxBlock, Empty, 0, Full(x), 1, 1, PLoadFrontBlock(x, true, 1, 0), ReadElement(1, 0), [x], []),
      Later(maxBlock, Empty, 0, Full(x), 1, 1, PReloadNext(x, 1), ReadElement(1, 0), [x], []),
      Later(maxBlock, Empty, 0, Full(x), 1, 1, PNextFront(x, 0), ReadElement(1, 0), [x], []),
      Later(maxBlock, Empty, 0, Full(x), 1, 1, PNextTail(x, 0, 0), ReadElement(1, 0), [x], []),
      Later(maxBlock, Empty, 0, Full(x), 1, 1, PNextWrite(x, 0, 0), ReadElement(1, 0), [x], [])];
  }

  /** It fills the one slot, and `tail` comes out unchanged. */
  lemma FillsSlot<T>(maxBlock: nat, x: T) returns (path: seq<State<T>>)
    requires MaxBlockOk(maxBlock)
    ensures Leads(path, Produce(x, true, true))
    ensures path[0] == Later(maxBlock, Empty, 0, Full(x), 1, 1, PNextWrite(x, 0, 0), ReadElement(1, 0), [x], [])
    ensures path[|path| - 1] ==
      Later(maxBlock, Full(x), 0, Full(x), 1, 0, PReturned(true), ReadElement(1, 0), [x, x], [])
  {
    hide ConsumerStep;
    var s := Later(maxBlock, Empty, 0, Full(x), 1, 1, PNextWrite(x, 0, 0), ReadElement(1, 0), [x], []);
    var t := Later(maxBlock, Full(x), 0, Full(x), 1, 1, PNextStoreTail(x, 0, 0), ReadElement(1, 0), [x], []);
    assert s.q.blocks[0].data[0 := Full(x)] == [Full(x)];
    assert s.q.blocks[0 := s.q.blocks[0].(data := [Full(x)])] == t.q.blocks;
    assert t.q.blocks[0 := t.q.blocks[0].(tail := Advance(0, 1))] == t.q.blocks;
    path := [
      s,
      t,
      Later(maxBlock, Full(x), 0, Full(x), 1, 1, PPublish(x, 0), ReadElement(1, 0), [x], []),
      Later(maxBlock, Full(x), 0, Full(x), 1, 0, PReturned(true), ReadElement(1, 0), [x, x], [])];
    assert [x] + [x] == [x, x];
  }

  /** The consumer takes the first element. */
  lemma TakesFirst<T>(maxBlock: nat, x: T) returns (path: seq<State<T>>)
    requires MaxBlockOk(maxBlock)
    ensures Leads(path, Consume)
    ensures path[0] == Later(maxBlock, Full(x), 0, Full(x), 1, 0, PReturned(true), ReadElement(1, 0), [x, x], [])
    ensures path[|path| - 1] == Later(maxBlock, Full(x), 1, Empty, 1, 0, PReturned(true), CReturned(true), [x, x], [x])
  {
    hide ProducerStep;
    var s := Later(maxBlock, Full(x), 0, Full(x), 1, 0, PReturned(true), ReadElement(1, 0), [x, x], []);
    var t := Later(maxBlock, Full(x), 0, Empty, 1, 0, PReturned(true), StoreFront(1, 1, x), [x, x], []);
    var u := Later(maxBlock, Full(x), 1, Empty, 1, 0, PReturned(true), CReturned(true), [x, x], [x]);
    assert s.q.blocks[1].data[0 := Empty] == [Empty, Empty];
    assert s.q.blocks[1 := s.q.blocks[1].(data := [Empty, Empty])] == t.q.blocks;
    assert t.q.blocks[1 := t.q.blocks[1].(front := 1)] == u.q.blocks;
    path := [s, t, u];
    assert [] + [x] == [x];
  }

  /** It comes back to the one-slot block, which looks empty. */
  lemma ReturnsToFirst<T>(maxBlock: nat, x: T) returns (path: seq<State<T>>)
    requires MaxBlockOk(maxBlock)
    ensures Leads(path, Consume)
    ensures path[0] == Later(maxBlock, Full(x), 1, Empty, 1, 0, PReturned(true), CReturned(true), [x, x], [x])
    ensures path[|path| - 1] ==
      Later(maxBlock, Full(x), 1, Empty, 1, 0, PReturned(true), LoadNextTail(0, 0), [x, x], [x])
  {
    hide ProducerStep;
    var s := Later(maxBlock, Full(x), 1, Empty, 1, 0, PReturned(true), CIdle, [x, x], [x]);
    assert s.q.blocks[1 := s.q.blocks[1].(localTail := 1)] == s.q.blocks;
    path := [
      Later(maxBlock, Full(x), 1, Empty, 1, 0, PReturned(true), CReturned(true), [x, x], [x]),
      Later(maxBlock, Full(x), 1, Empty, 1, 0, PReturned(true), LoadFrontBlock, [x, x], [x]),
      Later(maxBlock, Full(x), 1, Empty, 1, 0, PReturned(true), LoadFront(1), [x, x], [x]),
      Later(maxBlock, Full(x), 1, Empty, 1, 0, PReturned(true), LoadTail(1, 1), [x, x], [x]),
      Later(maxBlock, Full(x), 1, Empty, 1, 0, PReturned(true), LoadTailBlock(1), [x, x], [x]),
      Later(maxBlock, Full(x), 1, Empty, 1, 0, PReturned(true), ReloadFrontBlock, [x, x], [x]),
      Later(maxBlock, Full(x), 1, Empty, 1, 0, PReturned(true), ReloadTail(1), [x, x], [x]),
      Later(maxBlock, Full(x), 1, Empty, 1, 0, PReturned(true), ReloadFront(1, 1), [x, x], [x]),
      Later(maxBlock, Full(x), 1, Empty, 1, 0, PReturned(true), LoadNext(1), [x, x], [x]),
      Later(maxBlock, Full(x), 1, Empty, 1, 0, PReturned(true), LoadNextFront(0), [x, x], [x]),
      Later(maxBlock, Full(x), 1, Empty, 1, 0, PReturned(true), LoadNextTail(0, 0), [x, x], [x])];
  }

  /** The consumer is about to evaluate `assert(nextBlockFront != nextBlockTail)`, and it is false. */
  predicate FailsAssertion<T>(s: State<T>) {
    s.cons.LoadNextTail? && s.cons.nb < |s.q.blocks| && s.cons.nf == s.q.blocks[s.cons.nb].tail
  }

  /** For every MAX_BLOCK_SIZE there is a schedule of `enqueue` and `try_dequeue` calls on a
      queue constructed for zero elements that fails the assertion at line 351. */
  lemma EmptyQueueFaults<T>(maxBlock: nat, x: T) returns (schedule: seq<Action<T>>)
    requires MaxBlockOk(maxBlock)
    ensures Run(0, maxBlock, schedule) == Fault
    ensures schedule != [] && schedule[|schedule| - 1] == Consume
    ensures var before := Run(0, maxBlock, schedule[..|schedule| - 1]); before.Ok? && FailsAssertion(before.state)
  {
    var go := Produce(x, true, true);
    assert Construct<T>(0, maxBlock) == Start(maxBlock, PIdle) by {
      assert CeilToPow2(1) == 1;
      var b := EmptyBlock<T>(1, 0);
      assert b.data == [Empty];
      assert Construct<T>(0, maxBlock).q.blocks == [b];
    }
    schedule := [];
    var path := FirstFull(maxBlock, x);
    schedule := Follow(maxBlock, schedule, path, go);
    path := Grows(maxBlock, x);
    schedule := Follow(maxBlock, schedule, path, go);
    path := LeavesFirst(maxBlock, x);
    schedule := Follow(maxBlock, schedule, path, Consume);
    path := [path[|path| - 1], Later(maxBlock, Empty, 0, Full(x), 1, 1, PReturned(true), ReadElement(1, 0), [x], [])];
    schedule := Follow(maxBlock, schedule, path, Consume);
    path := SecondFull(maxBlock, x);
    schedule := Follow(maxBlock, schedule, path, go);
    path := TakesFreeBlock(maxBlock, x);
    schedule := Follow(maxBlock, schedule, path, go);
    path := FillsSlot(maxBlock, x);
    schedule := Follow(maxBlock, schedule, path, go);
    path := TakesFirst(maxBlock, x);
    schedule := Follow(maxBlock, schedule, path, Consume);
    path := ReturnsToFirst(maxBlock, x);
    schedule := Follow(maxBlock, schedule, path, Consume);
    var last := schedule + [Consume];
    assert last[..|schedule|] == schedule;
    schedule := last;
  }

  /** Exactly the queues constructed for at least one element are safe on every schedule. */
  lemma SafeIffNonEmpty<T>(size: nat, maxBlock: nat, x: T)
    requires MaxBlockOk(maxBlock)
    ensures size >= 1 <==> forall schedule: seq<Action<T>> :: Run(size, maxBlock, schedule).Ok?
  {
    if size >= 1 {
      forall schedule: seq<Action<T>>
        ensures Run(size, maxBlock, schedule).Ok?
      {
        NeverFaults(size, maxBlock, schedule);
      }
    } else {
      var schedule := EmptyQueueFaults(maxBlock, x);
    }
  }
}
