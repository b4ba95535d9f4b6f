/**
 The invariant is kept by every step.
 */
module SpscSafety {
  import opened RingArithmetic
  import opened SpscQueue
  import opened SpscInvariant
  import opened SpscQueueOps
  import opened SpscIndexSteps
  import opened SpscSlotSteps

  /** The element half of the invariant. */
  ghost predicate Elements<T>(s: State<T>, ring: seq<nat>, t: nat) {
    RingInv(s.q, ring, t) && AllSlots(s) && InFlight(s) && History(s, ring, t)
  }

  // ----- consumer -----

  /** The consumer's locals prove that the block it reads from holds an element. */
  lemma FrontHoldsElement<T>(s: State<T>, ring: seq<nat>, t: nat)
    requires IndexInv(s, ring, t) && (s.cons.ReadElement? || s.cons.StoreFront?)
    ensures s.cons.fb == ring[0] < |s.q.blocks| && !IsVacant(s.q.blocks[ring[0]])
    ensures s.q.blocks[ring[0]].front < s.q.blocks[ring[0]].size
  {
    assert Indices(s.q.blocks[ring[0]]);
  }

  lemma ConsumerLoads<T>(s: State<T>, ring: seq<nat>, t: nat)
    requires Elements(s, ring, t) && ConsumerStep(s).Ok?
    requires !s.cons.ReadElement? && !s.cons.StoreFront? && !s.cons.StoreFrontBlock?
    requires RingInv(ConsumerStep(s).state.q, ring, t)
    ensures Elements(ConsumerStep(s).state, ring, t)
  {
    hide History, Settled;
    var s' := ConsumerStep(s).state;
    LoadsAreQuiet(s);
    KeepsSlots(s, s', -1);
    HistoryQuiet(s, s', -1, ring, t);
    QuietInFlight(s, s');
  }

  lemma QuietInFlight<T>(s: State<T>, s': State<T>)
    requires InFlight(s) && s'.prod == s.prod && !s'.cons.StoreFront? && AllSlots(s') && Quiet(s, s')
    requires forall i :: 0 <= i < |s.q.blocks| ==> SameSlots(s.q.blocks[i], s'.q.blocks[i])
    ensures InFlight(s')
  {
    if s.prod.PPublish? {
      assert SlotsOk(Settled(s', s.prod.nb));
    }
  }

  lemma ConsumerReads<T>(s: State<T>, ring: seq<nat>, t: nat)
    requires Elements(s, ring, t) && s.cons.ReadElement? && s.cons.fb == ring[0]
    requires var b := s.q.blocks[ring[0]]; s.cons.bf == b.front && !IsVacant(b)
    requires s.prod.PNextStoreTail? ==> s.prod.nb != ring[0]
    requires ConsumerStep(s).Ok? ==> RingInv(ConsumerStep(s).state.q, ring, t)
    ensures ConsumerStep(s).Ok? && Elements(ConsumerStep(s).state, ring, t)
  {
    ReadsSlot(s);
    var s' := ConsumerStep(s).state;
    KeepsSlots(s, s', -1);
    HistoryQuiet(s, s', -1, ring, t);
    if s.prod.PPublish? {
      assert SlotsOk(Settled(s', s.prod.nb));
    }
  }

  lemma ConsumerReleases<T>(s: State<T>, ring: seq<nat>, t: nat)
    requires Elements(s, ring, t) && s.cons.StoreFront? && s.cons.fb == ring[0]
    requires var b := s.q.blocks[ring[0]];
      b.front < b.size && s.cons.bf == Advance(b.front, b.size) && !IsVacant(b)
    requires s.prod.PPublish? ==> s.prod.nb != ring[0]
    requires ConsumerStep(s).Ok? ==> RingInv(ConsumerStep(s).state.q, ring, t)
    ensures ConsumerStep(s).Ok? && Elements(ConsumerStep(s).state, ring, t)
  {
    ReleasesSlot(s);
    var s' := ConsumerStep(s).state;
    KeepsSlots(s, s', ring[0]);
    HistoryPop(s, s', ring, t, s.cons.result);
    if s.prod.PPublish? {
      assert SlotsOk(Settled(s', s.prod.nb));
    }
  }

  lemma ConsumerAdvances<T>(s: State<T>, ring: seq<nat>, t: nat)
    requires Elements(s, ring, t) && s.cons.StoreFrontBlock? && t >= 1 && IsVacant(s.q.blocks[ring[0]])
    requires RingInv(ConsumerStep(s).state.q, Rotated(ring), t - 1)
    ensures Elements(ConsumerStep(s).state, Rotated(ring), t - 1)
  {
    var s' := ConsumerStep(s).state;
    LoadsAreQuiet(s);
    KeepsSlots(s, s', -1);
    BlockLength(Settled(s, ring[0])) by {
      assert SlotsOk(Settled(s, ring[0]));
    }
    HistoryRotate(s, s', ring, t);
    QuietInFlight(s, s');
  }

  /** Where the consumer's loads cannot go wrong; line 351: the block that the consumer
      advances to is never empty. */
  lemma ConsumerPointersValid<T>(s: State<T>, ring: seq<nat>, t: nat)
    requires IndexInv(s, ring, t) && !s.cons.ReadElement?
    ensures ConsumerStep(s).Ok?
  {
    assert Linked(s.q, ring, 0);
    if s.cons.LoadNextTail? {
      assert !IsVacant(s.q.blocks[ring[1]]);
    }
  }

  lemma NextIsNotFront<T>(s: State<T>, ring: seq<nat>, t: nat)
    requires IndexInv(s, ring, t)
    ensures s.prod.PNextStoreTail? || s.prod.PNextWrite? || s.prod.PPublish? ==>
      t + 1 < |ring| && s.prod.nb == ring[t + 1] && s.prod.nb != ring[0]
  {
    assert Linked(s.q, ring, t);
  }

  lemma ConsumerAccesses<T>(s: State<T>, ring: seq<nat>, t: nat)
    requires Inv(s, ring, t) && ConsumerStep(s).Ok? && (s.cons.ReadElement? || s.cons.StoreFront?)
    requires RingInv(ConsumerStep(s).state.q, ring, t)
    ensures Elements(ConsumerStep(s).state, ring, t)
  {
    NextIsNotFront(s, ring, t);
    FrontHoldsElement(s, ring, t);
    if s.cons.ReadElement? {
      ConsumerReads(s, ring, t);
    } else {
      ConsumerReleases(s, ring, t);
    }
  }

  lemma ConsumerKeepsElements<T>(s: State<T>, ring: seq<nat>, t: nat) returns (ring': seq<nat>, t': nat)
    requires Inv(s, ring, t) && ConsumerStep(s).Ok?
    ensures IndexInv(ConsumerStep(s).state, ring', t') && Elements(ConsumerStep(s).state, ring', t')
    ensures ring' == if s.cons.StoreFrontBlock? then Rotated(ring) else ring
    ensures t' == if s.cons.StoreFrontBlock? then t - 1 else t
  {
    hide ConsumerStep, History, AllSlots, InFlight, Occupancy, SizesOk;
    ring', t' := ConsumerIndex(s, ring, t);
    assert Elements(s, ring, t);
    if s.cons.ReadElement? || s.cons.StoreFront? {
      ConsumerAccesses(s, ring, t);
    } else if s.cons.StoreFrontBlock? {
      ConsumerAdvances(s, ring, t);
    } else {
      ConsumerLoads(s, ring, t);
    }
  }

  lemma ConsumerKeeps<T>(s: State<T>, ring: seq<nat>, t: nat) returns (ring': seq<nat>, t': nat)
    requires Inv(s, ring, t)
    ensures ConsumerStep(s).Ok? && Inv(ConsumerStep(s).state, ring', t')
    ensures ring' == if s.cons.StoreFrontBlock? then Rotated(ring) else ring
    ensures t' == if s.cons.StoreFrontBlock? then t - 1 else t
  {
    if s.cons.ReadElement? {
      FrontHoldsElement(s, ring, t);
      ReadsSlot(s);
    } else {
      ConsumerPointersValid(s, ring, t);
    }
    ring', t' := ConsumerKeepsElements(s, ring, t);
  }

  // ----- producer -----

  lemma ProducerLoad<T>(s: State<T>, ring: seq<nat>, t: nat, y: T, mode: bool, memory: bool)
    requires Elements(s, ring, t) && ProducerStep(s, y, mode, memory).Ok? && ProducerLoads(s.prod) && !s.prod.PPublish?
    requires RingInv(ProducerStep(s, y, mode, memory).state.q, ring, t)
    requires s.prod.PAlloc? && memory ==> ProducerStep(s, y, mode, memory).state.q.largestBlockSize >= 2
    ensures Elements(ProducerStep(s, y, mode, memory).state, ring, t)
  {
    var s' := ProducerStep(s, y, mode, memory).state;
    assert s'.enqueued == s.enqueued && s'.dequeued == s.dequeued;
    ProducerLoadsAreQuiet(s, y, mode, memory);
    KeepsSlots(s, s', -1);
    HistoryQuiet(s, s', -1, ring, t);
    LoadInFlight(s, y, mode, memory);
  }

  lemma LoadInFlight<T>(s: State<T>, y: T, mode: bool, memory: bool)
    requires InFlight(s) && ProducerStep(s, y, mode, memory).Ok? && ProducerLoads(s.prod) && !s.prod.PPublish?
    requires s.prod.PAlloc? && memory ==> ProducerStep(s, y, mode, memory).state.q.largestBlockSize >= 2
    ensures InFlight(ProducerStep(s, y, mode, memory).state)
  {
    var s' := ProducerStep(s, y, mode, memory).state;
    ProducerLoadsAreQuiet(s, y, mode, memory);
    if s.prod.PAlloc? && memory {
      MadeBlock(s.prod.x, s'.q.largestBlockSize, s.q.blocks[s.prod.tb].next);
    }
  }

  lemma ProducerWrites<T>(s: State<T>, k: nat, ring: seq<nat>, t: nat, y: T, mode: bool, memory: bool)
    requires Elements(s, ring, t) && (s.prod.PWrite? || s.prod.PNextWrite?) && k < |s.q.blocks|
    requires k == if s.prod.PWrite? then s.prod.tb else s.prod.nb
    requires s.q.blocks[k].tail == if s.prod.PWrite? then s.prod.bt else s.prod.nt
    requires ProducerStep(s, y, mode, memory).Ok? ==> RingInv(ProducerStep(s, y, mode, memory).state.q, ring, t)
    ensures ProducerStep(s, y, mode, memory).Ok? && Elements(ProducerStep(s, y, mode, memory).state, ring, t)
  {
    WritesSlot(s, k, y, mode, memory);
    var s' := ProducerStep(s, y, mode, memory).state;
    KeepsSlots(s, s', -1);
    HistoryQuiet(s, s', -1, ring, t);
  }

  lemma ProducerStoresTail<T>(s: State<T>, ring: seq<nat>, t: nat, y: T, mode: bool, memory: bool)
    requires Elements(s, ring, t) && s.prod.PStoreTail? && s.prod.tb == ring[t]
    requires s.cons.StoreFront? && s.cons.fb == ring[t] ==> !IsVacant(s.q.blocks[ring[t]])
    requires var b := s.q.blocks[ring[t]];
      b.tail < b.size && Advance(b.tail, b.size) != b.front && s.prod.nt == Advance(b.tail, b.size)
    requires ProducerStep(s, y, mode, memory).Ok? ==> RingInv(ProducerStep(s, y, mode, memory).state.q, ring, t)
    ensures ProducerStep(s, y, mode, memory).Ok? && Elements(ProducerStep(s, y, mode, memory).state, ring, t)
  {
    hide SameExcept, History, BlockItems;
    StoresSlot(s, ring[t], y, mode, memory);
    var s' := ProducerStep(s, y, mode, memory).state;
    KeepsSlots(s, s', ring[t]);
    HistoryPush(s, s', ring, t, s.prod.x);
  }

  lemma ProducerStoresNextTail<T>(s: State<T>, ring: seq<nat>, t: nat, y: T, mode: bool, memory: bool)
    requires Elements(s, ring, t) && s.prod.PNextStoreTail? && t + 1 < |ring| && s.prod.nb == ring[t + 1]
    requires s.cons.StoreFront? ==> s.cons.fb == ring[0]
    requires var b := s.q.blocks[ring[t + 1]];
      b.tail < b.size && b.size >= 2 && IsVacant(b) && s.prod.nt == b.tail
    requires ProducerStep(s, y, mode, memory).Ok? ==> RingInv(ProducerStep(s, y, mode, memory).state.q, ring, t)
    ensures ProducerStep(s, y, mode, memory).Ok? && Elements(ProducerStep(s, y, mode, memory).state, ring, t)
  {
    hide SameExcept, History;
    var nb := ring[t + 1];
    StoresSlot(s, nb, y, mode, memory);
    var s' := ProducerStep(s, y, mode, memory).state;
    KeepsSlots(s, s', nb);
    BlockLength(Settled(s, nb)) by {
      assert SlotsOk(Settled(s, nb));
    }
    assert HoldsOnly(Settled(s', nb), s.prod.x);
    HistoryQuiet(s, s', nb, ring, t);
  }

  lemma ProducerPublishes<T>(s: State<T>, ring: seq<nat>, t: nat, y: T, mode: bool, memory: bool)
    requires Elements(s, ring, t) && s.prod.PPublish? && t + 1 < |ring| && s.prod.nb == ring[t + 1]
    requires RingInv(ProducerStep(s, y, mode, memory).state.q, ring, t + 1)
    ensures Elements(ProducerStep(s, y, mode, memory).state, ring, t + 1)
  {
    var s' := ProducerStep(s, y, mode, memory).state;
    ProducerLoadsAreQuiet(s, y, mode, memory);
    KeepsSlots(s, s', -1);
    HistoryPublish(s, s', ring, t, s.prod.x);
  }

  lemma ProducerLinks<T>(s: State<T>, ring: seq<nat>, t: nat, y: T, mode: bool, memory: bool)
    requires Elements(s, ring, t) && s.prod.PLink? && s.prod.tb == ring[t]
    requires ProducerStep(s, y, mode, memory).Ok? ==>
      RingInv(ProducerStep(s, y, mode, memory).state.q, Extend(ring, t), t)
    ensures ProducerStep(s, y, mode, memory).Ok? && Elements(ProducerStep(s, y, mode, memory).state, Extend(ring, t), t)
  {
    LinksSlot(s, y, mode, memory);
    var s' := ProducerStep(s, y, mode, memory).state;
    KeepsSlots(s, s', -1);
    HistoryExtend(s, s', ring, t);
  }

  /** Where the producer's loads cannot go wrong; line 588: the block after the tail is
      empty whenever the producer advances to it. */
  lemma ProducerPointersValid<T>(s: State<T>, ring: seq<nat>, t: nat, y: T, mode: bool, memory: bool)
    requires IndexInv(s, ring, t) && !s.prod.PWrite? && !s.prod.PNextWrite?
    ensures ProducerStep(s, y, mode, memory).Ok?
    ensures s.prod.PAlloc? && memory ==> ProducerStep(s, y, mode, memory).state.q.largestBlockSize >= 2
  {
    assert Linked(s.q, ring, t);
    if s.prod.PLoadTail? {
      assert Indices(s.q.blocks[ring[t]]);
    } else if s.prod.PNextTail? || s.prod.PNextStoreTail? {
      assert Indices(s.q.blocks[ring[t + 1]]);
      assert IsVacant(s.q.blocks[ring[t + 1]]);
    }
  }

  /** What the producer's locals and the consumer's position say about the blocks at hand. */
  lemma StoreFacts<T>(s: State<T>, ring: seq<nat>, t: nat)
    requires IndexInv(s, ring, t) && (s.prod.PStoreTail? || s.prod.PNextStoreTail?)
    ensures s.cons.StoreFront? ==> s.cons.fb == ring[0] && !IsVacant(s.q.blocks[ring[0]])
    ensures s.prod.PStoreTail? ==>
              var b := s.q.blocks[ring[t]];
              b.tail < b.size && Advance(b.tail, b.size) != b.front
    ensures s.prod.PNextStoreTail? ==> t + 1 < |ring|
    ensures s.prod.PNextStoreTail? ==>
              var b := s.q.blocks[ring[t + 1]];
              b.tail < b.size && b.size >= 2 && IsVacant(b) && s.prod.nb == ring[t + 1]
  {
    if s.cons.StoreFront? {
      FrontHoldsElement(s, ring, t);
    }
    if s.prod.PStoreTail? {
      assert Indices(s.q.blocks[ring[t]]);
    } else {
      assert Linked(s.q, ring, t);
      assert Wide(s.q);
      assert Indices(s.q.blocks[ring[t + 1]]);
      assert IsVacant(s.q.blocks[ring[t + 1]]);
    }
  }

  lemma ProducerKeepsElements<T>(s: State<T>, ring: seq<nat>, t: nat, y: T, mode: bool, memory: bool)
      returns (ring': seq<nat>, t': nat)
    requires Inv(s, ring, t) && (mode ==> Wide(s.q)) && ProducerStep(s, y, mode, memory).Ok?
    requires s.prod.PAlloc? && memory ==> ProducerStep(s, y, mode, memory).state.q.largestBlockSize >= 2
    ensures IndexInv(ProducerStep(s, y, mode, memory).state, ring', t')
    ensures Elements(ProducerStep(s, y, mode, memory).state, ring', t')
    ensures t' == if s.prod.PPublish? then t + 1 else t
  {
    hide ProducerStep, History, AllSlots, InFlight, Occupancy, SizesOk;
    ring', t' := ProducerIndex(s, ring, t, y, mode, memory);
    NextIsNotFront(s, ring, t);
    match s.prod {
      case PWrite(x, tb, bt, nt) => ProducerWrites(s, tb, ring, t, y, mode, memory);
      case PNextWrite(x, nb, nt) => ProducerWrites(s, nb, ring, t, y, mode, memory);
      case PStoreTail(x, tb, nt) =>
        StoreFacts(s, ring, t);
        ProducerStoresTail(s, ring, t, y, mode, memory);
      case PNextStoreTail(x, nb, nt) =>
        StoreFacts(s, ring, t);
        ProducerStoresNextTail(s, ring, t, y, mode, memory);
      case PPublish(x, nb) => ProducerPublishes(s, ring, t, y, mode, memory);
      case PLink(x, tb, made) => ProducerLinks(s, ring, t, y, mode, memory);
      case _ => ProducerLoad(s, ring, t, y, mode, memory);
    }
  }

  lemma ProducerKeeps<T>(s: State<T>, ring: seq<nat>, t: nat, y: T, mode: bool, memory: bool)
      returns (ring': seq<nat>, t': nat)
    requires Inv(s, ring, t) && (mode ==> Wide(s.q))
    ensures ProducerStep(s, y, mode, memory).Ok? && Inv(ProducerStep(s, y, mode, memory).state, ring', t')
    ensures t' == if s.prod.PPublish? then t + 1 else t
  {
    if s.prod.PWrite? {
      WritesSlot(s, s.prod.tb, y, mode, memory);
    } else if s.prod.PNextWrite? {
      NextIsNotFront(s, ring, t);
      WritesSlot(s, s.prod.nb, y, mode, memory);
    } else {
      ProducerPointersValid(s, ring, t, y, mode, memory);
    }
    ring', t' := ProducerKeepsElements(s, ring, t, y, mode, memory);
  }
}
