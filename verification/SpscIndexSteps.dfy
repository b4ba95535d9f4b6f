/**
 Every step keeps `IndexInv`, the half of the invariant about indices and pointers.
 */
module SpscIndexSteps {
  import opened RingArithmetic
  import opened SpscQueue
  import opened SpscInvariant
  import opened SpscQueueOps

  /** A thread's invariant survives when what it may rely on only grows. */
  lemma ConsInvMono<T>(c: Consumer<T>, v: ConsView, v': ConsView)
    requires ConsInv(c, v)
    requires v' == v.(more := v'.more, tail := v'.tail, next := v'.next,
                      nextFront := v'.nextFront, nextLocalTail := v'.nextLocalTail)
    requires v.more ==> v' == v
    ensures ConsInv(c, v')
  {
  }

  lemma ProdInvMono<T>(p: Producer<T>, v: ProdView, v': ProdView)
    requires ProdInv(p, v)
    requires v' == v.(leaving := v'.leaving, room := v'.room, nextFront := v'.nextFront,
                      nextTail := v'.nextTail, nextLocalFront := v'.nextLocalFront)
    requires v.leaving ==> v'.leaving
    requires v.room ==> v' == v.(leaving := v'.leaving)
    ensures ProdInv(p, v')
  {
  }

  // ----- consumer -----

  lemma ConsumerIndex<T>(s: State<T>, ring: seq<nat>, t: nat) returns (ring': seq<nat>, t': nat)
    requires IndexInv(s, ring, t) && ConsumerStep(s).Ok?
    ensures IndexInv(ConsumerStep(s).state, ring', t')
    ensures !s.cons.StoreFrontBlock? ==> ring' == ring && t' == t
    ensures s.cons.StoreFrontBlock? ==> t >= 1 && ring' == Rotated(ring) && t' == t - 1
  {
    hide ConsumerStep, IndexInv;
    ring', t' := ring, t;
    match s.cons {
      case LoadTail(fb, bf) => RefreshesFrontTail(s, ring, t);
      case ReloadTail(fb) => RefreshesFrontTail(s, ring, t);
      case LoadNextTail(nb, nf) => RefreshesNextTail(s, ring, t);
      case ReadElement(fb, bf) => ReadsIndex(s, ring, t);
      case StoreFront(fb, bf, result) => ReleasesIndex(s, ring, t);
      case StoreFrontBlock(nb, nf) =>
        AdvancesIndex(s, ring, t);
        ring', t' := Rotated(ring), t - 1;
      case _ => ConsumerMovesIndex(s, ring, t);
    }
  }

  predicate OnlyLoads<T>(c: Consumer<T>) {
    || c.CIdle? || c.CReturned? || c.LoadFrontBlock? || c.LoadFront? || c.LoadTailBlock?
    || c.ReloadFrontBlock? || c.ReloadFront? || c.LoadNext? || c.LoadNextFront?
  }

  lemma ConsumerMovesIndex<T>(s: State<T>, ring: seq<nat>, t: nat)
    requires IndexInv(s, ring, t) && ConsumerStep(s).Ok? && OnlyLoads(s.cons)
    ensures IndexInv(ConsumerStep(s).state, ring, t)
  {
    var s' := ConsumerStep(s).state;
    assert s'.q == s.q && s'.prod == s.prod;
    assert Linked(s.q, ring, 0);
    assert t == 0 ==> s.q.tailBlock == s.q.frontBlock;
  }

  lemma ReleasesIndex<T>(s: State<T>, ring: seq<nat>, t: nat)
    requires IndexInv(s, ring, t) && ConsumerStep(s).Ok? && s.cons.StoreFront?
    ensures IndexInv(ConsumerStep(s).state, ring, t)
  {
    SetFront(s.q, s.prod.PPublish?, ring, t);
  }

  lemma IndicesAt<T>(blocks: seq<Block<T>>, i: nat)
    requires AllIndices(blocks) && i < |blocks|
    ensures Indices(blocks[i])
  {
  }

  lemma RefreshesFrontTail<T>(s: State<T>, ring: seq<nat>, t: nat)
    requires IndexInv(s, ring, t) && ConsumerStep(s).Ok? && (s.cons.LoadTail? || s.cons.ReloadTail?)
    ensures IndexInv(ConsumerStep(s).state, ring, t)
  {
    hide AllIndices, Occupancy, RingArithmetic.Dist;
    var b := s.q.blocks[ring[0]];
    var b' := b.(localTail := b.tail);
    IndicesAt(s.q.blocks, ring[0]);
    SetQuiet(s.q, ring[0], b', s.prod.PPublish?, ring, t);
    var q' := Set(s.q, ring[0], b');
    assert ConsumerStep(s).state.q == q';
    assert ProdViewOf(q', ring, t) == ProdViewOf(s.q, ring, t);
    assert ConsViewOf(q', ring, t) == ConsViewOf(s.q, ring, t).(localTail := b.tail);
  }

  lemma RefreshesNextTail<T>(s: State<T>, ring: seq<nat>, t: nat)
    requires IndexInv(s, ring, t) && ConsumerStep(s).Ok? && s.cons.LoadNextTail?
    ensures IndexInv(ConsumerStep(s).state, ring, t)
  {
    hide AllIndices, Occupancy, RingArithmetic.Dist;
    var b := s.q.blocks[ring[1]];
    var b' := b.(localTail := b.tail);
    IndicesAt(s.q.blocks, ring[1]);
    SetQuiet(s.q, ring[1], b', s.prod.PPublish?, ring, t);
    var q' := Set(s.q, ring[1], b');
    assert ConsumerStep(s).state.q == q';
    assert ProdViewOf(q', ring, t) == ProdViewOf(s.q, ring, t);
    assert ConsViewOf(q', ring, t) == ConsViewOf(s.q, ring, t).(nextLocalTail := b.tail);
  }

  lemma ReadsIndex<T>(s: State<T>, ring: seq<nat>, t: nat)
    requires IndexInv(s, ring, t) && ConsumerStep(s).Ok? && s.cons.ReadElement?
    ensures IndexInv(ConsumerStep(s).state, ring, t)
  {
    hide AllIndices, Occupancy, RingArithmetic.Dist;
    var b := s.q.blocks[ring[0]];
    var b' := b.(data := b.data[b.front := Empty]);
    IndicesAt(s.q.blocks, ring[0]);
    SetQuiet(s.q, ring[0], b', s.prod.PPublish?, ring, t);
    var q' := Set(s.q, ring[0], b');
    assert ConsumerStep(s).state.q == q';
    assert ProdViewOf(q', ring, t) == ProdViewOf(s.q, ring, t);
    assert ConsViewOf(q', ring, t) == ConsViewOf(s.q, ring, t);
  }

  lemma AdvancesIndex<T>(s: State<T>, ring: seq<nat>, t: nat)
    requires IndexInv(s, ring, t) && ConsumerStep(s).Ok? && s.cons.StoreFrontBlock?
    ensures 1 <= t < |ring| && IndexInv(ConsumerStep(s).state, Rotated(ring), t - 1)
  {
    Rotate(s.q, s.prod.PPublish?, ring, t);
    var q' := s.q.(frontBlock := ring[1]);
    assert ConsumerStep(s).state.q == q';
    RotatedProdView(s.q, ring, t);
    ProdInvMono(s.prod, ProdViewOf(s.q, ring, t), ProdViewOf(q', Rotated(ring), t - 1));
  }

  /** Rotating the ring leaves the tail block where it is and may free the block after it. */
  lemma RotatedProdView<T>(q: Queue<T>, ring: seq<nat>, t: nat)
    requires RingInv(q, ring, t) && t >= 1
    requires RingInv(q.(frontBlock := ring[1]), Rotated(ring), t - 1)
    ensures var v, v' := ProdViewOf(q, ring, t), ProdViewOf(q.(frontBlock := ring[1]), Rotated(ring), t - 1);
      && v' == v.(leaving := v'.leaving, room := v'.room, nextFront := v'.nextFront,
                  nextTail := v'.nextTail, nextLocalFront := v'.nextLocalFront)
      && (v.leaving ==> v'.leaving) && (v.room ==> v' == v.(leaving := v'.leaving))
  {
    var ring' := Rotated(ring);
    assert ring'[t - 1] == ring[t];
    assert t + 1 < |ring| ==> ring'[t] == ring[t + 1];
  }

  // ----- producer -----

  lemma ProducerIndex<T>(s: State<T>, ring: seq<nat>, t: nat, y: T, mode: bool, memory: bool)
      returns (ring': seq<nat>, t': nat)
    requires IndexInv(s, ring, t) && ProducerStep(s, y, mode, memory).Ok?
    requires mode ==> Wide(s.q)
    ensures IndexInv(ProducerStep(s, y, mode, memory).state, ring', t')
    ensures t' == if s.prod.PPublish? then t + 1 else t
    ensures ring' == if s.prod.PLink? then Extend(ring, t) else ring
  {
    hide ProducerStep, IndexInv;
    ring', t' := ring, t;
    match s.prod {
      case PLoadFront(x, alloc, tb, bt, nt) => RefreshesLocalFront(s, ring, t, y, mode, memory);
      case PNextFront(x, nb) => RefreshesNextFront(s, ring, t, y, mode, memory);
      case PNextTail(x, nb, nf) => RefreshesNextFront(s, ring, t, y, mode, memory);
      case PWrite(x, tb, bt, nt) => WritesIndex(s, ring, t, y, mode, memory);
      case PNextWrite(x, nb, nt) => WritesNextIndex(s, ring, t, y, mode, memory);
      case PStoreTail(x, tb, nt) => StoresTailIndex(s, ring, t, y, mode, memory);
      case PNextStoreTail(x, nb, nt) => StoresNextTailIndex(s, ring, t, y, mode, memory);
      case PPublish(x, nb) =>
        PublishesIndex(s, ring, t, y, mode, memory);
        t' := t + 1;
      case PAlloc(x, tb) => AllocatesIndex(s, ring, t, y, mode, memory);
      case PLink(x, tb, made) =>
        LinksIndex(s, ring, t, y, mode, memory);
        ring' := Extend(ring, t);
      case _ => MovesIndex(s, ring, t, y, mode, memory);
    }
  }

  predicate OnlyMoves<T>(p: Producer<T>) {
    || p.PIdle? || p.PReturned? || p.PLoadTailBlock? || p.PLoadTail? || p.PLoadNext?
    || p.PLoadFrontBlock? || p.PReloadNext?
  }

  lemma MovesIndex<T>(s: State<T>, ring: seq<nat>, t: nat, y: T, mode: bool, memory: bool)
    requires IndexInv(s, ring, t) && ProducerStep(s, y, mode, memory).Ok? && OnlyMoves(s.prod)
    requires mode ==> Wide(s.q)
    ensures IndexInv(ProducerStep(s, y, mode, memory).state, ring, t)
  {
    hide AllIndices, Occupancy, RingArithmetic.Dist;
    var s' := ProducerStep(s, y, mode, memory).state;
    assert s'.q == s.q && s'.cons == s.cons && !s'.prod.PPublish?;
    assert Linked(s.q, ring, t);
  }

  lemma RefreshesLocalFront<T>(s: State<T>, ring: seq<nat>, t: nat, y: T, mode: bool, memory: bool)
    requires IndexInv(s, ring, t) && ProducerStep(s, y, mode, memory).Ok? && s.prod.PLoadFront?
    ensures IndexInv(ProducerStep(s, y, mode, memory).state, ring, t)
  {
    hide AllIndices, Occupancy, RingArithmetic.Dist;
    var b := s.q.blocks[ring[t]];
    var b' := b.(localFront := b.front);
    IndicesAt(s.q.blocks, ring[t]);
    SetQuiet(s.q, ring[t], b', false, ring, t);
    var q' := Set(s.q, ring[t], b');
    assert ProducerStep(s, y, mode, memory).state.q == q';
    assert ConsViewOf(q', ring, t) == ConsViewOf(s.q, ring, t);
    assert ProdViewOf(q', ring, t) == ProdViewOf(s.q, ring, t).(localFront := b.front);
  }

  /** The queue after `localFront` of the next block has been refreshed. */
  lemma NextFrontRefreshed<T>(q: Queue<T>, ring: seq<nat>, t: nat)
    requires QueueInv(q, false, ring, t) && t + 1 < |ring|
    ensures var b := q.blocks[ring[t + 1]];
      var q' := Set(q, ring[t + 1], b.(localFront := b.front));
      && QueueInv(q', false, ring, t) && ConsViewOf(q', ring, t) == ConsViewOf(q, ring, t)
      && ProdViewOf(q', ring, t) == ProdViewOf(q, ring, t).(nextLocalFront := b.front)
      && (Wide(q) ==> Wide(q')) && |q'.blocks| == |q.blocks|
  {
    hide AllIndices, Occupancy, RingArithmetic.Dist;
    var b := q.blocks[ring[t + 1]];
    IndicesAt(q.blocks, ring[t + 1]);
    SetQuiet(q, ring[t + 1], b.(localFront := b.front), false, ring, t);
  }

  /** What the producer knows of the next block when it is about to use it. */
  lemma NextBlockFacts<T>(s: State<T>, ring: seq<nat>, t: nat)
    requires IndexInv(s, ring, t) && (s.prod.PNextFront? || s.prod.PNextTail?)
    ensures t + 1 < |ring| && s.prod.nb == ring[t + 1] < |s.q.blocks| && QueueInv(s.q, false, ring, t)
    ensures ProdViewOf(s.q, ring, t).leaving && s.prod.nb == ProdViewOf(s.q, ring, t).nextBlock
    ensures s.prod.PNextTail? ==> s.prod.nf == s.q.blocks[ring[t + 1]].front
  {
    hide AllIndices, Occupancy, ConsInv;
    assert Linked(s.q, ring, t);
  }

  lemma RefreshesNextFront<T>(s: State<T>, ring: seq<nat>, t: nat, y: T, mode: bool, memory: bool)
    requires IndexInv(s, ring, t) && ProducerStep(s, y, mode, memory).Ok?
    requires s.prod.PNextFront? || s.prod.PNextTail?
    ensures IndexInv(ProducerStep(s, y, mode, memory).state, ring, t)
  {
    hide QueueInv, RingArithmetic.Dist, ConsInv, Wide;
    NextBlockFacts(s, ring, t);
    NextFrontRefreshed(s.q, ring, t);
    var b := s.q.blocks[ring[t + 1]];
    assert ProducerStep(s, y, mode, memory).state.q == Set(s.q, ring[t + 1], b.(localFront := b.front));
  }

  lemma WritesIndex<T>(s: State<T>, ring: seq<nat>, t: nat, y: T, mode: bool, memory: bool)
    requires IndexInv(s, ring, t) && ProducerStep(s, y, mode, memory).Ok? && s.prod.PWrite?
    ensures IndexInv(ProducerStep(s, y, mode, memory).state, ring, t)
  {
    hide AllIndices, Occupancy, RingArithmetic.Dist;
    var b := s.q.blocks[ring[t]];
    var b' := b.(data := b.data[b.tail := Full(s.prod.x)]);
    IndicesAt(s.q.blocks, ring[t]);
    SetQuiet(s.q, ring[t], b', false, ring, t);
    var q' := Set(s.q, ring[t], b');
    assert ProducerStep(s, y, mode, memory).state.q == q';
    assert ConsViewOf(q', ring, t) == ConsViewOf(s.q, ring, t);
    assert ProdViewOf(q', ring, t) == ProdViewOf(s.q, ring, t);
  }

  lemma WritesNextIndex<T>(s: State<T>, ring: seq<nat>, t: nat, y: T, mode: bool, memory: bool)
    requires IndexInv(s, ring, t) && ProducerStep(s, y, mode, memory).Ok? && s.prod.PNextWrite?
    ensures IndexInv(ProducerStep(s, y, mode, memory).state, ring, t)
  {
    hide RingArithmetic.Dist;
    assert Linked(s.q, ring, t);
    var b := s.q.blocks[ring[t + 1]];
    var b' := b.(data := b.data[b.tail := Full(s.prod.x)]);
    assert Indices(b);
    SetQuiet(s.q, ring[t + 1], b', false, ring, t);
    var q' := Set(s.q, ring[t + 1], b');
    assert ProducerStep(s, y, mode, memory).state.q == q';
    assert ConsViewOf(q', ring, t) == ConsViewOf(s.q, ring, t);
    assert ProdViewOf(q', ring, t) == ProdViewOf(s.q, ring, t);
  }

  lemma StoresTailIndex<T>(s: State<T>, ring: seq<nat>, t: nat, y: T, mode: bool, memory: bool)
    requires IndexInv(s, ring, t) && ProducerStep(s, y, mode, memory).Ok? && s.prod.PStoreTail?
    ensures IndexInv(ProducerStep(s, y, mode, memory).state, ring, t)
  {
    SetTail(s.q, ring, t);
  }

  lemma StoresNextTailIndex<T>(s: State<T>, ring: seq<nat>, t: nat, y: T, mode: bool, memory: bool)
    requires IndexInv(s, ring, t) && ProducerStep(s, y, mode, memory).Ok? && s.prod.PNextStoreTail?
    ensures IndexInv(ProducerStep(s, y, mode, memory).state, ring, t)
  {
    assert Linked(s.q, ring, t);
    assert Wide(s.q);
    SetNextTail(s.q, ring, t);
  }

  lemma PublishesIndex<T>(s: State<T>, ring: seq<nat>, t: nat, y: T, mode: bool, memory: bool)
    requires IndexInv(s, ring, t) && ProducerStep(s, y, mode, memory).Ok? && s.prod.PPublish?
    ensures t + 1 < |ring| && IndexInv(ProducerStep(s, y, mode, memory).state, ring, t + 1)
  {
    assert Linked(s.q, ring, t);
    Publish(s.q, ring, t);
    ConsInvMono(s.cons, ConsViewOf(s.q, ring, t), ConsViewOf(s.q.(tailBlock := ring[t + 1]), ring, t + 1));
  }

  lemma AllocatesIndex<T>(s: State<T>, ring: seq<nat>, t: nat, y: T, mode: bool, memory: bool)
    requires IndexInv(s, ring, t) && ProducerStep(s, y, mode, memory).Ok? && s.prod.PAlloc?
    ensures IndexInv(ProducerStep(s, y, mode, memory).state, ring, t)
  {
    var s' := ProducerStep(s, y, mode, memory).state;
    SameBlocks(s.q, s'.q, ring, t);
  }

  /** `largestBlockSize` is the producer's own. */
  lemma SameBlocks<T>(q: Queue<T>, q': Queue<T>, ring: seq<nat>, t: nat)
    requires QueueInv(q, false, ring, t) && q' == q.(largestBlockSize := q'.largestBlockSize)
    ensures QueueInv(q', false, ring, t)
    ensures ConsViewOf(q', ring, t) == ConsViewOf(q, ring, t) && ProdViewOf(q', ring, t) == ProdViewOf(q, ring, t)
  {
    SetQuiet(q, ring[0], q.blocks[ring[0]], false, ring, t) by {
      assert Indices(q.blocks[ring[0]]);
    }
    forall i | 0 <= i < |ring|
      ensures Linked(q', ring, i)
      ensures IsVacant(q'.blocks[ring[i]]) == IsVacant(q.blocks[ring[i]])
      ensures IsPacked(q'.blocks[ring[i]]) == IsPacked(q.blocks[ring[i]])
    {
      assert Linked(q, ring, i);
    }
  }

  lemma LinksIndex<T>(s: State<T>, ring: seq<nat>, t: nat, y: T, mode: bool, memory: bool)
    requires IndexInv(s, ring, t) && ProducerStep(s, y, mode, memory).Ok? && s.prod.PLink?
    ensures t < |ring| && IndexInv(ProducerStep(s, y, mode, memory).state, Extend(ring, t), t)
  {
    Link(s.q, s.prod.made, ring, t);
    var q' := LinkBlock(s.q, ring[t], s.prod.made);
    ExtendAt(ring, t, t);
    ExtendAt(ring, t, t + 1);
    assert Wide(q');
  }
}
