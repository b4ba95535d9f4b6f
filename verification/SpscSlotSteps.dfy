/**
 What the element accesses and index stores do to slots and to the queued elements.
 These lemmas name only the facts they use, not the whole invariant.
 */
module SpscSlotSteps {
  import opened Sequences
  import opened RingArithmetic
  import opened SpscQueue
  import opened SpscInvariant
  import opened SpscQueueOps

  ghost predicate SameSlots<T>(b: Block<T>, c: Block<T>) {
    b.front == c.front && b.tail == c.tail && b.size == c.size && b.data == c.data
  }

  /** Every block but `k` looks the same to a reader of elements. */
  ghost predicate SameExcept<T>(s: State<T>, s': State<T>, k: int) {
    && |s.q.blocks| <= |s'.q.blocks|
    && forall i {:trigger SlotsOk(Settled(s', i))} {:trigger BlockItems(Settled(s', i))} ::
         0 <= i < |s.q.blocks| && i != k ==> SameSlots(Settled(s, i), Settled(s', i))
  }

  /** No block gains or loses an element. */
  ghost predicate Quiet<T>(s: State<T>, s': State<T>) {
    |s.q.blocks| == |s'.q.blocks| && SameExcept(s, s', -1)
  }

  lemma KeepsSlots<T>(s: State<T>, s': State<T>, k: int)
    requires AllSlots(s) && SameExcept(s, s', k)
    requires forall i {:trigger SlotsOk(Settled(s', i))} ::
      0 <= i < |s'.q.blocks| && (i == k || i >= |s.q.blocks|) ==> SlotsOk(Settled(s', i))
    ensures AllSlots(s')
  {
    forall i | 0 <= i < |s'.q.blocks|
      ensures SlotsOk(Settled(s', i))
    {
      assert i < |s.q.blocks| ==> SlotsOk(Settled(s, i));
    }
  }

  // ----- the history -----

  ghost predicate InRange<T>(s: State<T>, ring: seq<nat>) {
    forall i :: 0 <= i < |ring| ==> ring[i] < |s.q.blocks|
  }

  lemma PartAt<T>(s: State<T>, ring: seq<nat>, t: nat, i: nat)
    requires InRange(s, ring) && i <= t < |ring|
    ensures Parts(s, ring, t)[i] == BlockItems(Settled(s, ring[i]))
  {
  }

  lemma SameItems<T>(s: State<T>, s': State<T>, k: int, i: nat)
    requires SameExcept(s, s', k) && i < |s.q.blocks| && i != k
    ensures BlockItems(Settled(s', i)) == BlockItems(Settled(s, i))
  {
    hide Settled;
  }

  /** Two ring positions of the same, unchanged block. */
  lemma SamePart<T>(s: State<T>, s': State<T>, k: int, ring: seq<nat>, t: nat, i: nat, ring': seq<nat>, t': nat, j: nat)
    requires SameExcept(s, s', k) && InRange(s, ring) && InRange(s', ring')
    requires i <= t < |ring| && j <= t' < |ring'| && ring'[j] == ring[i] != k
    ensures Parts(s', ring', t')[j] == Parts(s, ring, t)[i]
  {
    hide Settled, BlockItems;
    SameItems(s, s', k, ring[i]);
    PartAt(s, ring, t, i);
    PartAt(s', ring', t', j);
  }

  lemma HistoryQuiet<T>(s: State<T>, s': State<T>, k: int, ring: seq<nat>, t: nat)
    requires InRange(s, ring) && t < |ring| && History(s, ring, t)
    requires SameExcept(s, s', k) && forall i :: 0 <= i <= t ==> ring[i] != k
    requires s.enqueued == s'.enqueued && s.dequeued == s'.dequeued
    ensures History(s', ring, t)
  {
    hide Settled, BlockItems, Parts, SameExcept;
    assert |s.q.blocks| <= |s'.q.blocks| by { Grows(s, s', k); }
    var ps, ps' := Parts(s, ring, t), Parts(s', ring, t);
    forall i | 0 <= i <= t
      ensures ps'[i] == ps[i]
    {
      SamePart(s, s', k, ring, t, i, ring, t, i);
    }
    assert ps == ps';
  }

  lemma Grows<T>(s: State<T>, s': State<T>, k: int)
    requires SameExcept(s, s', k)
    ensures |s.q.blocks| <= |s'.q.blocks|
  {
  }

  lemma HistoryPop<T>(s: State<T>, s': State<T>, ring: seq<nat>, t: nat, x: T)
    requires InRange(s, ring) && t < |ring| && History(s, ring, t)
    requires SameExcept(s, s', ring[0]) && forall i :: 0 < i <= t ==> ring[i] != ring[0]
    requires |s.q.blocks| <= |s'.q.blocks|
    requires BlockItems(Settled(s, ring[0])) == [x] + BlockItems(Settled(s', ring[0]))
    requires s'.enqueued == s.enqueued && s'.dequeued == s.dequeued + [x]
    ensures History(s', ring, t)
  {
    hide Settled, BlockItems, Parts, SameExcept;
    var ps, ps' := Parts(s, ring, t), Parts(s', ring, t);
    forall i | 1 <= i <= t
      ensures ps'[i] == ps[i]
    {
      SamePart(s, s', ring[0], ring, t, i, ring, t, i);
    }
    PartAt(s, ring, t, 0);
    PartAt(s', ring, t, 0);
    FlattenPop(ps, ps', x);
    assert s.dequeued + ([x] + Flatten(ps')) == s'.dequeued + Flatten(ps');
  }

  lemma HistoryPush<T>(s: State<T>, s': State<T>, ring: seq<nat>, t: nat, x: T)
    requires InRange(s, ring) && t < |ring| && History(s, ring, t)
    requires SameExcept(s, s', ring[t]) && forall i :: 0 <= i < t ==> ring[i] != ring[t]
    requires |s.q.blocks| <= |s'.q.blocks|
    requires BlockItems(Settled(s', ring[t])) == BlockItems(Settled(s, ring[t])) + [x]
    requires s'.enqueued == s.enqueued + [x] && s'.dequeued == s.dequeued
    ensures History(s', ring, t)
  {
    hide Settled, BlockItems, Parts, SameExcept;
    var ps, ps' := Parts(s, ring, t), Parts(s', ring, t);
    forall i | 0 <= i < t
      ensures ps'[i] == ps[i]
    {
      SamePart(s, s', ring[t], ring, t, i, ring, t, i);
    }
    PartAt(s, ring, t, t);
    PartAt(s', ring, t, t);
    assert ps' == ps[..t] + [ps[t] + [x]];
    FlattenPush(ps, x);
  }

  lemma HistoryRotate<T>(s: State<T>, s': State<T>, ring: seq<nat>, t: nat)
    requires InRange(s, ring) && 1 <= t < |ring| && History(s, ring, t) && Quiet(s, s')
    requires BlockItems(Settled(s, ring[0])) == []
    requires s'.enqueued == s.enqueued && s'.dequeued == s.dequeued
    ensures InRange(s', Rotated(ring)) && History(s', Rotated(ring), t - 1)
  {
    hide Settled, BlockItems, Parts, SameExcept;
    var ps, ps' := Parts(s, ring, t), Parts(s', Rotated(ring), t - 1);
    forall i | 0 <= i < t
      ensures ps'[i] == ps[i + 1]
    {
      SamePart(s, s', -1, ring, t, i + 1, Rotated(ring), t - 1, i);
    }
    PartAt(s, ring, t, 0);
    assert ps' == ps[1..];
  }

  lemma HistoryPublish<T>(s: State<T>, s': State<T>, ring: seq<nat>, t: nat, x: T)
    requires InRange(s, ring) && t + 1 < |ring| && History(s, ring, t) && Quiet(s, s')
    requires BlockItems(Settled(s, ring[t + 1])) == [x]
    requires s'.enqueued == s.enqueued + [x] && s'.dequeued == s.dequeued
    ensures History(s', ring, t + 1)
  {
    hide Settled, BlockItems, Parts, SameExcept;
    var ps, ps' := Parts(s, ring, t), Parts(s', ring, t + 1);
    forall i | 0 <= i <= t
      ensures ps'[i] == ps[i]
    {
      SamePart(s, s', -1, ring, t, i, ring, t + 1, i);
    }
    PartAt(s', ring, t + 1, t + 1);
    SameItems(s, s', -1, ring[t + 1]);
    assert ps' == ps + [[x]];
    FlattenAppend(ps, [[x]]);
    FlattenOne([x]);
    assert s.dequeued + (Flatten(ps) + [x]) == (s.dequeued + Flatten(ps)) + [x];
  }

  lemma HistoryExtend<T>(s: State<T>, s': State<T>, ring: seq<nat>, t: nat)
    requires InRange(s, ring) && t < |ring| && History(s, ring, t) && SameExcept(s, s', -1)
    requires s'.enqueued == s.enqueued && s'.dequeued == s.dequeued && InRange(s', Extend(ring, t))
    ensures History(s', Extend(ring, t), t)
  {
    hide Settled, BlockItems, Parts, SameExcept;
    var ps, ps' := Parts(s, ring, t), Parts(s', Extend(ring, t), t);
    forall i | 0 <= i <= t
      ensures ps'[i] == ps[i]
    {
      ExtendAt(ring, t, i);
      SamePart(s, s', -1, ring, t, i, Extend(ring, t), t, i);
    }
    assert ps == ps';
  }

  // ----- consumer -----

  /** Moving the element out: the slot holds an object, the settled view does not change. */
  lemma ReadsSlot<T>(s: State<T>)
    requires AllSlots(s) && s.cons.ReadElement? && s.cons.fb < |s.q.blocks|
    requires var b := s.q.blocks[s.cons.fb]; s.cons.bf == b.front && !IsVacant(b)
    ensures ConsumerStep(s).Ok? && Quiet(s, ConsumerStep(s).state)
    ensures ConsumerStep(s).state.cons.StoreFront? && MovedOut(ConsumerStep(s).state, s.cons.fb)
  {
    var fb, bf := s.cons.fb, s.cons.bf;
    var b := s.q.blocks[fb];
    assert SlotsOk(Settled(s, fb));
    assert Dist(bf, bf, b.size) == 0 && bf != b.tail;
    assert Settled(s, fb).data[bf].Full?;
    assert b.data[bf].Full?;
    var s' := ConsumerStep(s).state;
    forall i | 0 <= i < |s.q.blocks|
      ensures SameSlots(Settled(s, i), Settled(s', i))
    {
      if i == fb {
        assert s'.q.blocks[fb].data[bf := Full(s'.cons.result)] == b.data;
      }
    }
  }

  /** Storing `front` takes the first element away from the settled view. */
  lemma ReleasesSlot<T>(s: State<T>)
    requires AllSlots(s) && s.cons.StoreFront? && MovedOut(s, s.cons.fb)
    requires var b := s.q.blocks[s.cons.fb];
      b.front < b.size && !IsVacant(b) && s.cons.bf == Advance(b.front, b.size)
    ensures ConsumerStep(s).Ok? && SameExcept(s, ConsumerStep(s).state, s.cons.fb)
    ensures SlotsOk(Settled(ConsumerStep(s).state, s.cons.fb))
    ensures BlockItems(Settled(s, s.cons.fb)) ==
      [s.cons.result] + BlockItems(Settled(ConsumerStep(s).state, s.cons.fb))
  {
    var fb := s.cons.fb;
    var s' := ConsumerStep(s).state;
    var b := Settled(s, fb);
    assert SlotsOk(b);
    assert b.data[b.front] == Full(s.cons.result);
    PopBlock(b);
    assert Settled(s', fb).data == Popped(b).data;
    assert Settled(s', fb) == Popped(b);
    forall i | 0 <= i < |s.q.blocks| && i != fb
      ensures SameSlots(Settled(s, i), Settled(s', i))
    {
    }
  }

  /** Loads and stores of shadow copies. */
  lemma LoadsAreQuiet<T>(s: State<T>)
    requires ConsumerStep(s).Ok? && !s.cons.ReadElement? && !s.cons.StoreFront?
    ensures Quiet(s, ConsumerStep(s).state)
    ensures forall i :: 0 <= i < |s.q.blocks| ==> SameSlots(s.q.blocks[i], ConsumerStep(s).state.q.blocks[i])
  {
    var s' := ConsumerStep(s).state;
    forall i | 0 <= i < |s.q.blocks|
      ensures SameSlots(s.q.blocks[i], s'.q.blocks[i]) && SameSlots(Settled(s, i), Settled(s', i))
    {
    }
  }

  // ----- producer -----

  /** Constructing an element: the slot is raw memory, the settled view does not change. */
  lemma WritesSlot<T>(s: State<T>, k: nat, y: T, mode: bool, memory: bool)
    requires AllSlots(s) && k < |s.q.blocks| && (s.prod.PWrite? || s.prod.PNextWrite?)
    requires k == if s.prod.PWrite? then s.prod.tb else s.prod.nb
    requires s.q.blocks[k].tail == if s.prod.PWrite? then s.prod.bt else s.prod.nt
    ensures ProducerStep(s, y, mode, memory).Ok? && Quiet(s, ProducerStep(s, y, mode, memory).state)
    ensures Constructed(ProducerStep(s, y, mode, memory).state, k, s.prod.x)
    ensures s.cons.StoreFront? && s.cons.fb == k ==> s.q.blocks[k].front != s.q.blocks[k].tail
  {
    var b := s.q.blocks[k];
    assert SlotsOk(Settled(s, k));
    assert Settled(s, k).data[b.tail].Empty?;
    assert b.data[b.tail].Empty?;
    var s' := ProducerStep(s, y, mode, memory).state;
    forall i | 0 <= i < |s.q.blocks|
      ensures SameSlots(Settled(s, i), Settled(s', i))
    {
      if i == k {
        assert Settled(s', k).data == Settled(s, k).data;
      }
    }
  }

  /** `s'` is `s` with `tail` of block `k` advanced and no element under construction. */
  ghost predicate TailStored<T>(s: State<T>, s': State<T>, k: nat) {
    && k < |s.q.blocks| && s.q.blocks[k].tail < s.q.blocks[k].size && s'.cons == s.cons && !Writing(s'.prod)
    && s'.q.blocks == s.q.blocks[k := s.q.blocks[k].(tail := Advance(s.q.blocks[k].tail, s.q.blocks[k].size))]
  }

  lemma StoreSettles<T>(s: State<T>, s': State<T>, k: nat)
    requires TailStored(s, s', k) && Writing(s.prod) && Constructed(s, k, s.prod.x)
    requires k == if s.prod.PStoreTail? then s.prod.tb else s.prod.nb
    requires s.cons.StoreFront? && s.cons.fb == k ==> !IsVacant(s.q.blocks[k])
    requires SlotsOk(Settled(s, k))
    ensures Settled(s', k) == Pushed(Settled(s, k), s.prod.x)
    ensures SameExcept(s, s', k)
  {
    assert Settled(s', k).data == Pushed(Settled(s, k), s.prod.x).data;
    forall i | 0 <= i < |s.q.blocks| && i != k
      ensures SameSlots(Settled(s, i), Settled(s', i))
    {
      assert s'.q.blocks[i] == s.q.blocks[i];
    }
  }

  /** Storing `tail` adds the constructed element to the settled view. */
  lemma StoresSlot<T>(s: State<T>, k: nat, y: T, mode: bool, memory: bool)
    requires AllSlots(s) && (s.prod.PStoreTail? || s.prod.PNextStoreTail?)
    requires k == if s.prod.PStoreTail? then s.prod.tb else s.prod.nb
    requires Constructed(s, k, s.prod.x)
    requires s.cons.StoreFront? && s.cons.fb == k ==> !IsVacant(s.q.blocks[k])
    requires var b := s.q.blocks[k];
      && b.tail < b.size && Advance(b.tail, b.size) != b.front
      && (s.prod.PStoreTail? ==> s.prod.nt == Advance(b.tail, b.size))
      && (s.prod.PNextStoreTail? ==> s.prod.nt == b.tail)
    ensures ProducerStep(s, y, mode, memory).Ok? && SameExcept(s, ProducerStep(s, y, mode, memory).state, k)
    ensures SlotsOk(Settled(ProducerStep(s, y, mode, memory).state, k))
    ensures BlockItems(Settled(ProducerStep(s, y, mode, memory).state, k)) == BlockItems(Settled(s, k)) + [s.prod.x]
  {
    hide SameExcept, BlockItems, SlotsOk;
    var s' := ProducerStep(s, y, mode, memory).state;
    assert SlotsOk(Settled(s, k));
    assert Settled(s, k).tail < |Settled(s, k).data| == Settled(s, k).size by { DataFits(Settled(s, k)); }
    assert TailStored(s, s', k);
    StoreSettles(s, s', k);
    PushBlock(Settled(s, k), s.prod.x);
  }

  lemma DataFits<T>(b: Block<T>)
    requires SlotsOk(b)
    ensures b.tail < |b.data| == b.size
  {
  }

  predicate ProducerLoads<T>(p: Producer<T>) {
    !p.PWrite? && !p.PNextWrite? && !p.PStoreTail? && !p.PNextStoreTail? && !p.PLink?
  }

  lemma ProducerLoadsAreQuiet<T>(s: State<T>, y: T, mode: bool, memory: bool)
    requires ProducerStep(s, y, mode, memory).Ok? && ProducerLoads(s.prod)
    ensures Quiet(s, ProducerStep(s, y, mode, memory).state)
    ensures s.cons.StoreFront? && MovedOut(s, s.cons.fb) ==> MovedOut(ProducerStep(s, y, mode, memory).state, s.cons.fb)
  {
    var s' := ProducerStep(s, y, mode, memory).state;
    assert !Writing(s.prod) && !Writing(s'.prod) && s'.cons == s.cons;
    assert SameData(s.q.blocks, s'.q.blocks);
    SameDataIsQuiet(s, s');
  }

  predicate Writing<T>(p: Producer<T>) {
    p.PStoreTail? || p.PNextStoreTail?
  }

  ghost predicate SameData<T>(bs: seq<Block<T>>, cs: seq<Block<T>>) {
    |bs| == |cs| && forall i :: 0 <= i < |bs| ==> SameSlots(bs[i], cs[i])
  }

  lemma SameDataIsQuiet<T>(s: State<T>, s': State<T>)
    requires !Writing(s.prod) && !Writing(s'.prod) && s'.cons == s.cons && SameData(s.q.blocks, s'.q.blocks)
    ensures Quiet(s, s')
    ensures s.cons.StoreFront? && MovedOut(s, s.cons.fb) ==> MovedOut(s', s.cons.fb)
  {
    forall i | 0 <= i < |s.q.blocks|
      ensures SameSlots(Settled(s, i), Settled(s', i))
    {
      assert SameSlots(s.q.blocks[i], s'.q.blocks[i]);
    }
  }

  /** A freshly made block holds exactly the element being enqueued. */
  lemma MadeBlock<T>(x: T, size: nat, next: nat)
    requires size >= 2
    ensures var e: Block<T> := EmptyBlock(size, next);
      HoldsOnly(e.(tail := 1, localTail := 1, data := e.data[0 := Full(x)]), x)
  {
    var e: Block<T> := EmptyBlock(size, next);
    var d := e.data[0 := Full(x)];
    assert Items(d, 0, 1) == [x] + Items(d, Advance(0, size), 0);
  }

  /** Linking a block leaves the others alone. */
  lemma LinksSlot<T>(s: State<T>, y: T, mode: bool, memory: bool)
    requires s.prod.PLink? && s.prod.tb < |s.q.blocks|
    ensures ProducerStep(s, y, mode, memory).Ok? && SameExcept(s, ProducerStep(s, y, mode, memory).state, -1)
    ensures s.cons.StoreFront? ==> s.cons.fb < |s.q.blocks| ==>
      Settled(ProducerStep(s, y, mode, memory).state, |s.q.blocks|) == s.prod.made
    ensures !s.cons.StoreFront? ==> Settled(ProducerStep(s, y, mode, memory).state, |s.q.blocks|) == s.prod.made
    ensures s.cons.StoreFront? && MovedOut(s, s.cons.fb) ==> MovedOut(ProducerStep(s, y, mode, memory).state, s.cons.fb)
  {
    var s' := ProducerStep(s, y, mode, memory).state;
    forall i | 0 <= i < |s.q.blocks|
      ensures SameSlots(Settled(s, i), Settled(s', i))
    {
    }
  }
}
