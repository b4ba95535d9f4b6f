/**
 The shared stores of the queue algorithm, one lemma each: what the store does to the
 ring of blocks and to what either thread relies on.
 */
module SpscQueueOps {
  import opened RingArithmetic
  import opened SpscQueue
  import opened SpscInvariant

  function Set<T>(q: Queue<T>, k: nat, b: Block<T>): Queue<T>
    requires k < |q.blocks|
  {
    q.(blocks := q.blocks[k := b])
  }

  predicate SameIndices<T>(b: Block<T>, c: Block<T>) {
    b.front == c.front && b.tail == c.tail && b.next == c.next && b.size == c.size
  }

  lemma KeepsIndices<T>(blocks: seq<Block<T>>, k: nat, b: Block<T>)
    requires AllIndices(blocks) && k < |blocks| && Indices(b)
    ensures AllIndices(blocks[k := b])
  {
    var blocks' := blocks[k := b];
    forall i | 0 <= i < |blocks'|
      ensures Indices(blocks'[i])
    {
      assert Indices(blocks[i]);
    }
  }

  /** Slots and shadow copies do not matter to the ring. */
  lemma SetQuiet<T>(q: Queue<T>, k: nat, b: Block<T>, pub: bool, ring: seq<nat>, t: nat)
    requires QueueInv(q, pub, ring, t) && k < |q.blocks| && SameIndices(q.blocks[k], b) && Indices(b)
    ensures QueueInv(Set(q, k, b), pub, ring, t)
  {
    KeepsIndices(q.blocks, k, b);
    KeepsLinks(q, k, b, ring, t);
    QuietOccupancy(q, k, b, pub, ring, t);
  }

  lemma KeepsLinks<T>(q: Queue<T>, k: nat, b: Block<T>, ring: seq<nat>, t: nat)
    requires RingInv(q, ring, t) && k < |q.blocks| && q.blocks[k].next == b.next
    ensures RingInv(Set(q, k, b), ring, t)
  {
    forall i | 0 <= i < |ring|
      ensures Linked(Set(q, k, b), ring, i)
    {
      assert Linked(q, ring, i);
    }
  }

  lemma QuietOccupancy<T>(q: Queue<T>, k: nat, b: Block<T>, pub: bool, ring: seq<nat>, t: nat)
    requires RingInv(q, ring, t) && Occupancy(q, pub, ring, t)
    requires k < |q.blocks| && SameIndices(q.blocks[k], b)
    ensures Occupancy(Set(q, k, b), pub, ring, t)
  {
    var q' := Set(q, k, b);
    forall i | 0 <= i < |ring|
      ensures IsVacant(q'.blocks[ring[i]]) == IsVacant(q.blocks[ring[i]])
      ensures IsPacked(q'.blocks[ring[i]]) == IsPacked(q.blocks[ring[i]])
    {
    }
  }

  /** Storing `front` of the front block. */
  lemma SetFront<T>(q: Queue<T>, pub: bool, ring: seq<nat>, t: nat)
    requires QueueInv(q, pub, ring, t)
    requires var b := q.blocks[ring[0]]; b.front < b.size && b.front != b.localTail
    ensures var b := q.blocks[ring[0]];
      var q' := Set(q, ring[0], b.(front := Advance(b.front, b.size)));
      QueueInv(q', pub, ring, t) && ProdViewOf(q', ring, t) == ProdViewOf(q, ring, t)
  {
    var b := q.blocks[ring[0]];
    var b' := b.(front := Advance(b.front, b.size));
    assert Indices(b') by {
      assert Indices(b);
    }
    KeepsIndices(q.blocks, ring[0], b');
    KeepsLinks(q, ring[0], b', ring, t);
    KeepsOccupancy(q, Set(q, ring[0], b'), pub, ring, t, 0);
  }

  /** Occupancy says nothing about the front block; `k` is the one block that changed. */
  lemma KeepsOccupancy<T>(q: Queue<T>, q': Queue<T>, pub: bool, ring: seq<nat>, t: nat, k: nat)
    requires forall i :: 0 <= i < |ring| ==> ring[i] < |q.blocks| == |q'.blocks|
    requires Occupancy(q, pub, ring, t) && t < |ring| && k < |ring|
    requires forall i :: 0 <= i < |ring| && i != k ==> q'.blocks[ring[i]] == q.blocks[ring[i]]
    requires k == 0 || (k == t && !IsVacant(q'.blocks[ring[k]]))
    ensures Occupancy(q', pub, ring, t)
  {
    forall i | 0 < i < t
      ensures IsPacked(q'.blocks[ring[i]])
    {
      assert IsPacked(q.blocks[ring[i]]);
    }
    forall i | 0 < i <= t
      ensures !IsVacant(q'.blocks[ring[i]])
    {
      assert i != k ==> !IsVacant(q.blocks[ring[i]]);
    }
    forall i | t < i < |ring| && !(pub && i == t + 1)
      ensures IsVacant(q'.blocks[ring[i]])
    {
      assert IsVacant(q.blocks[ring[i]]);
    }
  }

  /** Storing `frontBlock`: the vacant front block goes to the end of the ring. */
  lemma Rotate<T>(q: Queue<T>, pub: bool, ring: seq<nat>, t: nat)
    requires QueueInv(q, pub, ring, t) && t >= 1 && IsVacant(q.blocks[ring[0]])
    ensures QueueInv(q.(frontBlock := ring[1]), pub, Rotated(ring), t - 1)
  {
    RotateRing(q, ring, t);
    RotateOccupancy(q, pub, ring, t);
  }

  function Rotated(ring: seq<nat>): (r: seq<nat>)
    requires ring != []
  {
    ring[1..] + [ring[0]]
  }

  lemma RotateRing<T>(q: Queue<T>, ring: seq<nat>, t: nat)
    requires RingInv(q, ring, t) && t >= 1
    ensures RingInv(q.(frontBlock := ring[1]), Rotated(ring), t - 1)
  {
    var q', ring' := q.(frontBlock := ring[1]), Rotated(ring);
    RotatedDistinct(ring);
    forall i | 0 <= i < |ring|
      ensures Linked(q', ring', i)
    {
      RotatedAt(ring, i);
      RotatedAt(ring, Advance(i, |ring|));
      assert Linked(q, ring, Advance(i, |ring|));
    }
    RotatedAt(ring, t - 1);
  }

  lemma RotatedAt(ring: seq<nat>, i: nat)
    requires i < |ring|
    ensures Rotated(ring)[i] == ring[Advance(i, |ring|)]
  {
  }

  lemma RotatedDistinct(ring: seq<nat>)
    requires ring != [] && forall i, j :: 0 <= i < j < |ring| ==> ring[i] != ring[j]
    ensures forall i, j :: 0 <= i < j < |ring| ==> Rotated(ring)[i] != Rotated(ring)[j]
  {
    var ring' := Rotated(ring);
    forall i, j | 0 <= i < j < |ring|
      ensures ring'[i] != ring'[j]
    {
      RotatedAt(ring, i);
      RotatedAt(ring, j);
    }
  }

  lemma RotateOccupancy<T>(q: Queue<T>, pub: bool, ring: seq<nat>, t: nat)
    requires forall i :: 0 <= i < |ring| ==> ring[i] < |q.blocks|
    requires Occupancy(q, pub, ring, t) && 1 <= t < |ring| && IsVacant(q.blocks[ring[0]])
    ensures Occupancy(q.(frontBlock := ring[1]), pub, Rotated(ring), t - 1)
  {
    var q', ring', t' := q.(frontBlock := ring[1]), Rotated(ring), t - 1;
    forall i | 0 < i <= t'
      ensures !IsVacant(q'.blocks[ring'[i]])
      ensures i < t' ==> IsPacked(q'.blocks[ring'[i]])
    {
      assert !IsVacant(q.blocks[ring[i + 1]]);
      assert i < t' ==> IsPacked(q.blocks[ring[i + 1]]);
    }
    forall i | t' < i < |ring| && !(pub && i == t' + 1)
      ensures IsVacant(q'.blocks[ring'[i]])
    {
      assert i < |ring| - 1 ==> IsVacant(q.blocks[ring[i + 1]]);
    }
  }

  /** Storing `tail` of the tail block, which has room. */
  lemma SetTail<T>(q: Queue<T>, ring: seq<nat>, t: nat)
    requires QueueInv(q, false, ring, t)
    requires var b := q.blocks[ring[t]]; b.tail < b.size && Advance(b.tail, b.size) != b.localFront
    ensures var b := q.blocks[ring[t]];
      var q' := Set(q, ring[t], b.(tail := Advance(b.tail, b.size)));
      QueueInv(q', false, ring, t) && ConsViewOf(q', ring, t) == ConsViewOf(q, ring, t)
  {
    var b := q.blocks[ring[t]];
    var b' := b.(tail := Advance(b.tail, b.size));
    assert Indices(b') && !IsVacant(b') by {
      assert Indices(b);
    }
    KeepsIndices(q.blocks, ring[t], b');
    KeepsLinks(q, ring[t], b', ring, t);
    KeepsOccupancy(q, Set(q, ring[t], b'), false, ring, t, t);
  }

  /** Storing `tail` of the vacant block after the tail. */
  lemma SetNextTail<T>(q: Queue<T>, ring: seq<nat>, t: nat)
    requires QueueInv(q, false, ring, t) && t + 1 < |ring|
    requires var b := q.blocks[ring[t + 1]]; b.size >= 2 && b.tail == b.localFront < b.size
    ensures var b := q.blocks[ring[t + 1]];
      var q' := Set(q, ring[t + 1], b.(tail := Advance(b.tail, b.size)));
      && IsVacant(b) && QueueInv(q', true, ring, t) && ConsViewOf(q', ring, t) == ConsViewOf(q, ring, t)
      && ProdViewOf(q', ring, t) == ProdViewOf(q, ring, t).(nextTail := Advance(b.tail, b.size))
  {
    var b := q.blocks[ring[t + 1]];
    var b' := b.(tail := Advance(b.tail, b.size));
    var q' := Set(q, ring[t + 1], b');
    assert IsVacant(b);
    assert Indices(b') by {
      assert Indices(b);
    }
    KeepsIndices(q.blocks, ring[t + 1], b');
    KeepsLinks(q, ring[t + 1], b', ring, t);
    forall i | 0 < i < |ring| && i != t + 1
      ensures IsPacked(q'.blocks[ring[i]]) == IsPacked(q.blocks[ring[i]])
      ensures IsVacant(q'.blocks[ring[i]]) == IsVacant(q.blocks[ring[i]])
    {
    }
  }

  /** Storing `tailBlock`: the block after the tail, which holds something, becomes the tail. */
  lemma Publish<T>(q: Queue<T>, ring: seq<nat>, t: nat)
    requires QueueInv(q, true, ring, t) && t + 1 < |ring| && !IsVacant(q.blocks[ring[t + 1]])
    requires t >= 1 ==> IsPacked(q.blocks[ring[t]])
    ensures QueueInv(q.(tailBlock := ring[t + 1]), false, ring, t + 1)
  {
    var q' := q.(tailBlock := ring[t + 1]);
    assert RingInv(q', ring, t + 1) by {
      forall i | 0 <= i < |ring|
        ensures Linked(q', ring, i)
      {
        assert Linked(q, ring, i);
      }
    }
    PublishOccupancy(q, ring, t);
  }

  lemma PublishOccupancy<T>(q: Queue<T>, ring: seq<nat>, t: nat)
    requires forall i :: 0 <= i < |ring| ==> ring[i] < |q.blocks|
    requires Occupancy(q, true, ring, t) && t + 1 < |ring| && !IsVacant(q.blocks[ring[t + 1]])
    requires t >= 1 ==> IsPacked(q.blocks[ring[t]])
    ensures Occupancy(q.(tailBlock := ring[t + 1]), false, ring, t + 1)
  {
    var q' := q.(tailBlock := ring[t + 1]);
    forall i | 0 <= i < |ring|
      ensures IsPacked(q'.blocks[ring[i]]) == IsPacked(q.blocks[ring[i]])
      ensures IsVacant(q'.blocks[ring[i]]) == IsVacant(q.blocks[ring[i]])
    {
    }
  }

  /** The ring after a new block was linked behind the tail block. */
  function Extend(ring: seq<nat>, t: nat): seq<nat>
    requires t < |ring|
  {
    ring[..t + 1] + [|ring|] + ring[t + 1..]
  }

  function LinkBlock<T>(q: Queue<T>, tb: nat, made: Block<T>): Queue<T>
    requires tb < |q.blocks|
  {
    q.(blocks := q.blocks[tb := q.blocks[tb].(next := |q.blocks|)] + [made])
  }

  /** Storing `next` of the tail block: the new block enters the ring. */
  lemma Link<T>(q: Queue<T>, made: Block<T>, ring: seq<nat>, t: nat)
    requires QueueInv(q, false, ring, t) && Indices(made) && !IsVacant(made)
    requires made.next == q.blocks[ring[t]].next
    ensures QueueInv(LinkBlock(q, ring[t], made), true, Extend(ring, t), t)
    ensures ConsViewOf(LinkBlock(q, ring[t], made), Extend(ring, t), t) == ConsViewOf(q, ring, t)
  {
    LinkRing(q, made, ring, t);
    LinkIndices(q, made, ring[t]);
    LinkOccupancy(q, made, ring, t);
  }

  lemma ExtendAt(ring: seq<nat>, t: nat, i: nat)
    requires t < |ring| && i <= |ring|
    ensures |Extend(ring, t)| == |ring| + 1
    ensures Extend(ring, t)[i] == if i <= t then ring[i] else if i == t + 1 then |ring| else ring[i - 1]
  {
  }

  lemma LinkRing<T>(q: Queue<T>, made: Block<T>, ring: seq<nat>, t: nat)
    requires RingInv(q, ring, t) && made.next == q.blocks[ring[t]].next
    ensures RingInv(LinkBlock(q, ring[t], made), Extend(ring, t), t)
  {
    hide Linked, Extend, LinkBlock;
    var ring', q' := Extend(ring, t), LinkBlock(q, ring[t], made);
    LinkedBlocks(q, ring[t], made);
    ExtendAt(ring, t, 0);
    forall i | 0 <= i <= |ring|
      ensures ring'[i] < |q'.blocks| && Linked(q', ring', i)
    {
      ExtendAt(ring, t, i);
      LinkAt(q, made, ring, t, i);
    }
    ExtendDistinct(ring, t);
    ExtendAt(ring, t, t);
  }

  lemma LinkedBlocks<T>(q: Queue<T>, tb: nat, made: Block<T>)
    requires tb < |q.blocks|
    ensures var q' := LinkBlock(q, tb, made);
      && |q'.blocks| == |q.blocks| + 1 && q'.frontBlock == q.frontBlock && q'.tailBlock == q.tailBlock
      && q'.blocks[|q.blocks|] == made && q'.blocks[tb].next == |q.blocks|
      && forall k {:trigger q'.blocks[k]} :: 0 <= k < |q.blocks| && k != tb ==> q'.blocks[k] == q.blocks[k]
  {
  }

  lemma LinkAt<T>(q: Queue<T>, made: Block<T>, ring: seq<nat>, t: nat, i: nat)
    requires RingInv(q, ring, t) && made.next == q.blocks[ring[t]].next && i <= |ring|
    ensures |Extend(ring, t)| == |ring| + 1 && Extend(ring, t)[i] < |LinkBlock(q, ring[t], made).blocks|
    ensures Linked(LinkBlock(q, ring[t], made), Extend(ring, t), i)
  {
    hide Extend, LinkBlock;
    LinkedBlocks(q, ring[t], made);
    ExtendAt(ring, t, i);
    ExtendAt(ring, t, Advance(i, |ring| + 1));
    if i < t {
      assert Linked(q, ring, i);
    } else if i > t {
      assert Linked(q, ring, i - 1);
    }
  }

  lemma ExtendDistinct(ring: seq<nat>, t: nat)
    requires t < |ring| && (forall i :: 0 <= i < |ring| ==> ring[i] < |ring|)
    requires forall i, j :: 0 <= i < j < |ring| ==> ring[i] != ring[j]
    ensures forall i, j :: 0 <= i < j < |Extend(ring, t)| ==> Extend(ring, t)[i] != Extend(ring, t)[j]
  {
    hide Extend;
    var r := Extend(ring, t);
    ExtendAt(ring, t, 0);
    forall i, j | 0 <= i < j < |r|
      ensures r[i] != r[j]
    {
      ExtendAt(ring, t, i);
      ExtendAt(ring, t, j);
    }
  }

  lemma LinkIndices<T>(q: Queue<T>, made: Block<T>, tb: nat)
    requires AllIndices(q.blocks) && Indices(made) && tb < |q.blocks|
    ensures AllIndices(LinkBlock(q, tb, made).blocks)
  {
    var q' := LinkBlock(q, tb, made);
    forall i | 0 <= i <= |q.blocks|
      ensures Indices(q'.blocks[i])
    {
      assert i < |q.blocks| ==> Indices(q.blocks[i]);
    }
  }

  lemma LinkOccupancy<T>(q: Queue<T>, made: Block<T>, ring: seq<nat>, t: nat)
    requires RingInv(q, ring, t) && Occupancy(q, false, ring, t)
    requires RingInv(LinkBlock(q, ring[t], made), Extend(ring, t), t)
    ensures Occupancy(LinkBlock(q, ring[t], made), true, Extend(ring, t), t)
  {
    var ring', q' := Extend(ring, t), LinkBlock(q, ring[t], made);
    forall i | 0 < i <= t
      ensures !IsVacant(q'.blocks[ring'[i]])
      ensures i < t ==> IsPacked(q'.blocks[ring'[i]])
    {
      assert !IsVacant(q.blocks[ring[i]]);
      assert i < t ==> IsPacked(q.blocks[ring[i]]);
    }
    forall i | t + 1 < i <= |ring|
      ensures IsVacant(q'.blocks[ring'[i]])
    {
      assert IsVacant(q.blocks[ring[i - 1]]);
    }
  }
}
