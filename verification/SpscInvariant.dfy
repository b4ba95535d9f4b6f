/**
 The inductive invariant of the queue. `ring` lists the block addresses in `next` order
 starting at the front block; `t` is the position of the tail block in it. Both are
 parameters of the invariant rather than state of the program.
 */
module SpscInvariant {
  import opened Sequences
  import opened RingArithmetic
  import opened SpscQueue

  // ----- one block -----

  /** Indices in range; a stale `localFront` lies behind `front`, a stale `localTail`
      between `front` and `tail`. */
  predicate Indices<T>(b: Block<T>) {
    && b.front < b.size && b.tail < b.size && b.localFront < b.size && b.localTail < b.size
    && Dist(b.localFront, b.front, b.size) + Dist(b.front, b.tail, b.size) < b.size
    && Dist(b.front, b.localTail, b.size) <= Dist(b.front, b.tail, b.size)
  }

  /** Exactly the slots from `front` up to `tail` hold objects. */
  ghost predicate SlotsOk<T>(b: Block<T>) {
    && b.front < b.size == |b.data| && b.tail < b.size
    && forall k :: 0 <= k < b.size ==>
         (b.data[k].Full? <==> Dist(b.front, k, b.size) < Dist(b.front, b.tail, b.size))
  }

  predicate IsVacant<T>(b: Block<T>) {
    b.front == b.tail
  }

  predicate IsPacked<T>(b: Block<T>) {
    b.tail < b.size && Advance(b.tail, b.size) == b.front
  }

  // ----- the ring of blocks -----

  predicate Linked<T>(q: Queue<T>, ring: seq<nat>, i: nat)
    requires i < |ring| && ring[i] < |q.blocks|
  {
    q.blocks[ring[i]].next == ring[Advance(i, |ring|)]
  }

  ghost predicate RingInv<T>(q: Queue<T>, ring: seq<nat>, t: nat) {
    && |ring| == |q.blocks| && t < |ring|
    && (forall i :: 0 <= i < |ring| ==> ring[i] < |q.blocks|)
    && (forall i, j :: 0 <= i < j < |ring| ==> ring[i] != ring[j])
    && (forall i :: 0 <= i < |ring| ==> Linked(q, ring, i))
    && ring[0] == q.frontBlock && ring[t] == q.tailBlock
  }

  /** Blocks strictly between front and tail are packed, the tail block (when it is not the
      front block too) holds something, blocks after the tail are vacant. The block right
      after the tail may already hold the element that is about to be published. */
  ghost predicate Occupancy<T>(q: Queue<T>, publishing: bool, ring: seq<nat>, t: nat)
    requires forall i :: 0 <= i < |ring| ==> ring[i] < |q.blocks|
  {
    && (forall i {:trigger IsPacked(q.blocks[ring[i]])} :: 0 < i < t < |ring| ==> IsPacked(q.blocks[ring[i]]))
    && (forall i {:trigger IsVacant(q.blocks[ring[i]])} :: 0 < i <= t < |ring| ==> !IsVacant(q.blocks[ring[i]]))
    && (forall i {:trigger IsVacant(q.blocks[ring[i]])} ::
          t < i < |ring| && !(publishing && i == t + 1) ==> IsVacant(q.blocks[ring[i]]))
  }

  // ----- program counters -----

  /** What the consumer's locals are related to. The tail of the front block and the next
      block are stable only once the tail block is known to be elsewhere. */
  datatype ConsView = ConsView(
    frontBlock: nat, front: nat, localTail: nat, size: nat,
    more: bool, tail: nat, next: nat, nextFront: nat, nextLocalTail: nat)

  function ConsViewOf<T>(q: Queue<T>, ring: seq<nat>, t: nat): ConsView
    requires t < |ring| && forall i :: 0 <= i < |ring| ==> ring[i] < |q.blocks|
  {
    var b := q.blocks[ring[0]];
    if t == 0 then ConsView(ring[0], b.front, b.localTail, b.size, false, 0, 0, 0, 0)
    else
      var c := q.blocks[ring[1]];
      ConsView(ring[0], b.front, b.localTail, b.size, true, b.tail, ring[1], c.front, c.localTail)
  }

  predicate ConsInv<T>(c: Consumer<T>, v: ConsView) {
    match c
    case CIdle => true
    case CReturned(_) => true
    case LoadFrontBlock => true
    case LoadFront(fb) => fb == v.frontBlock
    case LoadTail(fb, bf) => fb == v.frontBlock && bf == v.front
    case LoadTailBlock(fb) => fb == v.frontBlock
    case ReloadFrontBlock => v.more
    case ReloadTail(fb) => v.more && fb == v.frontBlock
    case ReloadFront(fb, bt) => v.more && fb == v.frontBlock && bt == v.tail == v.localTail
    case LoadNext(fb) => v.more && fb == v.frontBlock && v.front == v.tail
    case LoadNextFront(nb) => v.more && nb == v.next && v.front == v.tail
    case LoadNextTail(nb, nf) => v.more && nb == v.next && v.front == v.tail && nf == v.nextFront
    case StoreFrontBlock(nb, nf) =>
      v.more && nb == v.next && v.front == v.tail && nf == v.nextFront && nf != v.nextLocalTail
    case ReadElement(fb, bf) => fb == v.frontBlock && bf == v.front && bf != v.localTail
    case StoreFront(fb, bf, _) =>
      fb == v.frontBlock && v.front < v.size && bf == Advance(v.front, v.size) && v.front != v.localTail
  }

  /** What the producer's locals are related to. `leaving` holds when the producer has
      found the tail block full and the consumer, unless it reads that very block, has
      left it so. */
  datatype ProdView = ProdView(
    tailBlock: nat, tail: nat, localFront: nat, size: nat, leaving: bool, nextBlock: nat,
    room: bool, nextFront: nat, nextTail: nat, nextLocalFront: nat)

  function ProdViewOf<T>(q: Queue<T>, ring: seq<nat>, t: nat): ProdView
    requires t < |ring| && forall i :: 0 <= i < |ring| ==> ring[i] < |q.blocks|
  {
    var b := q.blocks[ring[t]];
    var leaving := t >= 1 ==> IsPacked(b);
    if t + 1 == |ring| then ProdView(ring[t], b.tail, b.localFront, b.size, leaving, b.next, false, 0, 0, 0)
    else
      var c := q.blocks[ring[t + 1]];
      ProdView(ring[t], b.tail, b.localFront, b.size, leaving, b.next, true, c.front, c.tail, c.localFront)
  }

  predicate ProdInv<T>(p: Producer<T>, v: ProdView) {
    match p
    case PIdle => true
    case PReturned(_) => true
    case PLoadTailBlock(_, _) => true
    case PLoadTail(_, _, tb) => tb == v.tailBlock
    case PLoadFront(_, _, tb, bt, nt) =>
      tb == v.tailBlock && bt == v.tail < v.size && nt == Advance(bt, v.size)
    case PWrite(_, tb, bt, nt) =>
      tb == v.tailBlock && bt == v.tail < v.size && nt == Advance(bt, v.size) && nt != v.localFront
    case PStoreTail(_, tb, nt) =>
      tb == v.tailBlock && v.tail < v.size && nt == Advance(v.tail, v.size) && nt != v.localFront
    case PLoadNext(_, _, tb) => tb == v.tailBlock && v.leaving
    case PLoadFrontBlock(_, _, tb, next) => tb == v.tailBlock && v.leaving && next == v.nextBlock
    case PReloadNext(_, tb) => tb == v.tailBlock && v.leaving && v.room
    case PNextFront(_, nb) => v.leaving && v.room && nb == v.nextBlock
    case PNextTail(_, nb, nf) => v.leaving && v.room && nb == v.nextBlock && nf == v.nextFront
    case PNextWrite(_, nb, nt) =>
      v.leaving && v.room && nb == v.nextBlock && nt == v.nextTail == v.nextLocalFront
    case PNextStoreTail(_, nb, nt) =>
      v.leaving && v.room && nb == v.nextBlock && nt == v.nextTail == v.nextLocalFront
    case PAlloc(_, tb) => tb == v.tailBlock && v.leaving
    case PLink(x, tb, made) =>
      && tb == v.tailBlock && v.leaving && made.next == v.nextBlock
      && Indices(made) && made.size >= 2 && made.front == 0 && made.tail == 1
    case PPublish(_, nb) =>
      v.leaving && v.room && nb == v.nextBlock && v.nextFront != v.nextTail
  }

  // ----- block sizes -----

  predicate MayAlloc<T>(p: Producer<T>) {
    match p
    case PLoadTailBlock(_, alloc) => alloc
    case PLoadTail(_, alloc, _) => alloc
    case PLoadFront(_, alloc, _, _, _) => alloc
    case PLoadNext(_, alloc, _) => alloc
    case PLoadFrontBlock(_, alloc, _, _) => alloc
    case PAlloc(_, _) => true
    case PLink(_, _, _) => true
    case _ => false
  }

  ghost predicate Wide<T>(q: Queue<T>) {
    q.largestBlockSize >= 1 && forall i :: 0 <= i < |q.blocks| ==> q.blocks[i].size >= 2
  }

  /** Every block has two slots, unless the one block of a queue that only `try_enqueue` uses. */
  ghost predicate SizesOk<T>(s: State<T>) {
    s.maxBlock >= 2 && (Wide(s.q) || (|s.q.blocks| == 1 && !MayAlloc(s.prod)))
  }

  // ----- the whole state -----

  ghost predicate AllIndices<T>(blocks: seq<Block<T>>) {
    forall i {:trigger Indices(blocks[i])} :: 0 <= i < |blocks| ==> Indices(blocks[i])
  }

  /** The shared indices and pointers. */
  ghost predicate QueueInv<T>(q: Queue<T>, publishing: bool, ring: seq<nat>, t: nat) {
    RingInv(q, ring, t) && AllIndices(q.blocks) && Occupancy(q, publishing, ring, t)
  }

  /** Everything about indices and pointers, the threads' locals included. */
  ghost predicate IndexInv<T>(s: State<T>, ring: seq<nat>, t: nat) {
    && QueueInv(s.q, s.prod.PPublish?, ring, t)
    && SizesOk(s)
    && ConsInv(s.cons, ConsViewOf(s.q, ring, t))
    && ProdInv(s.prod, ProdViewOf(s.q, ring, t))
  }

  ghost predicate AllSlots<T>(s: State<T>) {
    forall i {:trigger SlotsOk(Settled(s, i))} :: 0 <= i < |s.q.blocks| ==> SlotsOk(Settled(s, i))
  }

  ghost predicate Constructed<T>(s: State<T>, i: nat, x: T) {
    i < |s.q.blocks| && var b := s.q.blocks[i]; b.tail < |b.data| && b.data[b.tail] == Full(x)
  }

  ghost predicate MovedOut<T>(s: State<T>, i: nat) {
    i < |s.q.blocks| && var b := s.q.blocks[i]; b.front < |b.data| && b.data[b.front].Empty?
  }

  ghost predicate HoldsOnly<T>(b: Block<T>, x: T) {
    SlotsOk(b) && BlockItems(b) == [x]
  }

  /** Elements between memory and the queue. */
  ghost predicate InFlight<T>(s: State<T>) {
    && (s.cons.StoreFront? ==> MovedOut(s, s.cons.fb))
    && (s.prod.PStoreTail? ==> Constructed(s, s.prod.tb, s.prod.x))
    && (s.prod.PNextStoreTail? ==> Constructed(s, s.prod.nb, s.prod.x))
    && (s.prod.PLink? ==> HoldsOnly(s.prod.made, s.prod.x))
    && (s.prod.PPublish? ==> s.prod.nb < |s.q.blocks| && HoldsOnly(Settled(s, s.prod.nb), s.prod.x))
  }

  function Parts<T>(s: State<T>, ring: seq<nat>, t: nat): (r: seq<seq<T>>)
    requires t < |ring| && forall i :: 0 <= i < |ring| ==> ring[i] < |s.q.blocks|
    ensures |r| == t + 1
  {
    seq(t + 1, i requires 0 <= i <= t => BlockItems(Settled(s, ring[i])))
  }

  /** Nothing is lost, duplicated or reordered. */
  ghost predicate History<T>(s: State<T>, ring: seq<nat>, t: nat)
    requires t < |ring| && forall i :: 0 <= i < |ring| ==> ring[i] < |s.q.blocks|
  {
    s.enqueued == s.dequeued + Flatten(Parts(s, ring, t))
  }

  ghost predicate Inv<T>(s: State<T>, ring: seq<nat>, t: nat) {
    IndexInv(s, ring, t) && AllSlots(s) && InFlight(s) && History(s, ring, t)
  }

  // ----- lemmas about item sequences -----

  /** Slots outside the `n` slots from `f` do not matter. */
  lemma {:induction false} ItemsFrame<T>(d: seq<Slot<T>>, e: seq<Slot<T>>, f: nat, n: nat)
    requires |d| == |e| && f < |d| && n <= |d|
    requires forall k :: 0 <= k < |d| && Dist(f, k, |d|) < n ==> d[k] == e[k]
    ensures Items(d, f, n) == Items(e, f, n)
    decreases n
  {
    if n > 0 {
      assert Dist(f, f, |d|) == 0;
      var g := Advance(f, |d|);
      forall k | 0 <= k < |d| && Dist(g, k, |d|) < n - 1
        ensures d[k] == e[k]
      {
        assert Dist(f, k, |d|) <= Dist(g, k, |d|) + 1;
      }
      ItemsFrame(d, e, g, n - 1);
    }
  }

  /** Filling the slot after `n` slots appends its element. */
  lemma {:induction false} ItemsPush<T>(d: seq<Slot<T>>, f: nat, n: nat, p: nat, x: T)
    requires f < |d| && p < |d| && Dist(f, p, |d|) == n
    ensures Items(d[p := Full(x)], f, n + 1) == Items(d, f, n) + [x]
    decreases n
  {
    var e := d[p := Full(x)];
    if n == 0 {
      assert Items(e, f, 1) == [x] + Items(e, Advance(f, |e|), 0);
    } else {
      var g := Advance(f, |d|);
      assert Dist(g, p, |d|) == n - 1;
      ItemsPush(d, g, n - 1, p, x);
      assert f != p;
      assert Items(e, f, n + 1) == (if d[f].Full? then [d[f].value] else []) + Items(e, g, n);
    }
  }

  /** Emptying the first slot removes the first element. */
  lemma ItemsPop<T>(d: seq<Slot<T>>, f: nat, n: nat)
    requires f < |d| && 1 <= n < |d| && d[f].Full?
    ensures Items(d, f, n) == [d[f].value] + Items(d[f := Empty], Advance(f, |d|), n - 1)
  {
    var g := Advance(f, |d|);
    forall k | 0 <= k < |d| && Dist(g, k, |d|) < n - 1
      ensures d[k] == d[f := Empty][k]
    {
      assert k != f;
    }
    ItemsFrame(d, d[f := Empty], g, n - 1);
  }

  /** As many elements as occupied slots. */
  lemma {:induction false} ItemsLength<T>(d: seq<Slot<T>>, f: nat, n: nat)
    requires f < |d| && n <= |d|
    requires forall k :: 0 <= k < |d| && Dist(f, k, |d|) < n ==> d[k].Full?
    ensures |Items(d, f, n)| == n
    decreases n
  {
    if n > 0 {
      var g := Advance(f, |d|);
      assert Dist(f, f, |d|) == 0;
      forall k | 0 <= k < |d| && Dist(g, k, |d|) < n - 1
        ensures d[k].Full?
      {
        assert Dist(f, k, |d|) <= Dist(g, k, |d|) + 1;
      }
      ItemsLength(d, g, n - 1);
    }
  }

  lemma BlockLength<T>(b: Block<T>)
    requires SlotsOk(b)
    ensures |BlockItems(b)| == Dist(b.front, b.tail, b.size)
  {
    ItemsLength(b.data, b.front, Dist(b.front, b.tail, b.size));
  }

  function Pushed<T>(b: Block<T>, x: T): Block<T>
    requires b.tail < |b.data| == b.size
  {
    b.(tail := Advance(b.tail, b.size), data := b.data[b.tail := Full(x)])
  }

  /** Constructing an element at `tail` and advancing `tail`. */
  lemma PushBlock<T>(b: Block<T>, x: T)
    requires SlotsOk(b) && Advance(b.tail, b.size) != b.front
    ensures SlotsOk(Pushed(b, x)) && BlockItems(Pushed(b, x)) == BlockItems(b) + [x]
  {
    var n := Dist(b.front, b.tail, b.size);
    assert Dist(b.front, Pushed(b, x).tail, b.size) == n + 1;
    ItemsPush(b.data, b.front, n, b.tail, x);
  }

  function Popped<T>(b: Block<T>): Block<T>
    requires b.front < |b.data| == b.size
  {
    b.(front := Advance(b.front, b.size), data := b.data[b.front := Empty])
  }

  /** Destroying the element at `front` and advancing `front`. */
  lemma PopBlock<T>(b: Block<T>)
    requires SlotsOk(b) && b.front != b.tail
    ensures SlotsOk(Popped(b)) && b.data[b.front].Full?
    ensures BlockItems(b) == [b.data[b.front].value] + BlockItems(Popped(b))
  {
    var b' := Popped(b);
    var n := Dist(b.front, b.tail, b.size);
    assert n >= 1 && Dist(b.front, b.front, b.size) == 0;
    assert Dist(b'.front, b.tail, b.size) == n - 1;
    ItemsPop(b.data, b.front, n);
    forall k | 0 <= k < b.size
      ensures b'.data[k].Full? <==> Dist(b'.front, k, b.size) < n - 1
    {
      if k == b.front {
        assert Dist(b'.front, k, b.size) == b.size - 1;
      } else {
        assert Dist(b.front, k, b.size) == Dist(b'.front, k, b.size) + 1;
      }
    }
  }
}
