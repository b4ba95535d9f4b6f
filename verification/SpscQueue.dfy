/**
 The single-producer/single-consumer queue of
 Baseline/include/messageQueue/readerwriterqueue.h as a two-process step machine.

 Every step performs one access to an atomic field or to one element slot, on
 sequentially consistent memory. The shadow copies `localFront` (producer only) and
 `localTail` (consumer only) are read and written together with the atomic access next
 to them. A step that the C++ program has no defined meaning for (a wild block pointer,
 moving out of a slot that holds no object, constructing over a live object, a failing
 `assert`) yields `Fault`.
 */
module SpscQueue {
  import opened RingArithmetic

  /** One element slot of a block: raw memory or a live object. */
  datatype Slot<T> = Empty | Full(value: T)

  datatype Block<T> = Block(
    front: nat, localTail: nat,
    tail: nat, localFront: nat,
    next: nat, size: nat, data: seq<Slot<T>>)

  /** Blocks are addressed by their position in `blocks`; they are never removed. */
  datatype Queue<T> = Queue(blocks: seq<Block<T>>, frontBlock: nat, tailBlock: nat, largestBlockSize: nat)

  /** Program counter and locals of `try_dequeue`. */
  datatype Consumer<T> =
    | CIdle
    | LoadFrontBlock
    | LoadFront(fb: nat)
    | LoadTail(fb: nat, bf: nat)
    | LoadTailBlock(fb: nat)
    | ReloadFrontBlock
    | ReloadTail(fb: nat)
    | ReloadFront(fb: nat, bt: nat)
    | LoadNext(fb: nat)
    | LoadNextFront(nb: nat)
    | LoadNextTail(nb: nat, nf: nat)
    | StoreFrontBlock(nb: nat, nf: nat)
    | ReadElement(fb: nat, bf: nat)
    | StoreFront(fb: nat, bf: nat, result: T)
    | CReturned(ok: bool)

  /** Program counter and locals of `inner_enqueue`; `alloc` is the allocation mode. */
  datatype Producer<T> =
    | PIdle
    | PLoadTailBlock(x: T, alloc: bool)
    | PLoadTail(x: T, alloc: bool, tb: nat)
    | PLoadFront(x: T, alloc: bool, tb: nat, bt: nat, nt: nat)
    | PWrite(x: T, tb: nat, bt: nat, nt: nat)
    | PStoreTail(x: T, tb: nat, nt: nat)
    | PLoadNext(x: T, alloc: bool, tb: nat)
    | PLoadFrontBlock(x: T, alloc: bool, tb: nat, next: nat)
    | PReloadNext(x: T, tb: nat)
    | PNextFront(x: T, nb: nat)
    | PNextTail(x: T, nb: nat, nf: nat)
    | PNextWrite(x: T, nb: nat, nt: nat)
    | PNextStoreTail(x: T, nb: nat, nt: nat)
    | PAlloc(x: T, tb: nat)
    | PLink(x: T, tb: nat, made: Block<T>)
    | PPublish(x: T, nb: nat)
    | PReturned(ok: bool)

  /** `enqueued` and `dequeued` record the elements of the calls that returned true. */
  datatype State<T> = State(
    q: Queue<T>, maxBlock: nat, prod: Producer<T>, cons: Consumer<T>,
    enqueued: seq<T>, dequeued: seq<T>)

  datatype Outcome<+S> = Fault | Ok(state: S)

  /** One scheduling decision. An idle thread starts a call: `x` and `alloc` choose the
      next enqueue call, `memory` whether `malloc` succeeds. */
  datatype Action<T> = Consume | Produce(x: T, alloc: bool, memory: bool)

  // ----- construction -----

  function EmptyBlock<T>(size: nat, next: nat): (b: Block<T>) {
    Block(0, 0, 0, 0, next, size, seq(size, i => Empty))
  }

  /** Number and size of the blocks that the constructor allocates for `size` elements. */
  function InitialBlocks(size: nat, maxBlock: nat): (r: (nat, nat))
    requires maxBlock >= 2
    ensures r.0 >= 1 && r.1 >= 1
  {
    var block := CeilToPow2(size + 1);
    if block > maxBlock * 2
    then
      AtLeastOneBlock(size, maxBlock);
      ((size + maxBlock * 2 - 3) / (maxBlock - 1), maxBlock)
    else (1, block)
  }

  lemma AtLeastOneBlock(size: nat, maxBlock: nat)
    requires maxBlock >= 2
    ensures (size + maxBlock * 2 - 3) / (maxBlock - 1) >= 1
  {
    var a, m := size + maxBlock * 2 - 3, maxBlock - 1;
    assert a == (a / m) * m + a % m;
  }

  function Construct<T>(size: nat, maxBlock: nat): (s: State<T>)
    requires maxBlock >= 2
  {
    var (count, block) := InitialBlocks(size, maxBlock);
    State(
      Queue(seq(count, i requires 0 <= i < count => EmptyBlock(block, Advance(i, count))), 0, 0, block),
      maxBlock, PIdle, CIdle, [], [])
  }

  // ----- steps -----

  function SetBlock<T>(s: State<T>, i: nat, b: Block<T>): State<T>
    requires i < |s.q.blocks|
  {
    s.(q := s.q.(blocks := s.q.blocks[i := b]))
  }

  function ConsumerStep<T>(s: State<T>): Outcome<State<T>> {
    var bs := s.q.blocks;
    match s.cons
    case CIdle => Ok(s.(cons := LoadFrontBlock))
    case CReturned(_) => Ok(s.(cons := LoadFrontBlock))
    case LoadFrontBlock => Ok(s.(cons := LoadFront(s.q.frontBlock)))
    case LoadFront(fb) =>
      if fb >= |bs| then Fault else
      var bf := bs[fb].front;
      if bf != bs[fb].localTail
      then Ok(s.(cons := ReadElement(fb, bf)))
      else Ok(s.(cons := LoadTail(fb, bf)))
    case LoadTail(fb, bf) =>
      if fb >= |bs| then Fault else
      var s' := SetBlock(s, fb, bs[fb].(localTail := bs[fb].tail));
      if bf != bs[fb].tail
      then Ok(s'.(cons := ReadElement(fb, bf)))
      else Ok(s'.(cons := LoadTailBlock(fb)))
    case LoadTailBlock(fb) =>
      if fb != s.q.tailBlock
      then Ok(s.(cons := ReloadFrontBlock))
      else Ok(s.(cons := CReturned(false)))
    case ReloadFrontBlock => Ok(s.(cons := ReloadTail(s.q.frontBlock)))
    case ReloadTail(fb) =>
      if fb >= |bs| then Fault else
      Ok(SetBlock(s, fb, bs[fb].(localTail := bs[fb].tail)).(cons := ReloadFront(fb, bs[fb].tail)))
    case ReloadFront(fb, bt) =>
      if fb >= |bs| then Fault else
      if bs[fb].front != bt
      then Ok(s.(cons := ReadElement(fb, bs[fb].front)))
      else Ok(s.(cons := LoadNext(fb)))
    case LoadNext(fb) =>
      if fb >= |bs| then Fault else
      Ok(s.(cons := LoadNextFront(bs[fb].next)))
    case LoadNextFront(nb) =>
      if nb >= |bs| then Fault else
      Ok(s.(cons := LoadNextTail(nb, bs[nb].front)))
    case LoadNextTail(nb, nf) =>
      // assert(nextBlockFront != nextBlockTail)
      if nb >= |bs| || nf == bs[nb].tail then Fault else
      Ok(SetBlock(s, nb, bs[nb].(localTail := bs[nb].tail)).(cons := StoreFrontBlock(nb, nf)))
    case StoreFrontBlock(nb, nf) =>
      Ok(s.(q := s.q.(frontBlock := nb), cons := ReadElement(nb, nf)))
    case ReadElement(fb, bf) =>
      // move the element out, then destroy it
      if fb >= |bs| || bf >= |bs[fb].data| || bf >= bs[fb].size || bs[fb].data[bf].Empty? then Fault else
      Ok(SetBlock(s, fb, bs[fb].(data := bs[fb].data[bf := Empty]))
         .(cons := StoreFront(fb, Advance(bf, bs[fb].size), bs[fb].data[bf].value)))
    case StoreFront(fb, bf, result) =>
      if fb >= |bs| then Fault else
      Ok(SetBlock(s, fb, bs[fb].(front := bf))
         .(cons := CReturned(true), dequeued := s.dequeued + [result]))
  }

  function ProducerStep<T>(s: State<T>, y: T, mode: bool, memory: bool): Outcome<State<T>> {
    var bs := s.q.blocks;
    match s.prod
    case PIdle => Ok(s.(prod := PLoadTailBlock(y, mode)))
    case PReturned(_) => Ok(s.(prod := PLoadTailBlock(y, mode)))
    case PLoadTailBlock(x, alloc) => Ok(s.(prod := PLoadTail(x, alloc, s.q.tailBlock)))
    case PLoadTail(x, alloc, tb) =>
      if tb >= |bs| || bs[tb].tail >= bs[tb].size then Fault else
      var nt := Advance(bs[tb].tail, bs[tb].size);
      if nt != bs[tb].localFront
      then Ok(s.(prod := PWrite(x, tb, bs[tb].tail, nt)))
      else Ok(s.(prod := PLoadFront(x, alloc, tb, bs[tb].tail, nt)))
    case PLoadFront(x, alloc, tb, bt, nt) =>
      if tb >= |bs| then Fault else
      var s' := SetBlock(s, tb, bs[tb].(localFront := bs[tb].front));
      if nt != bs[tb].front
      then Ok(s'.(prod := PWrite(x, tb, bt, nt)))
      else Ok(s'.(prod := PLoadNext(x, alloc, tb)))
    case PWrite(x, tb, bt, nt) =>
      // placement new: the slot must hold no live object
      if tb >= |bs| || bt >= |bs[tb].data| || bs[tb].data[bt].Full? then Fault else
      Ok(SetBlock(s, tb, bs[tb].(data := bs[tb].data[bt := Full(x)])).(prod := PStoreTail(x, tb, nt)))
    case PStoreTail(x, tb, nt) =>
      if tb >= |bs| then Fault else
      Ok(SetBlock(s, tb, bs[tb].(tail := nt)).(prod := PReturned(true), enqueued := s.enqueued + [x]))
    case PLoadNext(x, alloc, tb) =>
      if tb >= |bs| then Fault else
      Ok(s.(prod := PLoadFrontBlock(x, alloc, tb, bs[tb].next)))
    case PLoadFrontBlock(x, alloc, tb, next) =>
      if next != s.q.frontBlock then Ok(s.(prod := PReloadNext(x, tb)))
      else if alloc then Ok(s.(prod := PAlloc(x, tb)))
      else Ok(s.(prod := PReturned(false)))
    case PReloadNext(x, tb) =>
      if tb >= |bs| then Fault else
      Ok(s.(prod := PNextFront(x, bs[tb].next)))
    case PNextFront(x, nb) =>
      if nb >= |bs| then Fault else
      Ok(SetBlock(s, nb, bs[nb].(localFront := bs[nb].front)).(prod := PNextTail(x, nb, bs[nb].front)))
    case PNextTail(x, nb, nf) =>
      // assert(nextBlockFront == nextBlockTail)
      if nb >= |bs| || nf != bs[nb].tail then Fault else
      Ok(SetBlock(s, nb, bs[nb].(localFront := nf)).(prod := PNextWrite(x, nb, bs[nb].tail)))
    case PNextWrite(x, nb, nt) =>
      if nb >= |bs| || nt >= |bs[nb].data| || bs[nb].data[nt].Full? then Fault else
      Ok(SetBlock(s, nb, bs[nb].(data := bs[nb].data[nt := Full(x)])).(prod := PNextStoreTail(x, nb, nt)))
    case PNextStoreTail(x, nb, nt) =>
      if nb >= |bs| || nt >= bs[nb].size then Fault else
      Ok(SetBlock(s, nb, bs[nb].(tail := Advance(nt, bs[nb].size))).(prod := PPublish(x, nb)))
    case PAlloc(x, tb) =>
      if tb >= |bs| then Fault else
      if !memory then Ok(s.(prod := PReturned(false))) else
      var size := if s.q.largestBlockSize >= s.maxBlock then s.q.largestBlockSize else s.q.largestBlockSize * 2;
      if size == 0 then Fault else
      var made: Block := EmptyBlock(size, bs[tb].next);
      Ok(s.(q := s.q.(largestBlockSize := size),
            prod := PLink(x, tb, made.(tail := 1, localTail := 1, data := made.data[0 := Full(x)]))))
    case PLink(x, tb, made) =>
      // the new block becomes reachable when `next` of the tail block is stored
      if tb >= |bs| then Fault else
      Ok(s.(q := s.q.(blocks := bs[tb := bs[tb].(next := |bs|)] + [made]),
            prod := PPublish(x, |bs|)))
    case PPublish(x, nb) =>
      Ok(s.(q := s.q.(tailBlock := nb), prod := PReturned(true), enqueued := s.enqueued + [x]))
  }

  function Step<T>(s: State<T>, a: Action<T>): Outcome<State<T>> {
    match a
    case Consume => ConsumerStep(s)
    case Produce(x, alloc, memory) => ProducerStep(s, x, alloc, memory)
  }

  /** The state after the schedule `as`. */
  function Exec<T>(s: State<T>, schedule: seq<Action<T>>): Outcome<State<T>> {
    if schedule == [] then Ok(s) else
    match Exec(s, schedule[..|schedule| - 1])
    case Fault => Fault
    case Ok(s') => Step(s', schedule[|schedule| - 1])
  }

  // ----- the elements held by the queue -----

  /** The live objects among `n` slots from index `f`, in order. */
  function Items<T>(data: seq<Slot<T>>, f: nat, n: nat): seq<T>
    requires f < |data|
    decreases n
  {
    if n == 0 then []
    else (if data[f].Full? then [data[f].value] else []) + Items(data, Advance(f, |data|), n - 1)
  }

  /** A block as both threads' finished calls left it: an element that the consumer has
      moved out but not yet released is put back, an element that the producer has
      constructed but not yet published is taken away. */
  function Settled<T>(s: State<T>, i: nat): Block<T>
    requires i < |s.q.blocks|
  {
    var b := s.q.blocks[i];
    var d := if s.cons.StoreFront? && s.cons.fb == i && b.front < |b.data|
             then b.data[b.front := Full(s.cons.result)] else b.data;
    var writing := (s.prod.PStoreTail? && s.prod.tb == i) || (s.prod.PNextStoreTail? && s.prod.nb == i);
    b.(data := if writing && b.tail < |d| then d[b.tail := Empty] else d)
  }

  function BlockItems<T>(b: Block<T>): seq<T> {
    if b.front < |b.data| == b.size && b.tail < b.size
    then Items(b.data, b.front, Dist(b.front, b.tail, b.size)) else []
  }

  /** The queued elements: walk the `next` pointers from block `i` round to the tail block. */
  function Walk<T>(s: State<T>, i: nat, fuel: nat): seq<T>
    decreases fuel
  {
    if i >= |s.q.blocks| || fuel == 0 then []
    else if i == s.q.tailBlock then BlockItems(Settled(s, i))
    else BlockItems(Settled(s, i)) + Walk(s, s.q.blocks[i].next, fuel - 1)
  }

  function Contents<T>(s: State<T>): seq<T> {
    Walk(s, s.q.frontBlock, |s.q.blocks|)
  }
}
