/**
 Every call on the queue returns after a bounded number of its own steps, whatever the other
 thread does in between.
 */
module SpscProgress {
  import opened SpscQueue
  import opened SpscTheorems

  /** At most so many steps of its own are left to a `try_dequeue` call; a consumer between
      two calls has a whole call before it. */
  function ConsumerLeft<T>(c: Consumer<T>): (n: nat)
    ensures 1 <= n <= 14
  {
    match c
    case CIdle => 14
    case CReturned(_) => 14
    case LoadFrontBlock => 13
    case LoadFront(_) => 12
    case LoadTail(_, _) => 11
    case LoadTailBlock(_) => 10
    case ReloadFrontBlock => 9
    case ReloadTail(_) => 8
    case ReloadFront(_, _) => 7
    case LoadNext(_) => 6
    case LoadNextFront(_) => 5
    case LoadNextTail(_, _) => 4
    case StoreFrontBlock(_, _) => 3
    case ReadElement(_, _) => 2
    case StoreFront(_, _, _) => 1
  }

  /** The same for a call of `inner_enqueue`. */
  function ProducerLeft<T>(p: Producer<T>): (n: nat)
    ensures 1 <= n <= 12
  {
    match p
    case PIdle => 12
    case PReturned(_) => 12
    case PLoadTailBlock(_, _) => 11
    case PLoadTail(_, _, _) => 10
    case PLoadFront(_, _, _, _, _) => 9
    case PLoadNext(_, _, _) => 8
    case PLoadFrontBlock(_, _, _, _) => 7
    case PReloadNext(_, _) => 6
    case PNextFront(_, _) => 5
    case PNextTail(_, _, _) => 4
    case PNextWrite(_, _, _) => 3
    case PNextStoreTail(_, _, _) => 2
    case PAlloc(_, _) => 3
    case PLink(_, _, _) => 2
    case PPublish(_, _) => 1
    case PWrite(_, _, _, _) => 2
    case PStoreTail(_, _, _) => 1
  }

  /** Every step of a call brings it closer to its end. */
  lemma ConsumerAdvances<T>(s: State<T>)
    requires ConsumerStep(s).Ok?
    ensures var c := ConsumerStep(s).state.cons; c.CReturned? || ConsumerLeft(c) < ConsumerLeft(s.cons)
  {
  }

  lemma ProducerAdvances<T>(s: State<T>, y: T, mode: bool, memory: bool)
    requires ProducerStep(s, y, mode, memory).Ok?
    ensures var p := ProducerStep(s, y, mode, memory).state.prod;
      p.PReturned? || ProducerLeft(p) < ProducerLeft(s.prod)
  {
  }

  lemma OthersStay<T>(s: State<T>, a: Action<T>)
    requires Step(s, a).Ok?
    ensures a.Consume? ==> Step(s, a).state.prod == s.prod
    ensures a.Produce? ==> Step(s, a).state.cons == s.cons
  {
  }

  /** The number of steps that the consumer (or the producer) takes in a part of a schedule. */
  function StepsOf<T>(schedule: seq<Action<T>>, consumer: bool): nat {
    if schedule == [] then 0 else
    StepsOf(schedule[..|schedule| - 1], consumer) + if schedule[|schedule| - 1].Consume? == consumer then 1 else 0
  }

  lemma StepsMore<T>(schedule: seq<Action<T>>, i: nat, j: nat, consumer: bool)
    requires i <= j < |schedule|
    ensures StepsOf(schedule[i..j + 1], consumer) ==
      StepsOf(schedule[i..j], consumer) + if schedule[j].Consume? == consumer then 1 else 0
  {
    var part := schedule[i..j + 1];
    assert part[..|part| - 1] == schedule[i..j];
  }

  /** Somewhere between moments `i` and `j` the consumer returns from a call. */
  ghost predicate DequeueReturned<T>(trace: seq<State<T>>, i: nat, j: nat) {
    exists m: nat :: i < m <= j < |trace| && trace[m].cons.CReturned?
  }

  ghost predicate EnqueueReturned<T>(trace: seq<State<T>>, i: nat, j: nat) {
    exists m: nat :: i < m <= j < |trace| && trace[m].prod.PReturned?
  }

  lemma {:induction false} DequeueBudget<T>(size: nat, maxBlock: nat, schedule: seq<Action<T>>,
                                            trace: seq<State<T>>, i: nat, j: nat)
    requires IsRun(size, maxBlock, schedule, trace) && i <= j < |trace|
    ensures DequeueReturned(trace, i, j) ||
      StepsOf(schedule[i..j], true) + ConsumerLeft(trace[j].cons) <= ConsumerLeft(trace[i].cons)
    decreases j - i
  {
    hide ConsumerStep, ProducerStep, ConsumerLeft;
    if i < j {
      DequeueBudget(size, maxBlock, schedule, trace, i, j - 1);
      StepsMore(schedule, i, j - 1, true);
      assert Moves(schedule, trace, j - 1);
      OthersStay(trace[j - 1], schedule[j - 1]);
      if schedule[j - 1].Consume? {
        ConsumerAdvances(trace[j - 1]);
      }
    }
  }

  /** In every run, fourteen steps of the consumer, with any number of producer steps between
      them, contain the return of a `try_dequeue` call. */
  lemma DequeueIsWaitFree<T>(size: nat, maxBlock: nat, schedule: seq<Action<T>>, trace: seq<State<T>>, i: nat, j: nat)
    requires IsRun(size, maxBlock, schedule, trace) && i <= j < |trace| && StepsOf(schedule[i..j], true) >= 14
    ensures DequeueReturned(trace, i, j)
  {
    hide ConsumerStep, ProducerStep, StepsOf;
    DequeueBudget(size, maxBlock, schedule, trace, i, j);
  }

  lemma {:induction false} EnqueueBudget<T>(size: nat, maxBlock: nat, schedule: seq<Action<T>>,
                                            trace: seq<State<T>>, i: nat, j: nat)
    requires IsRun(size, maxBlock, schedule, trace) && i <= j < |trace|
    ensures EnqueueReturned(trace, i, j) ||
      StepsOf(schedule[i..j], false) + ProducerLeft(trace[j].prod) <= ProducerLeft(trace[i].prod)
    decreases j - i
  {
    hide ConsumerStep, ProducerStep, ProducerLeft;
    if i < j {
      EnqueueBudget(size, maxBlock, schedule, trace, i, j - 1);
      StepsMore(schedule, i, j - 1, false);
      assert Moves(schedule, trace, j - 1);
      OthersStay(trace[j - 1], schedule[j - 1]);
      var a := schedule[j - 1];
      if a.Produce? {
        ProducerAdvances(trace[j - 1], a.x, a.alloc, a.memory);
      }
    }
  }

  /** In every run, twelve steps of the producer contain the return of an enqueue call. */
  lemma EnqueueIsWaitFree<T>(size: nat, maxBlock: nat, schedule: seq<Action<T>>, trace: seq<State<T>>, i: nat, j: nat)
    requires IsRun(size, maxBlock, schedule, trace) && i <= j < |trace| && StepsOf(schedule[i..j], false) >= 12
    ensures EnqueueReturned(trace, i, j)
  {
    hide ConsumerStep, ProducerStep, StepsOf;
    EnqueueBudget(size, maxBlock, schedule, trace, i, j);
  }
}
