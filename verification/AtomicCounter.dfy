/**
The shared counter: an atomic add, and a decrement that loads, computes and
compares-and-swaps until it succeeds (pkg/provision/primitives/counters.go:27-55).
Any number of threads interleave at the granularity of the atomic instructions.
*/
module AtomicCounter {
  import opened U64

  type Tid = nat

  datatype Op = Inc(v: u64) | Dec(v: u64)

  /** What the counter promises of one call, run on its own. */
  function Apply(value: u64, op: Op): u64 {
    match op
    case Inc(v) => Add(value, v)
    case Dec(v) => Monus(value, v)
  }

  /**
   * Where a thread is: between calls, inside a call, or inside a decrement that has loaded the
   * counter.  `since` is the number of calls completed when the call began, `at` the number
   * completed when the counter was loaded.
   */
  datatype Pc =
    | Idle
    | Calling(op: Op, since: nat)
    | Loaded(v: u64, since: nat, current: u64, at: nat)

  /** A completed call: what was asked, when it was begun, and what it returned. */
  datatype Call = Call(tid: Tid, op: Op, since: nat, result: u64)

  datatype Counter = Counter(value: u64, threads: map<Tid, Pc>, history: seq<Call>)
  {
    function At(t: Tid): Pc {
      if t in threads then threads[t] else Idle
    }

    function Go(t: Tid, pc: Pc): Counter {
      this.(threads := threads[t := pc])
    }

    /** The call of thread `t` takes effect and returns `result`. */
    function Return(t: Tid, op: Op, since: nat, result: u64): Counter {
      this.(value := result, threads := threads[t := Idle], history := history + [Call(t, op, since, result)])
    }
  }

  datatype Step =
    | Begin(t: Tid, op: Op)
    | FetchAdd(t: Tid)
    | Load(t: Tid)
    | CompareAndSwap(t: Tid)

  /** One atomic instruction of one thread; a step a thread is not ready for does nothing. */
  function Next(c: Counter, step: Step): Counter {
    var pc := c.At(step.t);
    match step
    case Begin(t, op) =>
      if pc.Idle? then c.Go(t, Calling(op, |c.history|)) else c
    case FetchAdd(t) =>
      if pc.Calling? && pc.op.Inc? then c.Return(t, pc.op, pc.since, Add(c.value, pc.op.v)) else c
    case Load(t) =>
      if pc.Calling? && pc.op.Dec? then c.Go(t, Loaded(pc.op.v, pc.since, c.value, |c.history|)) else c
    case CompareAndSwap(t) =>
      if !pc.Loaded? then c
      else if c.value == pc.current
      then c.Return(t, Dec(pc.v), pc.since, pc.current - Min(pc.v, pc.current))
      else c.Go(t, Calling(Dec(pc.v), pc.since))
  }

  function Run(c: Counter, steps: seq<Step>): Counter {
    if |steps| == 0 then c else Next(Run(c, steps[..|steps| - 1]), steps[|steps| - 1])
  }

  /** The calls run one after the other. */
  function Replay(value: u64, calls: seq<Call>): u64 {
    if |calls| == 0 then value else Apply(Replay(value, calls[..|calls| - 1]), calls[|calls| - 1].op)
  }

  /** Every call returned what the sequential run returns at its place, and not before it was begun. */
  ghost predicate Sequential(initial: u64, calls: seq<Call>) {
    forall i :: 0 <= i < |calls| ==>
      calls[i].result == Replay(initial, calls[..i + 1]) && calls[i].since <= i
  }

  ghost predicate ThreadsInStep(c: Counter) {
    forall t :: t in c.threads ==>
      match c.threads[t]
      case Idle => true
      case Calling(_, since) => since <= |c.history|
      case Loaded(_, since, current, at) =>
        since <= at <= |c.history| && (at == |c.history| ==> current == c.value)
  }

  ghost predicate Linearized(initial: u64, c: Counter) {
    && c.value == Replay(initial, c.history)
    && Sequential(initial, c.history)
    && ThreadsInStep(c)
  }

  lemma ReturnLinearized(initial: u64, c: Counter, t: Tid, op: Op, since: nat)
    requires Linearized(initial, c) && since <= |c.history|
    ensures Linearized(initial, c.Return(t, op, since, Apply(c.value, op)))
  {
    var call := Call(t, op, since, Apply(c.value, op));
    var more := c.history + [call];
    assert more[..|c.history|] == c.history;
    forall i | 0 <= i < |more| ensures more[i].result == Replay(initial, more[..i + 1]) && more[i].since <= i {
      if i < |c.history| {
        assert more[..i + 1] == c.history[..i + 1];
      } else {
        assert more[..i + 1] == more;
      }
    }
  }

  lemma NextLinearized(initial: u64, c: Counter, step: Step)
    requires Linearized(initial, c)
    ensures Linearized(initial, Next(c, step))
  {
    var pc := c.At(step.t);
    if step.FetchAdd? && pc.Calling? && pc.op.Inc? {
      ReturnLinearized(initial, c, step.t, pc.op, pc.since);
    } else if step.CompareAndSwap? && pc.Loaded? && c.value == pc.current {
      ReturnLinearized(initial, c, step.t, Dec(pc.v), pc.since);
    }
  }

  /**
   * Linearizability: after any interleaving the completed calls, in the order in which their atomic
   * instruction took effect, are a sequential run of additions and floored subtractions from the
   * initial value to the current one, with the results the callers saw, and each call takes its
   * place after every call that had completed when it began.
   */
  lemma {:induction false} Linearizable(initial: u64, steps: seq<Step>)
    ensures Linearized(initial, Run(Counter(initial, map[], []), steps))
    decreases |steps|
  {
    if |steps| != 0 {
      Linearizable(initial, steps[..|steps| - 1]);
      NextLinearized(initial, Run(Counter(initial, map[], []), steps[..|steps| - 1]), steps[|steps| - 1]);
    }
  }

  /** A call that had completed before another one began comes before it. */
  lemma RealTimeOrder(initial: u64, steps: seq<Step>, i: nat, j: nat)
    requires
      var calls := Run(Counter(initial, map[], []), steps).history;
      i < |calls| && j < |calls| && i < calls[j].since
    ensures i < j
  {
    Linearizable(initial, steps);
  }

  /**
   * Lock freedom: in any reachable state a compare-and-swap can fail only if another call has
   * completed since the load, so some thread always makes progress.
   */
  lemma RetryMeansProgress(initial: u64, steps: seq<Step>, t: Tid)
    requires Run(Counter(initial, map[], []), steps).At(t).Loaded?
    ensures
      var c := Run(Counter(initial, map[], []), steps);
      Next(c, CompareAndSwap(t)).history == c.history ==> c.At(t).at < |c.history|
  {
    Linearizable(initial, steps);
    var c := Run(Counter(initial, map[], []), steps);
    if c.value == c.At(t).current {
      assert |Next(c, CompareAndSwap(t)).history| == |c.history| + 1;
    }
  }
}
