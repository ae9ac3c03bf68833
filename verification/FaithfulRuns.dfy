/**
Runs in the environment the engine is built for: a reservation id always comes
with the same workload, a reference points to a reservation of the same kind,
a migrating id can be cached, and a restart finds reservations only that can be
read, are deployed and have not expired.
*/
module FaithfulRuns {
  import opened U64
  import opened Primitives
  import opened Engine
  import opened Conservation
  import opened ReservationCache
  import opened EngineRuns

  type Workload = (Kind, Payload)

  ghost predicate Agrees(book: Id -> Workload, cache: Cache) {
    forall k :: k in cache ==> cache[k].id == k && (cache[k].kind, cache[k].data) == book(k)
  }

  ghost predicate FaithfulJob(book: Id -> Workload, cache: Cache, r: Reservation, env: Env) {
    && (r.kind, r.data) == book(r.id)
    && (r.reference != "" ==>
         && book(r.reference).0 == r.kind
         && (book(r.reference).1.raw == r.data.raw ==> book(r.reference).1 == r.data))
    && (Swaps(cache, r, env) ==> CanAdd(cache - {r.reference}, r.id, env))
  }

  ghost predicate Faithful(book: Id -> Workload, s: EngineState, step: Step) {
    match step
    case Job(r, env) => FaithfulJob(book, s.cache, r, env)
    case External(_, _) => true
    case Forget(_) => true
    case Restart(now, _, files, _) =>
      && Restored(s, step) && CanSync(KeptBy(s, step), now, files)
      && (forall k :: k in KeptBy(s, step) ==> Counts(KeptBy(s, step)[k], now))
  }

  ghost predicate FaithfulRun(book: Id -> Workload, s: EngineState, steps: seq<Step>) {
    forall i :: 0 <= i < |steps| ==> Faithful(book, Run(s, steps[..i]), steps[i])
  }

  // ---------------------------------------------------------------- soundness of faithful steps

  lemma FaithfulDecommission(book: Id -> Workload, m: Meter, cache: Cache, r: Reservation, env: Env)
    requires Agrees(book, cache) && (r.kind, r.data) == book(r.id)
    ensures DecommissionSound(m, cache, r, env)
  {
    if TakesOut(cache, r, env) {
      SameWorkloadSameContribution(m, r, cache[r.id]);
      TotalDrop(m, cache, r.id);
    }
  }

  lemma FaithfulMigration(book: Id -> Workload, m: Meter, cache: Cache, r: Reservation, env: Env)
    requires Agrees(book, cache) && FaithfulJob(book, cache, r, env) && m != Networks
    ensures MigrationSound(m, cache, r, env)
  {
    if Swaps(cache, r, env) {
      var prev := cache[r.reference];
      if prev.kind == Network {
        NetworksWeighNothing(m, prev);
        NetworksWeighNothing(m, r);
      } else {
        SameWorkloadSameContribution(m, prev, r);
      }
    }
  }

  lemma NothingSkipped(m: Meter, cache: Cache, now: int)
    requires forall k :: k in cache ==> Counts(cache[k], now)
    ensures Total(m, SkippedPart(cache, now)) == 0
  {
    assert SkippedPart(cache, now) == map[];
  }

  lemma FaithfulIsSound(book: Id -> Workload, m: Meter, s: EngineState, step: Step)
    requires Agrees(book, s.cache) && m != Networks && Faithful(book, s, step)
    ensures Sound(m, s, step)
  {
    match step
    case Job(r, env) =>
      FaithfulDecommission(book, m, s.cache, r, env);
      FaithfulMigration(book, m, s.cache, r, env);
    case External(_, _) =>
    case Forget(_) =>
    case Restart(now, _, _, _) =>
      NothingSkipped(m, KeptBy(s, step), now);
  }

  lemma MigrateAgrees(book: Id -> Workload, s: EngineState, r: Reservation, env: Env)
    requires Agrees(book, s.cache) && (r.kind, r.data) == book(r.id)
    ensures Agrees(book, Migrate(s, r, env).0.cache)
  {
  }

  lemma ProvisionNewAgrees(book: Id -> Workload, s: EngineState, r: Reservation, env: Env)
    requires Agrees(book, s.cache) && (r.kind, r.data) == book(r.id)
    ensures Agrees(book, ProvisionNew(s, r, env).0.cache)
  {
  }

  lemma ProvisionAgrees(book: Id -> Workload, s: EngineState, r: Reservation, env: Env)
    requires Agrees(book, s.cache) && (r.kind, r.data) == book(r.id)
    ensures Agrees(book, Provision(s, r, env).0.cache)
  {
    MigrateAgrees(book, s, r, env);
    ProvisionNewAgrees(book, Migrate(s, r, env).0, r, env);
  }

  lemma NextAgrees(book: Id -> Workload, s: EngineState, step: Step)
    requires Agrees(book, s.cache) && Faithful(book, s, step)
    ensures Agrees(book, Next(s, step).cache)
  {
    if step.Job? && !step.r.Expired(step.env.now) && !step.r.toDelete && step.r.id !in s.recent {
      ProvisionAgrees(book, s.(recent := s.recent + {step.r.id}), step.r, step.env);
    }
  }

  lemma PrefixesOfPrefix(steps: seq<Step>, n: nat)
    requires n <= |steps|
    ensures forall i :: 0 <= i <= n ==> steps[..n][..i] == steps[..i]
  {
  }

  lemma {:induction false} RunAgrees(book: Id -> Workload, s: EngineState, reserved: u64, steps: seq<Step>)
    requires Initial(s, reserved) && FaithfulRun(book, s, steps)
    ensures Agrees(book, Run(s, steps).cache)
    decreases |steps|
  {
    if |steps| != 0 {
      var n := |steps| - 1;
      PrefixesOfPrefix(steps, n);
      RunAgrees(book, s, reserved, steps[..n]);
      NextAgrees(book, Run(s, steps[..n]), steps[n]);
    }
  }

  // ---------------------------------------------------------------- conservation

  /**
   * Conservation: after every faithful run each of the nine counters equals the sum of its unit
   * over the cached reservations, as long as the sum has never outgrown 64 bits on the way.
   */
  lemma CapacityIsConserved(book: Id -> Workload, m: Meter, s: EngineState, reserved: u64, steps: seq<Step>)
    requires Initial(s, reserved) && FaithfulRun(book, s, steps) && m != Networks
    requires forall i :: 0 <= i <= |steps| ==> Total(m, Run(s, steps[..i]).cache) < LIMIT
    ensures ConservedOn(m, Run(s, steps))
  {
    forall i | 0 <= i < |steps| ensures Sound(m, Run(s, steps[..i]), steps[i]) {
      PrefixesOfPrefix(steps, i);
      RunAgrees(book, s, reserved, steps[..i]);
      FaithfulIsSound(book, m, Run(s, steps[..i]), steps[i]);
    }
    RunConserves(m, s, reserved, steps);
  }

  /**
   * On such runs the floor at zero of the counters never takes effect, neither when a job nor when an
   * external request takes a reservation out of the cache.
   */
  lemma FloorNeverReached(book: Id -> Workload, m: Meter, s: EngineState, reserved: u64, steps: seq<Step>,
                          r: Reservation)
    requires Initial(s, reserved) && FaithfulRun(book, s, steps) && m != Networks
    requires forall i :: 0 <= i <= |steps| ==> Total(m, Run(s, steps[..i]).cache) < LIMIT
    requires r.id in Run(s, steps).cache
    requires (r.kind, r.data) == book(r.id) || r == Run(s, steps).cache[r.id]
    ensures Contribution(m, r) <= Run(s, steps).tally.At(m)
  {
    var t := Run(s, steps);
    CapacityIsConserved(book, m, s, reserved, steps);
    RunAgrees(book, s, reserved, steps);
    SameWorkloadSameContribution(m, r, t.cache[r.id]);
    TotalDrop(m, t.cache, r.id);
  }
}
