/**
The memory bound: checking, deploying and counting compose, so that the memory
of everything in the cache stays within the budget of the node.
*/
module MemoryAdmission {
  import opened U64
  import opened Primitives
  import opened NodeMemory
  import opened Engine
  import opened Conservation
  import opened ReservationCache
  import opened EngineRuns
  import opened FaithfulRuns

  /** The kernel reports the installed memory, and no more of it as available. */
  ghost predicate Honest(total: u64, env: Env) {
    env.memory.Some? ==> env.memory.value.total == total && env.memory.value.available <= total
  }

  ghost predicate OnMachine(total: u64, step: Step) {
    step.Job? ==> Honest(total, step.env)
  }

  /** The memory counter is exact and within the budget. */
  ghost predicate WithinBudget(total: u64, s: EngineState) {
    && s.reserved == ReservedFor(total)
    && ConservedOn(Mru, s)
    && Total(Mru, s.cache) <= Budget(total)
  }

  lemma ProvisionNewWithinBudget(total: u64, s: EngineState, r: Reservation, env: Env)
    requires WithinBudget(total, s) && Honest(total, env)
    ensures Total(Mru, ProvisionNew(s, r, env).0.cache) <= Budget(total)
  {
    if Deploys(s, r, env) && env.encodes && CanAdd(s.cache, r.id, env) {
      UsableStaysInBudget(env.memory.value, s.tally.mru, Contribution(Mru, r));
      TotalStore(Mru, s.cache, r.id, r.(state := StateOk));
      SameWorkloadSameContribution(Mru, r, r.(state := StateOk));
    }
  }

  lemma MigrateWithinBudget(book: Id -> Workload, total: u64, s: EngineState, r: Reservation, env: Env)
    requires WithinBudget(total, s) && Agrees(book, s.cache) && FaithfulJob(book, s.cache, r, env)
    ensures WithinBudget(total, Migrate(s, r, env).0)
  {
    FaithfulMigration(book, Mru, s.cache, r, env);
    MigrateConserves(Mru, s, r, env);
    MigrateSwapsOrKeeps(s, r, env);
  }

  lemma ProvisionWithinBudget(book: Id -> Workload, total: u64, s: EngineState, r: Reservation, env: Env)
    requires WithinBudget(total, s) && Honest(total, env)
    requires Agrees(book, s.cache) && FaithfulJob(book, s.cache, r, env)
    ensures Total(Mru, Provision(s, r, env).0.cache) <= Budget(total)
  {
    MigrateWithinBudget(book, total, s, r, env);
    ProvisionNewWithinBudget(total, Migrate(s, r, env).0, r, env);
  }

  lemma DecommissionShrinks(m: Meter, s: EngineState, r: Reservation, env: Env)
    ensures Total(m, Decommission(s, r, env).0.cache) <= Total(m, s.cache)
  {
    if TakesOut(s.cache, r, env) {
      TotalDrop(m, s.cache, r.id);
    }
  }

  lemma PersistentShrinks(m: Meter, cache: Cache, firstBoot: bool, files: Files)
    ensures Total(m, Kept(cache, firstBoot, files)) <= Total(m, cache)
  {
    PartAndRest(m, Kept(cache, firstBoot, files), cache);
  }

  lemma NextTotalWithinBudget(book: Id -> Workload, total: u64, s: EngineState, step: Step)
    requires WithinBudget(total, s) && OnMachine(total, step)
    requires Agrees(book, s.cache) && Faithful(book, s, step)
    ensures Total(Mru, Next(s, step).cache) <= Budget(total)
  {
    match step
    case Job(r, env) =>
      if r.Expired(env.now) || r.toDelete {
        DecommissionShrinks(Mru, s, r, env);
      } else if r.id !in s.recent {
        ProvisionWithinBudget(book, total, s.(recent := s.recent + {r.id}), r, env);
      }
    case External(id, env) =>
      if Get(s.cache, id, env).Some? {
        DecommissionShrinks(Mru, s, s.cache[id], env);
      }
    case Forget(_) =>
    case Restart(_, firstBoot, files, _) =>
      PersistentShrinks(Mru, s.cache, firstBoot, files);
  }

  lemma NextKeepsReserve(s: EngineState, step: Step)
    ensures Next(s, step).reserved == s.reserved
  {
    if step.Job? {
      MigrateSwapsOrKeeps(s.(recent := s.recent + {step.r.id}), step.r, step.env);
    }
  }

  lemma NextWithinBudget(book: Id -> Workload, total: u64, s: EngineState, step: Step)
    requires WithinBudget(total, s) && OnMachine(total, step)
    requires Agrees(book, s.cache) && Faithful(book, s, step)
    ensures WithinBudget(total, Next(s, step))
  {
    NextTotalWithinBudget(book, total, s, step);
    FaithfulIsSound(book, Mru, s, step);
    NextConserves(Mru, s, step);
    NextKeepsReserve(s, step);
  }

  lemma StartsWithinBudget(total: u64, s: EngineState)
    requires Initial(s, ReservedFor(total))
    ensures WithinBudget(total, s)
  {
  }

  lemma FaithfulPrefix(book: Id -> Workload, s: EngineState, steps: seq<Step>, n: nat)
    requires FaithfulRun(book, s, steps) && n <= |steps|
    ensures FaithfulRun(book, s, steps[..n])
  {
    PrefixesOfPrefix(steps, n);
  }

  /**
   * Memory admission: in every reachable state the memory of all cached workloads is exactly what
   * the counter says, and stays within the rounded total minus the reserve.  No assumption on
   * overflow is needed: the bound itself rules it out.
   */
  lemma {:induction false} MemoryStaysWithinBudget(
    book: Id -> Workload, total: u64, s: EngineState, steps: seq<Step>)
    requires Initial(s, ReservedFor(total)) && FaithfulRun(book, s, steps)
    requires forall i :: 0 <= i < |steps| ==> OnMachine(total, steps[i])
    ensures WithinBudget(total, Run(s, steps))
    decreases |steps|
  {
    if |steps| == 0 {
      StartsWithinBudget(total, s);
    } else {
      var n := |steps| - 1;
      FaithfulPrefix(book, s, steps, n);
      MemoryStaysWithinBudget(book, total, s, steps[..n]);
      RunAgrees(book, s, ReservedFor(total), steps[..n]);
      NextWithinBudget(book, total, Run(s, steps[..n]), steps[n]);
    }
  }
}
