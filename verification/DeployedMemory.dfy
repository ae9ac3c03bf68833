/**
The memory of what is deployed.  The admission check compares with the counter,
which knows what is cached; so it bounds the deployed memory exactly as long as
no workload with memory runs without its reservation being cached.
*/
module DeployedMemory {
  import opened Options
  import opened U64
  import opened Primitives
  import opened Counters
  import opened NodeMemory
  import opened Engine
  import opened Conservation
  import opened EngineRuns
  import opened FaithfulRuns
  import opened MemoryAdmission

  /** Every running workload that takes memory belongs to a cached reservation of that size. */
  ghost predicate Hosted(s: EngineState) {
    Covers(s.cache, s.running)
  }

  ghost predicate Covers(cache: Cache, running: Cache) {
    forall k :: k in running && Contribution(Mru, running[k]) != 0 ==>
      k in cache && Contribution(Mru, cache[k]) == Contribution(Mru, running[k])
  }

  ghost function DeployedMemory(s: EngineState): nat {
    Total(Mru, s.running)
  }

  lemma {:induction false} CoversBounds(cache: Cache, running: Cache)
    requires Covers(cache, running)
    ensures Total(Mru, running) <= Total(Mru, cache)
    decreases |running|
  {
    if k :| k in running {
      TotalDrop(Mru, running, k);
      var rest := running - {k};
      assert |rest| < |running| by { assert rest.Keys == running.Keys - {k}; }
      if Contribution(Mru, running[k]) == 0 {
        CoversBounds(cache, rest);
      } else {
        TotalDrop(Mru, cache, k);
        CoversBounds(cache - {k}, rest);
      }
    } else {
      assert |running| == 0;
    }
  }

  // ---------------------------------------------------------------- what leaves a workload uncached

  /** A new workload that takes memory is deployed but cannot be cached. */
  ghost predicate DeploysUncached(s: EngineState, r: Reservation, env: Env) {
    && r.Valid(env.now) && Migrates(s.cache, r, env).None? && r.id !in s.cache
    && Deploys(s, r, env) && Contribution(Mru, r) != 0
    && !(env.encodes && env.adds)
  }

  /** A running workload that takes memory leaves the cache, and there is no decommissioner to stop it. */
  ghost predicate LeavesRunning(s: EngineState, r: Reservation, env: Env) {
    && TakesOut(s.cache, r, env) && r.kind !in env.decommissioners
    && r.id in s.running && Contribution(Mru, s.running[r.id]) != 0
  }

  ghost predicate Strays(s: EngineState, step: Step) {
    match step
    case Job(r, env) =>
      if r.Expired(env.now) || r.toDelete then LeavesRunning(s, r, env)
      else r.id !in s.recent && DeploysUncached(s, r, env)
    case External(id, env) => Get(s.cache, id, env).Some? && LeavesRunning(s, s.cache[id], env)
    case Forget(_) => false
    case Restart(_, _, _, _) => false
  }

  lemma DecommissionHostedIff(s: EngineState, r: Reservation, env: Env)
    requires Hosted(s)
    ensures Hosted(Decommission(s, r, env).0) <==> !LeavesRunning(s, r, env)
  {
    if LeavesRunning(s, r, env) {
      assert r.id in Decommission(s, r, env).0.running;
    }
  }

  lemma MigrateHosted(book: Id -> Workload, s: EngineState, r: Reservation, env: Env)
    requires Hosted(s) && Agrees(book, s.cache) && FaithfulJob(book, s.cache, r, env)
    ensures Hosted(Migrate(s, r, env).0)
  {
    if Swaps(s.cache, r, env) {
      FaithfulMigration(book, Mru, s.cache, r, env);
    }
  }

  /** Deploying a new workload hosts it, unless it takes memory and cannot be cached. */
  lemma ProvisionNewHostedIff(book: Id -> Workload, s: EngineState, r: Reservation, env: Env)
    requires Hosted(s) && Agrees(book, s.cache) && (r.kind, r.data) == book(r.id)
    ensures Hosted(ProvisionNew(s, r, env).0) <==>
            !(Deploys(s, r, env) && r.id !in s.cache && Contribution(Mru, r) != 0 && !(env.encodes && env.adds))
  {
    if Deploys(s, r, env) {
      var t := ProvisionNew(s, r, env).0;
      assert t.running == s.running[r.id := r];
      SameWorkloadSameContribution(Mru, r, r.(state := StateOk));
      if r.id in s.cache {
        SameWorkloadSameContribution(Mru, r, s.cache[r.id]);
        ProvisionNewFailsWhenCached(s, r, env);
      }
    }
  }

  lemma ProvisionHostedIff(book: Id -> Workload, s: EngineState, r: Reservation, env: Env)
    requires Hosted(s) && Agrees(book, s.cache) && FaithfulJob(book, s.cache, r, env)
    ensures Hosted(Provision(s, r, env).0) <==> !DeploysUncached(s, r, env)
  {
    if r.Valid(env.now) {
      var (s1, o) := Migrate(s, r, env);
      MigrateHosted(book, s, r, env);
      MigrateAgrees(book, s, r, env);
      MigrateSwapsOrKeeps(s, r, env);
      ProvisionNewHostedIff(book, s1, r, env);
    }
  }

  /** A step keeps all deployed memory accounted for exactly when it strands no workload that takes memory. */
  lemma NextHostedIff(book: Id -> Workload, s: EngineState, step: Step)
    requires Hosted(s) && Agrees(book, s.cache) && Faithful(book, s, step)
    ensures Hosted(Next(s, step)) <==> !Strays(s, step)
  {
    match step
    case Job(r, env) =>
      if r.Expired(env.now) || r.toDelete {
        DecommissionHostedIff(s, r, env);
      } else if r.id !in s.recent {
        ProvisionHostedIff(book, s.(recent := s.recent + {r.id}), r, env);
      }
    case External(id, env) =>
      if Get(s.cache, id, env).Some? {
        DecommissionHostedIff(s, s.cache[id], env);
      }
    case Forget(_) =>
    case Restart(_, _, _, _) =>
      AfterRestart(s, step);
  }

  // ---------------------------------------------------------------- runs

  ghost predicate NoneStrays(s: EngineState, steps: seq<Step>) {
    forall i :: 0 <= i < |steps| ==> !Strays(Run(s, steps[..i]), steps[i])
  }

  lemma NoneStraysPrefix(s: EngineState, steps: seq<Step>, n: nat)
    requires NoneStrays(s, steps) && n < |steps|
    ensures NoneStrays(s, steps[..n]) && !Strays(Run(s, steps[..n]), steps[n])
  {
    PrefixesOfPrefix(steps, n);
  }

  lemma FaithfulAt(book: Id -> Workload, s: EngineState, steps: seq<Step>, n: nat)
    requires FaithfulRun(book, s, steps) && n < |steps|
    ensures Faithful(book, Run(s, steps[..n]), steps[n])
  {
  }

  lemma {:induction false} RunHosted(book: Id -> Workload, s: EngineState, reserved: u64, steps: seq<Step>)
    requires Initial(s, reserved) && FaithfulRun(book, s, steps)
    requires NoneStrays(s, steps)
    ensures Hosted(Run(s, steps))
    decreases |steps|
  {
    if |steps| != 0 {
      var n := |steps| - 1;
      FaithfulPrefix(book, s, steps, n);
      NoneStraysPrefix(s, steps, n);
      RunHosted(book, s, reserved, steps[..n]);
      RunAgrees(book, s, reserved, steps[..n]);
      FaithfulAt(book, s, steps, n);
      HostedNext(book, Run(s, steps[..n]), steps[n]);
    }
  }

  lemma HostedNext(book: Id -> Workload, s: EngineState, step: Step)
    requires Hosted(s) && Agrees(book, s.cache) && Faithful(book, s, step) && !Strays(s, step)
    ensures Hosted(Next(s, step))
  {
    NextHostedIff(book, s, step);
  }

  /**
   * Memory admission for what is deployed: in every run in which no step strands a workload, the memory of
   * everything that runs on the node stays within the rounded total minus the reserve.
   */
  lemma DeployedMemoryStaysWithinBudget(book: Id -> Workload, total: u64, s: EngineState, steps: seq<Step>)
    requires Initial(s, ReservedFor(total)) && FaithfulRun(book, s, steps)
    requires forall i :: 0 <= i < |steps| ==> OnMachine(total, steps[i])
    requires NoneStrays(s, steps)
    ensures DeployedMemory(Run(s, steps)) <= Run(s, steps).tally.mru <= Budget(total)
  {
    MemoryStaysWithinBudget(book, total, s, steps);
    RunHosted(book, s, ReservedFor(total), steps);
    HostedFits(total, Run(s, steps));
  }

  lemma HostedFits(total: u64, s: EngineState)
    requires WithinBudget(total, s) && Hosted(s)
    ensures DeployedMemory(s) <= s.tally.mru <= Budget(total)
  {
    CoversBounds(s.cache, s.running);
  }

  /** On a machine with that memory, the request passes the check against the counter. */
  predicate Admitted(total: u64, mru: u64, m: MemStats, request: u64) {
    m.total == total && m.available <= total && request <= Usable(m, ReservedFor(total), mru)
  }

  /**
   * And the check admits no more than the budget exactly in the states where the deployed memory is at most
   * what the counter says: otherwise there is a request that passes it and does not fit.
   */
  lemma AdmissionFitsIff(total: u64, mru: u64, deployed: nat)
    requires total >= 2 * GIB && mru <= Budget(total)
    ensures (forall m, request :: Admitted(total, mru, m, request) ==> deployed + request <= Budget(total))
       <==> deployed <= mru
  {
    ReserveFitsIffTwoGib(total);
    if deployed <= mru {
      forall m, request | Admitted(total, mru, m, request)
        ensures deployed + request <= Budget(total)
      {
        UsableStaysInBudget(m, mru, request);
      }
    } else {
      var m := MemStats(total, total);
      assert Admitted(total, mru, m, Budget(total) - mru);
    }
  }

  // ---------------------------------------------------------------- the failing run

  const TWO_GIB_CONTAINER :=
    Payload("{memory:2048}", Bad, Good(ContainerSpec(1, 2048, SSD, 0)), Bad, Bad, Bad, Bad)

  function ContainerOf(id: Id): Reservation {
    Reservation(id, "user", Container, TWO_GIB_CONTAINER, 1, 100, false, "", StateOk)
  }

  /** A node of four GiB on which everything works but writing to the cache. */
  function FullDisk(): Env {
    Env(10, Some(MemStats(4 * GIB, 4 * GIB)), {Container}, {Container}, {},
        true, true, true, true, false, true, true, true, true, (u, n) => u + n)
  }

  lemma TwoGibContainer(id: Id)
    ensures Contribution(Mru, ContainerOf(id)) == 2 * GIB && MemoryFits(ContainerOf(id), 2 * GIB)
  {
  }

  lemma FourGibNode()
    ensures ReservedFor(4 * GIB) == 2 * GIB && Budget(4 * GIB) == 2 * GIB
    ensures Usable(MemStats(4 * GIB, 4 * GIB), 2 * GIB, 0) == 2 * GIB
  {
    ReserveInGib(4 * GIB);
  }

  lemma DeployedUncached(s: EngineState, id: Id)
    requires s.cache == map[] && s.tally == ZERO && s.reserved == 2 * GIB && id !in s.recent
    ensures Next(s, Job(ContainerOf(id), FullDisk())) ==
            s.(recent := s.recent + {id}, log := s.log + [Deployed(id)], running := s.running[id := ContainerOf(id)])
    ensures Strays(s, Job(ContainerOf(id), FullDisk()))
  {
    TwoGibContainer(id);
    FourGibNode();
  }

  /** Two containers, each of which takes all the memory there is, are deployed one after the other. */
  lemma UncachedExceedBudget()
    ensures
      var s := EngineState(map[], ZERO, {}, ReservedFor(4 * GIB), [], map[]);
      var (first, second) := (Job(ContainerOf("1"), FullDisk()), Job(ContainerOf("2"), FullDisk()));
      var t := Run(s, [first] + [second]);
      && Initial(s, ReservedFor(4 * GIB)) && t.tally.mru == 0
      && FaithfulRun(_ => (Container, TWO_GIB_CONTAINER), s, [first] + [second])
      && OnMachine(4 * GIB, first) && OnMachine(4 * GIB, second)
      && DeployedMemory(t) == 4 * GIB > Budget(4 * GIB)
  {
    FourGibNode();
    var s := EngineState(map[], ZERO, {}, ReservedFor(4 * GIB), [], map[]);
    var (first, second) := (Job(ContainerOf("1"), FullDisk()), Job(ContainerOf("2"), FullDisk()));
    DeployedUncached(s, "1");
    var s1 := Next(s, first);
    DeployedUncached(s1, "2");
    assert ([first] + [second])[..1] == [first] && [first][..0] == [];
    assert Run(s, []) == s && Run(s, [first]) == s1;
    assert Run(s, [first] + [second]) == Next(s1, second);
    TwoContainers();
  }

  lemma TwoContainers()
    ensures Total(Mru, map[]["1" := ContainerOf("1")]["2" := ContainerOf("2")]) == 4 * GIB
  {
    TwoGibContainer("1");
    TwoGibContainer("2");
    var none: Cache := map[];
    TotalStore(Mru, none, "1", ContainerOf("1"));
    TotalStore(Mru, none["1" := ContainerOf("1")], "2", ContainerOf("2"));
  }
}
