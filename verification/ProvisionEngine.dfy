/**
The provision engine as the object the daemon runs
(pkg/provision/engine.go:125-155, 181-229, 256-436, 448-479, 610-649).
Each method is proved to make the step of the state machine in `Engine`.
*/
module ProvisionEngine {
  import opened U64
  import opened Primitives
  import C = Counters
  import opened NodeMemory
  import E = Engine
  import opened ReservationCache
  import R = EngineRuns

  class ProvisionEngine {
    const cache: Fs
    const statser: C.Counters
    const reserved: u64
    var memCache: set<Id>
    ghost var log: seq<E.Event>
    ghost var running: E.Cache

    ghost function State(): E.EngineState
      reads this, cache, statser
    {
      E.EngineState(cache.entries, statser.Reading(), memCache, reserved, log, running)
    }

    constructor (cache: Fs, statser: C.Counters, totalMemory: u64)
      ensures this.cache == cache && this.statser == statser
      ensures State() == E.EngineState(cache.entries, statser.Reading(), {}, ReservedFor(totalMemory), [], map[])
    {
      this.cache, this.statser := cache, statser;
      this.reserved := ReservedFor(totalMemory);
      this.memCache, this.log, this.running := {}, [], map[];
    }

    /** The engine after a restart: on the cache and the workloads that are left, with counters rebuilt. */
    constructor Resume(cache: Fs, statser: C.Counters, was: ProvisionEngine, firstBoot: bool, ghost before: E.EngineState)
      requires before.reserved == was.reserved
      ensures this.cache == cache && this.statser == statser
      ensures State() == before.(cache := cache.entries, tally := statser.Reading(), recent := {},
                                 log := before.log + [E.Purged(before.cache.Keys - cache.entries.Keys)],
                                 running := if firstBoot then PersistentPart(before.running) else before.running)
    {
      this.cache, this.statser := cache, statser;
      this.reserved := was.reserved;
      this.memCache := {};
      this.log := before.log + [E.Purged(before.cache.Keys - cache.entries.Keys)];
      this.running := if firstBoot then PersistentPart(before.running) else before.running;
    }

    /**
     * The daemon starts again: it clears the cache after a reboot, counts what is left into new counters and
     * makes a new engine.  That the counting failed is ignored; that the clearing failed ends the start.
     */
    method Restart(now: int, firstBoot: bool, files: Files, networkId: (string, string) -> string)
      returns (engine: ProvisionEngine?, ghost step: R.Step)
      modifies cache
      ensures engine == null <==> firstBoot && exists k :: k in old(cache.entries) && k !in files.empty && k in files.unreadable
      ensures engine != null ==>
        && step.Restart? && step == R.Restart(now, firstBoot, files, engine.statser.Reading())
        && R.Restored(old(State()), step)
        && engine.State() == R.Next(old(State()), step)
    {
      ghost var before := State();
      step := R.Forget({});
      if firstBoot {
        var ok := cache.RemoveAllButPersistent(files);
        if !ok { return null, step; }
      }
      assert cache.entries == Kept(before.cache, firstBoot, files);
      var counters := new C.Counters();
      assert counters.Reading() == C.ZERO;
      var synced, part := cache.Sync(counters, now, files, networkId);
      step := R.Restart(now, firstBoot, files, counters.Reading());
      assert R.CountedAs(before, step, part);
      engine := new ProvisionEngine.Resume(cache, counters, this, firstBoot, before);
    }

    method GetUsableMemoryBytes(m: MemStats) returns (usable: u64)
      ensures usable == Usable(m, reserved, statser.mru)
    {
      var total := Sub(Rounded(m.total), reserved);
      var available: u64 := 0;
      if m.available > reserved { available := m.available - reserved; }
      var workloadReserved := statser.mru;
      var workloadFree: u64 := 0;
      if total > workloadReserved { workloadFree := total - workloadReserved; }
      usable := if workloadFree < available then workloadFree else available;
    }

    /** Whether the workload was deployed. */
    method ProvisionForward(r: Reservation, env: E.Env) returns (ok: bool)
      ensures ok <==> E.Deploys(State(), r, env)
    {
      if r.kind !in env.provisioners { return false; }
      if env.memory.None? { return false; }
      var usable := GetUsableMemoryBytes(env.memory.value);
      var fits := statser.CheckMemoryRequirements(r, usable);
      if !fits { return false; }
      return env.deploys;
    }

    method NetworkExists(id: string, env: E.Env) returns (found: bool)
      ensures found <==> E.NetworkExists(cache.entries, id, env)
    {
      var keys := cache.entries.Keys;
      while keys != {}
        invariant keys <= cache.entries.Keys
        invariant forall k :: k in cache.entries && k !in keys ==> !NamesNetwork(cache.entries[k], id, env)
        decreases |keys|
      {
        var k :| k in keys;
        if NamesNetwork(cache.entries[k], id, env) { return true; }
        keys := keys - {k};
      }
      return false;
    }

    method MigrateToPool(r: Reservation, env: E.Env) returns (o: E.Outcome)
      requires r.reference != ""
      modifies this`log, this`running, cache
      ensures (State(), o) == E.Migrate(old(State()), r, env)
    {
      var found := E.Get(cache.entries, r.reference, env);
      if found.None? || found.value.id != r.reference { return E.Done; }
      var prev := found.value;
      if prev.kind != Network && prev.data.raw != r.data.raw { return E.Failed; }
      var removed := cache.Remove(prev.id, env.removes);
      if !removed { return E.Failed; }
      log := log + [E.Removed(prev.id)];
      var added := cache.Add(r, env.adds);
      if !added { return E.Failed; }
      log := log + [E.Added(r.id)];
      if prev.id in running { running := (running - {prev.id})[r.id := running[prev.id]]; }
      if !env.replies { return E.Failed; }
      return E.Done;
    }

    method CacheAndCount(r: Reservation, env: E.Env) returns (o: E.Outcome)
      modifies this`log, cache, statser
      ensures (State(), o) == E.CacheAndCount(old(State()), r, env)
    {
      var added := cache.Add(r.(state := StateOk), env.adds);
      if !added { return E.Failed; }
      log := log + [E.Added(r.id)];
      if r.kind == NetworkResource {
        if r.data.network.Bad? { return E.Failed; }
        if !env.lists { return E.Failed; }
        var exists_ := NetworkExists(env.networkId(r.user, r.data.network.value), env);
        if exists_ { return E.Done; }
      }
      var _ := statser.Increment(r);
      return E.Done;
    }

    method Provision(r: Reservation, env: E.Env) returns (o: E.Outcome)
      modifies this`log, this`running, cache, statser
      ensures (State(), o) == E.Provision(old(State()), r, env)
    {
      if !r.Valid(env.now) { return E.Failed; }
      if r.reference != "" {
        o := MigrateToPool(r, env);
        if o != E.Done { return o; }
      }
      if E.Get(cache.entries, r.id, env).Some? { return E.Done; }
      var deployed := ProvisionForward(r, env);
      if !deployed { return E.Failed; }
      log := log + [E.Deployed(r.id)];
      running := running[r.id := r];
      if !env.encodes { return E.Crashed; }
      o := CacheAndCount(r, env);
    }

    method Decommission(r: Reservation, env: E.Env) returns (o: E.Outcome)
      modifies this`log, this`running, cache, statser
      ensures (State(), o) == E.Decommission(old(State()), r, env)
    {
      if !env.stats { return E.Failed; }
      if r.id !in cache.entries { return E.Done; }
      if r.state == StateError { return E.Done; }
      if r.kind in env.decommissioners {
        if !env.undeploys { return E.Failed; }
        running := running - {r.id};
      }
      var removed := cache.Remove(r.id, env.removes);
      if !removed { return E.Failed; }
      log := log + [E.Removed(r.id)];
      var _ := statser.Decrement(r);
      return if env.marks then E.Done else E.Failed;
    }

    method DecommissionCached(id: Id, env: E.Env) returns (o: E.Outcome)
      modifies this`log, this`running, cache, statser
      ensures (State(), o) == E.DecommissionCached(old(State()), id, env)
    {
      var r := E.Get(cache.entries, id, env);
      if r.None? { return E.Failed; }
      var _ := Decommission(r.value, env);
      return if env.replies then E.Done else E.Failed;
    }

    /** One job received from the source. */
    method HandleJob(r: Reservation, env: E.Env) returns (o: E.Outcome)
      modifies this, cache, statser
      ensures (State(), o) == E.Handle(old(State()), r, env)
    {
      if r.Expired(env.now) || r.toDelete {
        o := Decommission(r, env);
      } else {
        if r.id in memCache { return E.Done; }
        memCache := memCache + {r.id};
        o := Provision(r, env);
      }
    }
  }

  predicate NamesNetwork(r: Reservation, id: string, env: E.Env) {
    r.kind == Network && r.data.network.Good? && env.networkId(r.user, r.data.network.value) == id
  }
}
