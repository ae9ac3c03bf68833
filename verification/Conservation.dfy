/**
Conservation of capacity: the counters of the engine against the reservations
in its cache, step by step and over whole runs.
*/
module Conservation {
  import opened U64
  import opened MapSums
  import opened Primitives
  import opened Counters
  import opened Engine

  function Weight(m: Meter): Reservation -> nat {
    r => Contribution(m, r)
  }

  /** The sum over the cache of what every reservation contributes to a counter. */
  ghost function Total(m: Meter, cache: Cache): nat {
    Sum(cache, Weight(m))
  }

  lemma TotalDrop(m: Meter, cache: Cache, k: Id)
    requires k in cache
    ensures Total(m, cache) == Contribution(m, cache[k]) + Total(m, cache - {k})
  {
    SumDrop(cache, Weight(m), k);
  }

  lemma TotalStore(m: Meter, cache: Cache, k: Id, r: Reservation)
    requires k !in cache
    ensures Total(m, cache[k := r]) == Contribution(m, r) + Total(m, cache)
  {
    SumStore(cache, Weight(m), k, r);
  }

  /** Every cached reservation is filed under its own id. */
  ghost predicate WellKeyed(cache: Cache) {
    forall k :: k in cache ==> cache[k].id == k
  }

  ghost predicate ConservedOn(m: Meter, s: EngineState) {
    s.tally.At(m) == Total(m, s.cache)
  }

  // ---------------------------------------------------------------- one step

  /** The reservation `r` would be taken out of the cache by a decommission. */
  predicate TakesOut(cache: Cache, r: Reservation, env: Env) {
    && env.stats && r.id in cache && r.state != StateError
    && (r.kind in env.decommissioners ==> env.undeploys) && env.removes
  }

  /**
   * What a decommission subtracts is what the cached reservation had added.
   * The minimum is the floor at zero of the counter.
   */
  ghost predicate DecommissionSound(m: Meter, cache: Cache, r: Reservation, env: Env) {
    TakesOut(cache, r, env) ==>
      Min(Contribution(m, r), Total(m, cache)) == Contribution(m, cache[r.id])
  }

  /** The migration of a cached reservation goes ahead. */
  predicate Swaps(cache: Cache, r: Reservation, env: Env) {
    var prev := Migrates(cache, r, env);
    prev.Some? && !MigrationRefused(prev.value, r) && env.removes
  }

  /** A migration replaces a reservation by one of the same weight; if it cannot add, it loses no weight. */
  ghost predicate MigrationSound(m: Meter, cache: Cache, r: Reservation, env: Env) {
    Swaps(cache, r, env) ==>
      Contribution(m, cache[r.reference])
        == if CanAdd(cache - {r.reference}, r.id, env) then Contribution(m, r) else 0
  }

  ghost predicate HandleSound(m: Meter, s: EngineState, r: Reservation, env: Env) {
    if r.Expired(env.now) || r.toDelete then DecommissionSound(m, s.cache, r, env)
    else r.id !in s.recent && r.Valid(env.now) ==> MigrationSound(m, s.cache, r, env)
  }

  /** A decommission keeps the counter equal to the cache exactly when it subtracts what was added. */
  lemma DecommissionConserves(m: Meter, s: EngineState, r: Reservation, env: Env)
    requires ConservedOn(m, s)
    ensures ConservedOn(m, Decommission(s, r, env).0) <==> DecommissionSound(m, s.cache, r, env)
  {
    if TakesOut(s.cache, r, env) {
      DecreasedAt(s.tally, r, m);
      TotalDrop(m, s.cache, r.id);
    }
  }

  /** A migration keeps the counter equal to the cache exactly when the weights agree. */
  lemma MigrateConserves(m: Meter, s: EngineState, r: Reservation, env: Env)
    requires WellKeyed(s.cache) && ConservedOn(m, s)
    ensures ConservedOn(m, Migrate(s, r, env).0) <==> MigrationSound(m, s.cache, r, env)
    ensures WellKeyed(Migrate(s, r, env).0.cache)
  {
    MigratedCache(s, r, env);
    if Swaps(s.cache, r, env) {
      TotalDrop(m, s.cache, r.reference);
      var rest := s.cache - {r.reference};
      if CanAdd(rest, r.id, env) {
        TotalStore(m, rest, r.id, r);
      }
    }
  }

  lemma MigratedCache(s: EngineState, r: Reservation, env: Env)
    requires WellKeyed(s.cache)
    ensures
      var t := Migrate(s, r, env).0;
      && t.tally == s.tally && WellKeyed(t.cache)
      && t.cache ==
         if !Swaps(s.cache, r, env) then s.cache
         else if CanAdd(s.cache - {r.reference}, r.id, env) then (s.cache - {r.reference})[r.id := r]
         else s.cache - {r.reference}
  {
  }

  /** A failed migration never lets the provisioning go on. */
  lemma MigrateSwapsOrKeeps(s: EngineState, r: Reservation, env: Env)
    ensures Migrate(s, r, env).1 == Done ==> Migrate(s, r, env).0 == s || r.id in Migrate(s, r, env).0.cache
    ensures Migrate(s, r, env).0.tally == s.tally && Migrate(s, r, env).0.reserved == s.reserved
  {
  }

  /** Deploying a new workload, on every exit, keeps every counter but that of the networks. */
  lemma ProvisionNewConserves(m: Meter, s: EngineState, r: Reservation, env: Env)
    requires m != Networks && ConservedOn(m, s)
    requires Total(m, ProvisionNew(s, r, env).0.cache) < LIMIT
    ensures ConservedOn(m, ProvisionNew(s, r, env).0)
  {
    if Deploys(s, r, env) && env.encodes && CanAdd(s.cache, r.id, env) {
      var ok := r.(state := StateOk);
      TotalStore(m, s.cache, r.id, ok);
      SameWorkloadSameContribution(m, r, ok);
      IncreasedAt(s.tally, r, m);
    }
  }

  lemma ProvisionNewFailsWhenCached(s: EngineState, r: Reservation, env: Env)
    requires r.id in s.cache
    ensures ProvisionNew(s, r, env).0.cache == s.cache && ProvisionNew(s, r, env).0.tally == s.tally
  {
  }

  lemma ProvisionConserves(m: Meter, s: EngineState, r: Reservation, env: Env)
    requires m != Networks && WellKeyed(s.cache) && ConservedOn(m, s)
    requires Total(m, Provision(s, r, env).0.cache) < LIMIT
    ensures ConservedOn(m, Provision(s, r, env).0)
        <==> (r.Valid(env.now) ==> MigrationSound(m, s.cache, r, env))
  {
    if r.Valid(env.now) {
      var (s1, o) := Migrate(s, r, env);
      MigrateConserves(m, s, r, env);
      MigrateSwapsOrKeeps(s, r, env);
      if o == Done && Get(s1.cache, r.id, env).None? {
        if r.id in s1.cache {
          ProvisionNewFailsWhenCached(s1, r, env);
        } else {
          ProvisionNewConserves(m, s1, r, env);
        }
      }
    }
  }

  /**
   * One job of the source, on every exit: a counter equal to its sum over the cache stays equal to
   * it exactly when the job subtracts or replaces what had been added.
   */
  lemma HandleConserves(m: Meter, s: EngineState, r: Reservation, env: Env)
    requires m != Networks && WellKeyed(s.cache) && ConservedOn(m, s)
    requires Total(m, Handle(s, r, env).0.cache) < LIMIT
    ensures ConservedOn(m, Handle(s, r, env).0) <==> HandleSound(m, s, r, env)
  {
    if r.Expired(env.now) || r.toDelete {
      DecommissionConserves(m, s, r, env);
    } else if r.id !in s.recent {
      ProvisionConserves(m, s.(recent := s.recent + {r.id}), r, env);
    }
  }

  /** A reservation decommissioned from the cache subtracts exactly what it had added. */
  lemma DecommissionCachedConserves(m: Meter, s: EngineState, id: Id, env: Env)
    requires WellKeyed(s.cache) && ConservedOn(m, s)
    ensures ConservedOn(m, DecommissionCached(s, id, env).0)
  {
    var r := Get(s.cache, id, env);
    if r.Some? {
      DecommissionConserves(m, s, r.value, env);
      TotalDrop(m, s.cache, id);
    }
  }

  lemma HandleKeepsKeys(s: EngineState, r: Reservation, env: Env)
    requires WellKeyed(s.cache)
    ensures WellKeyed(Handle(s, r, env).0.cache)
  {
    if !r.Expired(env.now) && !r.toDelete && r.id !in s.recent {
      var marked := s.(recent := s.recent + {r.id});
      MigratedCache(marked, r, env);
      ProvisionNewKeepsKeys(Migrate(marked, r, env).0, r, env);
    }
  }

  lemma ProvisionNewKeepsKeys(s: EngineState, r: Reservation, env: Env)
    requires WellKeyed(s.cache)
    ensures WellKeyed(ProvisionNew(s, r, env).0.cache)
  {
  }
}
