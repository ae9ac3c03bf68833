/**
Nothing is deployed twice: the order of deployments, additions to the cache
and removals from it, over whole runs.
*/
module DeployOnce {
  import opened Primitives
  import opened Engine
  import opened EngineRuns
  import opened U64
  import Counters

  /** Whether `id` is cached after one event, given whether it was before. */
  predicate CachedAfter(e: Event, id: Id, was: bool) {
    match e
    case Added(k) => k == id || was
    case Removed(k) => k != id && was
    case Purged(ids) => id !in ids && was
    case Deployed(_) => was
  }

  /** Whether `id` is in the cache after a log, read from the log alone. */
  ghost predicate InCacheAfter(log: seq<Event>, id: Id) {
    |log| != 0 && CachedAfter(log[|log| - 1], id, InCacheAfter(log[..|log| - 1], id))
  }

  /** The log tells exactly what is cached. */
  ghost predicate Tracks(s: EngineState) {
    forall id :: id in s.cache <==> InCacheAfter(s.log, id)
  }

  /** No reservation was ever deployed while it was cached. */
  ghost predicate NeverTwice(log: seq<Event>) {
    forall j :: 0 <= j < |log| && log[j].Deployed? ==> !InCacheAfter(log[..j], log[j].id)
  }

  ghost predicate Orderly(s: EngineState) {
    Tracks(s) && NeverTwice(s.log)
  }

  lemma Appended(log: seq<Event>, e: Event, id: Id)
    ensures InCacheAfter(log + [e], id) <==> CachedAfter(e, id, InCacheAfter(log, id))
  {
    assert (log + [e])[..|log|] == log;
  }

  lemma NeverTwiceExtends(log: seq<Event>, e: Event)
    requires NeverTwice(log)
    requires e.Deployed? ==> !InCacheAfter(log, e.id)
    ensures NeverTwice(log + [e])
  {
    var more := log + [e];
    forall j | 0 <= j < |more| && more[j].Deployed? ensures !InCacheAfter(more[..j], more[j].id) {
      assert more[..j] == log[..j];
      assert log[..|log|] == log;
    }
  }

  lemma StoreOrderly(s: EngineState, r: Reservation)
    requires Orderly(s)
    ensures Orderly(Store(s, r))
  {
    forall id ensures id in Store(s, r).cache <==> InCacheAfter(Store(s, r).log, id) {
      Appended(s.log, Added(r.id), id);
    }
    NeverTwiceExtends(s.log, Added(r.id));
  }

  lemma DropOrderly(s: EngineState, k: Id)
    requires Orderly(s)
    ensures Orderly(Drop(s, k))
  {
    if k in s.cache {
      forall id ensures id in Drop(s, k).cache <==> InCacheAfter(Drop(s, k).log, id) {
        Appended(s.log, Removed(k), id);
      }
      NeverTwiceExtends(s.log, Removed(k));
    }
  }

  /** Only the cache and the log matter for the order of events. */
  lemma SameCacheSameOrder(s: EngineState, t: EngineState)
    requires Orderly(s) && t.cache == s.cache && t.log == s.log
    ensures Orderly(t)
  {
  }

  lemma MigrateOrderly(s: EngineState, r: Reservation, env: Env)
    requires Orderly(s)
    ensures Orderly(Migrate(s, r, env).0)
  {
    DropOrderly(s, r.reference);
    StoreOrderly(Drop(s, r.reference), r);
    SameCacheSameOrder(Store(Drop(s, r.reference), r), Rehosted(Store(Drop(s, r.reference), r), r.reference, r.id));
  }

  lemma DeployOrderly(s: EngineState, r: Reservation)
    requires Orderly(s) && r.id !in s.cache
    ensures Orderly(Started(s, r))
  {
    forall id ensures id in s.cache <==> InCacheAfter(s.log + [Deployed(r.id)], id) {
      Appended(s.log, Deployed(r.id), id);
    }
    NeverTwiceExtends(s.log, Deployed(r.id));
  }

  lemma ProvisionNewOrderly(s: EngineState, r: Reservation, env: Env)
    requires Orderly(s) && r.id !in s.cache
    ensures Orderly(ProvisionNew(s, r, env).0)
  {
    if Deploys(s, r, env) {
      DeployOrderly(s, r);
      var s1 := Started(s, r);
      var s2 := Store(s1, r.(state := StateOk));
      StoreOrderly(s1, r.(state := StateOk));
      SameCacheSameOrder(s2, s2.(tally := Counters.Increased(s2.tally, r)));
    }
  }

  lemma DecommissionOrderly(s: EngineState, r: Reservation, env: Env)
    requires Orderly(s)
    ensures Orderly(Decommission(s, r, env).0)
  {
    var ended := Ended(s, r, env);
    SameCacheSameOrder(s, ended);
    DropOrderly(ended, r.id);
    SameCacheSameOrder(Drop(ended, r.id), Drop(ended, r.id).(tally := Counters.Decreased(s.tally, r)));
  }

  /** The cached copy of the reservation of a job can be read. */
  ghost predicate Readable(step: Step) {
    step.Job? ==> step.r.id !in step.env.unreadable
  }

  lemma ProvisionOrderly(s: EngineState, r: Reservation, env: Env)
    requires Orderly(s) && r.id !in env.unreadable
    ensures Orderly(Provision(s, r, env).0)
  {
    MigrateOrderly(s, r, env);
    var s1 := Migrate(s, r, env).0;
    if r.id !in s1.cache {
      ProvisionNewOrderly(s1, r, env);
    }
  }

  lemma RestartOrderly(s: EngineState, step: Step)
    requires Orderly(s) && step.Restart?
    ensures Orderly(Next(s, step))
  {
    var gone := s.cache.Keys - KeptBy(s, step).Keys;
    forall id ensures id in Next(s, step).cache <==> InCacheAfter(Next(s, step).log, id) {
      Appended(s.log, Purged(gone), id);
    }
    NeverTwiceExtends(s.log, Purged(gone));
  }

  lemma NextOrderly(s: EngineState, step: Step)
    requires Orderly(s) && Readable(step)
    ensures Orderly(Next(s, step))
  {
    match step
    case Job(r, env) =>
      DecommissionOrderly(s, r, env);
      var marked := s.(recent := s.recent + {r.id});
      SameCacheSameOrder(s, marked);
      ProvisionOrderly(marked, r, env);
    case External(id, env) =>
      if Get(s.cache, id, env).Some? { DecommissionOrderly(s, s.cache[id], env); }
    case Forget(ids) =>
      SameCacheSameOrder(s, Next(s, step));
    case Restart(_, _, _, _) =>
      RestartOrderly(s, step);
  }

  lemma {:induction false} RunOrderly(s: EngineState, reserved: u64, steps: seq<Step>)
    requires Initial(s, reserved)
    requires forall i :: 0 <= i < |steps| ==> Readable(steps[i])
    ensures Orderly(Run(s, steps))
    decreases |steps|
  {
    if |steps| != 0 {
      var n := |steps| - 1;
      RunOrderly(s, reserved, steps[..n]);
      NextOrderly(Run(s, steps[..n]), steps[n]);
    }
  }

  /** An added reservation stays cached until an event that takes it out. */
  lemma {:induction false} StaysCached(log: seq<Event>, id: Id, i: nat)
    requires i < |log| && log[i] == Added(id)
    requires forall k :: i < k < |log| ==> log[k] != Removed(id) && (log[k].Purged? ==> id !in log[k].ids)
    ensures InCacheAfter(log, id)
    decreases |log|
  {
    if i < |log| - 1 {
      StaysCached(log[..|log| - 1], id, i);
    }
  }

  /**
   * In every run that can read its cache, a reservation that entered the cache is deployed again
   * only after it has left the cache.
   */
  lemma DeployedOncePerStay(s: EngineState, reserved: u64, steps: seq<Step>, id: Id, i: nat, j: nat)
    requires Initial(s, reserved)
    requires forall k :: 0 <= k < |steps| ==> Readable(steps[k])
    requires i < j < |Run(s, steps).log|
    requires Run(s, steps).log[i] == Added(id) && Run(s, steps).log[j] == Deployed(id)
    ensures exists k :: i < k < j && (Run(s, steps).log[k] == Removed(id)
              || (Run(s, steps).log[k].Purged? && id in Run(s, steps).log[k].ids))
  {
    var log := Run(s, steps).log;
    RunOrderly(s, reserved, steps);
    if forall k :: i < k < j ==> log[k] != Removed(id) && (log[k].Purged? ==> id !in log[k].ids) {
      StaysCached(log[..j], id, i);
      assert false;
    }
  }

  /**
   * The guard against a second deployment is the readable copy in the cache: a valid job whose id is
   * cached, after the migration it may ask for, is deployed again exactly when the migration is done, the
   * copy cannot be read and the deployment succeeds.
   */
  lemma DeployedAgainIffUnreadable(s: EngineState, r: Reservation, env: Env)
    requires r.Valid(env.now) && r.id in Migrate(s, r, env).0.cache
    ensures
      var (s1, o) := Migrate(s, r, env);
      Provision(s, r, env).0.log == s1.log + [Deployed(r.id)]
      <==> o == Done && r.id in env.unreadable && Deploys(s1, r, env)
  {
    var s1 := Migrate(s, r, env).0;
    assert |s1.log + [Deployed(r.id)]| != |s1.log|;
  }
}
