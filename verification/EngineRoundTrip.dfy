/**
What a decommission undoes: a workload that is deployed and decommissioned
leaves the engine as it was (pkg/provision/engine.go:256-479).
*/
module EngineRoundTrip {
  import opened Options
  import opened U64
  import opened Primitives
  import opened Counters
  import opened NodeMemory
  import opened Engine
  import opened Conservation
  import opened ReservationCache

  /** It has a duration and a time of creation, has not run out, and is not to be deleted. */
  predicate IsDue(r: Reservation, now: int) {
    r.duration > 0 && r.created != 0 && now <= r.created + r.duration && !r.toDelete
  }

  /** It does not refer to a cached reservation that can be read and is filed under its own id. */
  predicate RefersToNothing(s: EngineState, r: Reservation, env: Env) {
    || r.reference == "" || r.reference !in s.cache || r.reference in env.unreadable
    || s.cache[r.reference].id != r.reference
  }

  /** A valid reservation that the engine has not seen, under an id that nothing uses. */
  ghost predicate IsNew(s: EngineState, r: Reservation, env: Env) {
    && IsDue(r, env.now)
    && r.id !in s.recent && r.id !in s.cache && r.id !in s.running
    && RefersToNothing(s, r, env) && r.kind != Network && r.kind != NetworkResource
  }

  /** Its type is known, what takes memory decodes and takes no more than is usable, and the provisioner succeeds. */
  predicate Starts(s: EngineState, r: Reservation, env: Env) {
    && r.kind in env.provisioners && env.memory.Some? && env.deploys
    && (r.kind == Container ==> r.data.container.Good?)
    && (r.kind == Kubernetes ==> r.data.kubernetes.Good?)
    && (r.kind == VirtualMachine ==> r.data.vm.Good?)
    && Contribution(Mru, r) <= Usable(env.memory.value, s.reserved, s.tally.mru)
  }

  /** It starts, and its result can be encoded and written to the cache. */
  predicate DeployWorks(s: EngineState, r: Reservation, env: Env) {
    Starts(s, r, env) && env.encodes && env.adds
  }

  /** Everything the engine calls while it decommissions succeeds, and it can end the workload. */
  predicate DecommissionWorks(r: Reservation, env: Env) {
    && r.id !in env.unreadable && r.kind in env.decommissioners
    && env.stats && env.undeploys && env.removes && env.replies && env.marks
  }

  /** The workload as it was asked for, deployed and counted. */
  ghost predicate IsHosted(s: EngineState, r: Reservation, t: EngineState) {
    && t.cache.Keys == s.cache.Keys + {r.id} && t.running.Keys == s.running.Keys + {r.id}
    && (forall k :: k in s.cache ==> t.cache[k] == s.cache[k])
    && (forall k :: k in s.running ==> t.running[k] == s.running[k])
    && t.cache[r.id].id == r.id && t.cache[r.id].user == r.user && t.cache[r.id].kind == r.kind
    && t.cache[r.id].data == r.data && t.running[r.id] == r
    && t.cache[r.id].created == r.created && t.cache[r.id].duration == r.duration && t.cache[r.id].state == StateOk
    && (forall m: Meter :: t.tally.At(m) == Add(s.tally.At(m), Contribution(m, r)))
  }

  /** A new workload, when everything works, is deployed, cached as ok and counted, and nothing else changes. */
  lemma NewIsHosted(s: EngineState, r: Reservation, env: Env)
    requires IsNew(s, r, env) && DeployWorks(s, r, env)
    ensures
      var (t, outcome) := Handle(s, r, env);
      && outcome == Done && IsHosted(s, r, t)
      && t.recent == s.recent + {r.id} && t.reserved == s.reserved
      && r.id in CountedPart(t.cache, env.now)
  {
    forall m: Meter ensures Increased(s.tally, r).At(m) == Add(s.tally.At(m), Contribution(m, r)) {
      IncreasedAt(s.tally, r, m);
    }
  }

  /** Ending a hosted workload gives back what it took. */
  lemma HostedIsUndone(s: EngineState, r: Reservation, t: EngineState, d: Reservation, env: Env)
    requires r.id !in s.cache && r.id !in s.running && IsHosted(s, r, t)
    requires d.id == r.id && d.kind == r.kind && d.data == r.data && d.state != StateError && DecommissionWorks(d, env)
    ensures
      var (u, outcome) := Decommission(t, d, env);
      && outcome == Done && u.cache == s.cache && u.running == s.running
      && u.recent == t.recent && u.reserved == t.reserved
      && (forall m: Meter :: u.tally.At(m) == s.tally.At(m) <==> s.tally.At(m) + Contribution(m, r) < LIMIT)
  {
    assert t.cache - {r.id} == s.cache && t.running - {r.id} == s.running;
    forall m: Meter
      ensures Decreased(t.tally, d).At(m) == s.tally.At(m) <==> s.tally.At(m) + Contribution(m, r) < LIMIT
    {
      DecreasedAt(t.tally, d, m);
      SameWorkloadSameContribution(m, d, r);
    }
  }

  /**
   * Deploying and decommissioning by id: cache and running workloads are those before, and each counter is,
   * if and only if the addition did not pass 2^64.
   */
  lemma DecommissionUndoesProvision(s: EngineState, r: Reservation, env: Env, later: Env)
    requires IsNew(s, r, env) && DeployWorks(s, r, env) && DecommissionWorks(r, later)
    ensures
      var t := Handle(s, r, env).0;
      var (u, outcome) := DecommissionCached(t, r.id, later);
      && outcome == Done && u.cache == s.cache && u.running == s.running
      && (forall m: Meter :: u.tally.At(m) == s.tally.At(m) <==> s.tally.At(m) + Contribution(m, r) < LIMIT)
  {
    NewIsHosted(s, r, env);
    var t := Handle(s, r, env).0;
    HostedIsUndone(s, r, t, t.cache[r.id], later);
  }

  /** The same when the explorer asks for the deletion. */
  lemma DeletionUndoesProvision(s: EngineState, r: Reservation, env: Env, d: Reservation, later: Env)
    requires IsNew(s, r, env) && DeployWorks(s, r, env)
    requires d.id == r.id && d.kind == r.kind && d.data == r.data && d.state != StateError
    requires (d.toDelete || later.now > d.created + d.duration) && DecommissionWorks(d, later)
    ensures
      var t := Handle(s, r, env).0;
      var (u, outcome) := Handle(t, d, later);
      && outcome == Done && u.cache == s.cache && u.running == s.running
      && (forall m: Meter :: u.tally.At(m) == s.tally.At(m) <==> s.tally.At(m) + Contribution(m, r) < LIMIT)
  {
    NewIsHosted(s, r, env);
    HostedIsUndone(s, r, Handle(s, r, env).0, d, later);
  }

  /** A job that refers to a cached reservation. */
  ghost predicate RefersTo(s: EngineState, r: Reservation, env: Env, from: Id) {
    && IsDue(r, env.now) && r.id !in s.recent
    && from != "" && r.reference == from && from in s.cache && from !in env.unreadable && s.cache[from].id == from
  }

  /**
   * A migration: the new reservation takes the place of the old one, the workload goes on under its id, and no
   * counter changes.
   */
  lemma MigrationMovesWorkload(s: EngineState, r: Reservation, env: Env, from: Id)
    requires RefersTo(s, r, env, from) && (s.cache[from].kind == Network || s.cache[from].data.raw == r.data.raw)
    requires r.id !in s.cache && r.id !in env.unreadable && env.removes && env.adds
    ensures
      var (t, outcome) := Handle(s, r, env);
      && outcome == (if env.replies then Done else Failed) && t.tally == s.tally && t.reserved == s.reserved
      && t.cache.Keys == s.cache.Keys - {from} + {r.id} && t.cache[r.id] == r
      && (forall k :: k in s.cache && k != from ==> t.cache[k] == s.cache[k])
      && (from in s.running ==>
            && t.running.Keys == s.running.Keys - {from} + {r.id} && t.running[r.id] == s.running[from]
            && (forall k :: k in s.running && k != from && k != r.id ==> t.running[k] == s.running[k]))
      && (from !in s.running ==> t.running == s.running)
  {
    var seen := s.(recent := s.recent + {r.id});
    assert Migrates(seen.cache, r, env) == Some(s.cache[from]);
    assert Migrate(seen, r, env).0.cache == (s.cache - {from})[r.id := r];
  }

  /** Other data refuse it, with nothing but the id remembered. */
  lemma MigrationOfOtherDataIsRefused(s: EngineState, r: Reservation, env: Env, from: Id)
    requires RefersTo(s, r, env, from) && s.cache[from].kind != Network && s.cache[from].data.raw != r.data.raw
    ensures Handle(s, r, env) == (s.(recent := s.recent + {r.id}), Failed)
  {
    assert Migrates(s.cache, r, env) == Some(s.cache[from]);
  }

  /** A job for a reservation that is cached and can be read changes nothing. */
  lemma CachedIsLeftAlone(s: EngineState, r: Reservation, env: Env)
    requires IsDue(r, env.now) && r.id !in s.recent && r.id in s.cache && r.id !in env.unreadable && RefersToNothing(s, r, env)
    ensures Handle(s, r, env) == (s.(recent := s.recent + {r.id}), Done)
  {
  }

  /** A job that was handled is not handled again while its id is remembered. */
  lemma RepeatedJobIsIgnored(s: EngineState, r: Reservation, env: Env, again: Reservation, later: Env)
    requires env.now <= r.created + r.duration && !r.toDelete
    requires again.id == r.id && later.now <= again.created + again.duration && !again.toDelete
    ensures
      var t := Handle(s, r, env).0;
      Handle(t, again, later) == (t, Done)
  {
    var seen := s.(recent := s.recent + {r.id});
    KeepsRecent(seen, r, env);
  }

  lemma KeepsRecent(s: EngineState, r: Reservation, env: Env)
    ensures Provision(s, r, env).0.recent == s.recent
  {
    var t := Migrate(s, r, env).0;
    assert t.recent == s.recent;
  }

  // ---------------------------------------------------------------- what does not go through

  /**
   * A new reservation, whatever fails: it runs if and only if it starts, it is cached if and only if its result can
   * be encoded and written as well, and what is not cached is not counted.
   */
  lemma NewIsCachedIff(s: EngineState, r: Reservation, env: Env)
    requires IsNew(s, r, env)
    ensures
      var (t, outcome) := Handle(s, r, env);
      && (r.id in t.running <==> Starts(s, r, env))
      && (r.id in t.cache <==> Starts(s, r, env) && env.encodes && env.adds)
      && outcome == (if r.id in t.cache then Done else if Starts(s, r, env) && !env.encodes then Crashed else Failed)
      && (r.id !in t.cache ==> t.cache == s.cache && t.tally == s.tally)
      && (r.id !in t.running ==> t == s.(recent := s.recent + {r.id}))
  {
  }

  /** An invalid reservation is refused, whatever the rest. */
  lemma InvalidIsRefused(s: EngineState, r: Reservation, env: Env)
    requires env.now <= r.created + r.duration && !r.toDelete && r.id !in s.recent && (r.duration <= 0 || r.created == 0)
    ensures Handle(s, r, env) == (s.(recent := s.recent + {r.id}), Failed)
  {
  }

  /** Decommissioning by id fails exactly when the cached copy cannot be read or the reply cannot be sent. */
  lemma DecommissionCachedIff(s: EngineState, id: Id, env: Env)
    requires WellKeyed(s.cache)
    ensures
      var (t, outcome) := DecommissionCached(s, id, env);
      && (outcome == Done <==> id in s.cache && id !in env.unreadable && env.replies)
      && (id in s.cache && id !in t.cache <==>
            && id in s.cache && id !in env.unreadable && s.cache[id].state != StateError
            && env.stats && env.removes && (s.cache[id].kind in env.decommissioners ==> env.undeploys))
  {
  }

  /** A decommission fails exactly when a command it needs does; marking it deleted at the explorer is the last of them. */
  lemma DecommissionDoneIff(s: EngineState, r: Reservation, env: Env)
    ensures Decommission(s, r, env).1 == Done <==>
      && env.stats
      && (r.id in s.cache && r.state != StateError ==>
            (r.kind in env.decommissioners ==> env.undeploys) && env.removes && env.marks)
    ensures Decommission(s, r, env).1 != Crashed
  {
  }

  // ---------------------------------------------------------------- networks

  /** Some cached reservation of the older network type describes the same network. */
  ghost predicate KnownNetwork(cache: Cache, network: string, networkId: (string, string) -> string) {
    exists k :: k in cache && cache[k].kind == Network && cache[k].data.network.Good?
             && networkId(cache[k].user, cache[k].data.network.value) == network
  }

  /**
   * A new network resource, when everything works, raises the count of networks by one if and only if no cached
   * reservation of the older type is of the same network; no other counter changes.
   */
  lemma NetworkIsCountedIff(s: EngineState, r: Reservation, env: Env)
    requires IsDue(r, env.now) && r.id !in s.recent && r.id !in s.cache
    requires RefersToNothing(s, r, env) && r.kind == NetworkResource && r.data.network.Good?
    requires DeployWorks(s, r, env) && env.lists
    ensures
      var (t, outcome) := Handle(s, r, env);
      var known := KnownNetwork(s.cache, env.networkId(r.user, r.data.network.value), env.networkId);
      && outcome == Done && r.id in t.cache
      && t.tally == if known then s.tally else s.tally.(networks := Add(s.tally.networks, 1))
  {
    var seen := s.(recent := s.recent + {r.id});
    var stored := Store(Started(seen, r), r.(state := StateOk));
    var network := env.networkId(r.user, r.data.network.value);
    StoredIsNotKnown(s.cache, r.(state := StateOk), network, env);
    assert Handle(s, r, env) == CacheAndCount(Started(seen, r), r, env);
    if !NetworkExists(stored.cache, network, env) {
      assert Increased(s.tally, r) == s.tally.(networks := Add(s.tally.networks, 1));
    }
  }

  /** One whose network cannot be told, or looked up, is cached and not counted, and the job fails. */
  lemma UncheckedNetworkFails(s: EngineState, r: Reservation, env: Env)
    requires IsDue(r, env.now) && r.id !in s.recent && r.id !in s.cache
    requires RefersToNothing(s, r, env) && r.kind == NetworkResource
    requires DeployWorks(s, r, env) && (r.data.network.Bad? || !env.lists)
    ensures
      var (t, outcome) := Handle(s, r, env);
      outcome == Failed && r.id in t.cache && t.tally == s.tally
  {
  }

  lemma StoredIsNotKnown(cache: Cache, r: Reservation, network: string, env: Env)
    requires r.id !in cache && r.kind == NetworkResource
    ensures NetworkExists(cache[r.id := r], network, env) <==> KnownNetwork(cache, network, env.networkId)
  {
    assert forall k :: k in cache ==> cache[r.id := r][k] == cache[k];
  }
}
