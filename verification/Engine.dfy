/**
The provision engine as a state machine over values
(pkg/provision/engine.go:158-479, 610-649).

The outcome of every call the engine makes into other code (provisioners, the
explorer, the disk behind the reservation cache, the kernel) is part of the
environment `Env` of a step; the engine's own branches are all here.
*/
module Engine {
  import opened Options
  import opened U64
  import opened Primitives
  import opened Counters
  import opened NodeMemory

  type Cache = map<Id, Reservation>

  datatype Event =
    | Deployed(id: Id)    // the provisioner of `id` succeeded
    | Added(id: Id)       // `id` entered the cache
    | Removed(id: Id)     // `id` left the cache
    | Purged(ids: set<Id>) // a restart dropped these from the cache

  datatype EngineState = EngineState(
    cache: Cache,
    tally: Tally,
    recent: set<Id>,      // the in-memory guard against double processing
    reserved: u64,
    log: seq<Event>,
    running: Cache)       // the workloads on the node, each under the reservation it belongs to

  datatype Env = Env(
    now: int,
    memory: Option<MemStats>,
    provisioners: set<Kind>,
    decommissioners: set<Kind>,
    unreadable: set<Id>,  // cached files that do not decode
    deploys: bool,        // the provisioner succeeds
    encodes: bool,        // the result of the provisioner can be encoded
    undeploys: bool,      // the decommissioner succeeds
    stats: bool,          // the cache file can be examined
    adds: bool,           // a new cache file can be written
    removes: bool,        // a cache file can be removed
    lists: bool,          // the cache and its networks can be read
    replies: bool,        // signing and sending a result succeeds
    marks: bool,          // the explorer accepts the deleted mark
    networkId: (string, string) -> string)

  datatype Outcome = Done | Failed | Crashed

  function Get(cache: Cache, id: Id, env: Env): Option<Reservation> {
    if id in cache && id !in env.unreadable then Some(cache[id]) else None
  }

  /** Adding refuses an id that is already there. */
  predicate CanAdd(cache: Cache, id: Id, env: Env) {
    id !in cache && env.adds
  }

  function Store(s: EngineState, r: Reservation): EngineState {
    s.(cache := s.cache[r.id := r], log := s.log + [Added(r.id)])
  }

  function Drop(s: EngineState, id: Id): EngineState {
    s.(cache := s.cache - {id}, log := if id in s.cache then s.log + [Removed(id)] else s.log)
  }

  /** The cached reservation that `r` migrates, when `r` refers to one. */
  function Migrates(cache: Cache, r: Reservation, env: Env): Option<Reservation> {
    var prev := Get(cache, r.reference, env);
    if r.reference != "" && prev.Some? && prev.value.id == r.reference then prev else None
  }

  predicate MigrationRefused(prev: Reservation, r: Reservation) {
    prev.kind != Network && prev.data.raw != r.data.raw
  }

  function Migrate(s: EngineState, r: Reservation, env: Env): (EngineState, Outcome) {
    var prev := Migrates(s.cache, r, env);
    if prev.None? then (s, Done)
    else if MigrationRefused(prev.value, r) || !env.removes then (s, Failed)
    else
      var s1 := Drop(s, prev.value.id);
      if !CanAdd(s1.cache, r.id, env) then (s1, Failed)
      else (Rehosted(Store(s1, r), prev.value.id, r.id), if env.replies then Done else Failed)
  }

  /** A migrated workload keeps running and belongs to the new reservation. */
  function Rehosted(s: EngineState, from: Id, to: Id): EngineState {
    if from in s.running then s.(running := (s.running - {from})[to := s.running[from]]) else s
  }

  /** The checks before a workload is deployed, and the deployment itself. */
  predicate Deploys(s: EngineState, r: Reservation, env: Env) {
    && r.kind in env.provisioners
    && env.memory.Some?
    && MemoryFits(r, Usable(env.memory.value, s.reserved, s.tally.mru))
    && env.deploys
  }

  /** Only cached reservations of the legacy network kind are compared. */
  ghost predicate NetworkExists(cache: Cache, id: string, env: Env) {
    exists k :: k in cache && cache[k].kind == Network && cache[k].data.network.Good?
             && env.networkId(cache[k].user, cache[k].data.network.value) == id
  }

  /** A network resource is counted only when its network is not known yet. */
  ghost predicate SkipsCounting(cache: Cache, r: Reservation, env: Env) {
    && r.kind == NetworkResource
    && (|| r.data.network.Bad?
        || !env.lists
        || NetworkExists(cache, env.networkId(r.user, r.data.network.value), env))
  }

  ghost function CacheAndCount(s: EngineState, r: Reservation, env: Env): (EngineState, Outcome) {
    if !CanAdd(s.cache, r.id, env) then (s, Failed)
    else
      var s1 := Store(s, r.(state := StateOk));
      if SkipsCounting(s1.cache, r, env)
      then (s1, if r.data.network.Bad? || !env.lists then Failed else Done)
      else (s1.(tally := Increased(s1.tally, r)), Done)
  }

  function Started(s: EngineState, r: Reservation): EngineState {
    s.(log := s.log + [Deployed(r.id)], running := s.running[r.id := r])
  }

  ghost function ProvisionNew(s: EngineState, r: Reservation, env: Env): (EngineState, Outcome) {
    if !Deploys(s, r, env) then (s, Failed)
    else
      var s1 := Started(s, r);
      if !env.encodes then (s1, Crashed) else CacheAndCount(s1, r, env)
  }

  ghost function Provision(s: EngineState, r: Reservation, env: Env): (EngineState, Outcome) {
    if !r.Valid(env.now) then (s, Failed)
    else
      var (s1, o) := Migrate(s, r, env);
      if o != Done then (s1, o)
      else if Get(s1.cache, r.id, env).Some? then (s1, Done)
      else ProvisionNew(s1, r, env)
  }

  function Decommission(s: EngineState, r: Reservation, env: Env): (EngineState, Outcome) {
    if !env.stats then (s, Failed)
    else if r.id !in s.cache then (s, Done)
    else if r.state == StateError then (s, Done)
    else if r.kind in env.decommissioners && !env.undeploys then (s, Failed)
    else if !env.removes then (Ended(s, r, env), Failed)
    else (Drop(Ended(s, r, env), r.id).(tally := Decreased(s.tally, r)), if env.marks then Done else Failed)
  }

  /** Without a decommissioner for its type the workload stays where it is. */
  function Ended(s: EngineState, r: Reservation, env: Env): EngineState {
    if r.kind in env.decommissioners then s.(running := s.running - {r.id}) else s
  }

  function DecommissionCached(s: EngineState, id: Id, env: Env): (EngineState, Outcome) {
    var r := Get(s.cache, id, env);
    if r.None? then (s, Failed)
    else (Decommission(s, r.value, env).0, if env.replies then Done else Failed)
  }

  /** One job taken from the reservation source. */
  ghost function Handle(s: EngineState, r: Reservation, env: Env): (EngineState, Outcome) {
    if r.Expired(env.now) || r.toDelete then Decommission(s, r, env)
    else if r.id in s.recent then (s, Done)
    else Provision(s.(recent := s.recent + {r.id}), r, env)
  }
}
