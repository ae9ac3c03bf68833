/**
The reservation cache on disk and the rebuilding of the counters from it
(pkg/provision/primitives/cache/cache.go:111-213, 254-380).
The directory of files is a map from file names to reservations.
*/
module ReservationCache {
  import opened U64
  import opened Primitives
  import C = Counters
  import opened Engine
  import opened Conservation

  /** Reservations that take part in the rebuilding of the counters. */
  predicate Counts(r: Reservation, now: int) {
    !r.Expired(now) && r.state == StateOk
  }

  predicate IsNetwork(r: Reservation) {
    r.kind == Network || r.kind == NetworkResource
  }

  function CountedPart(cache: Cache, now: int): Cache {
    map k | k in cache && Counts(cache[k], now) :: cache[k]
  }

  function SkippedPart(cache: Cache, now: int): Cache {
    map k | k in cache && !Counts(cache[k], now) :: cache[k]
  }

  /** Only volumes survive the first start after a reboot. */
  function PersistentPart(cache: Cache): Cache {
    map k | k in cache && cache[k].kind == Volume :: cache[k]
  }

  /** Files of the cache that are empty, and others whose reservation cannot be read. */
  datatype Files = Files(empty: set<Id>, unreadable: set<Id>)

  predicate Intact(files: Files, k: Id) {
    k !in files.empty && k !in files.unreadable
  }

  /** What is left of the cache when the daemon has started. */
  function Kept(cache: Cache, firstBoot: bool, files: Files): Cache {
    if firstBoot then PersistentPart(cache - files.empty) else cache
  }

  ghost predicate PartOf(part: Cache, cache: Cache) {
    forall k :: k in part ==> k in cache && cache[k] == part[k]
  }

  /** The distinct identities of the networks in the cache. */
  function NetworkIds(cache: Cache, networkId: (string, string) -> string): set<string> {
    set k | k in cache && IsNetwork(cache[k]) && cache[k].data.network.Good?
          :: networkId(cache[k].user, cache[k].data.network.value)
  }

  /** Everything that is counted decodes. */
  predicate Decodes(r: Reservation) {
    if IsNetwork(r) then r.data.network.Good? else UnitsOf(r).Good?
  }

  /** Nothing in the cache stops the counting. */
  ghost predicate CanSync(cache: Cache, now: int, files: Files) {
    && (forall k :: k in cache ==> Intact(files, k))
    && (forall k :: k in CountedPart(cache, now) ==> Decodes(cache[k]))
  }

  /** A reservation that is left after the first start since a reboot. */
  predicate Survives(r: Reservation, k: Id, files: Files) {
    k !in files.empty && r.kind == Volume
  }

  /** What a restart counts: what is in the cache, has not run out and was deployed without an error. */
  lemma CountedIff(cache: Cache, now: int, k: Id)
    ensures k in CountedPart(cache, now) <==>
      k in cache && now <= cache[k].created + cache[k].duration && cache[k].state == StateOk
    ensures k in CountedPart(cache, now) ==> CountedPart(cache, now)[k] == cache[k]
  {
  }

  /** What it finds in the cache: everything, or after a reboot the volumes whose files are not empty. */
  lemma KeptIff(cache: Cache, firstBoot: bool, files: Files, k: Id)
    ensures k in Kept(cache, firstBoot, files) <==>
      k in cache && (firstBoot ==> cache[k].kind == Volume && k !in files.empty)
    ensures k in Kept(cache, firstBoot, files) ==> Kept(cache, firstBoot, files)[k] == cache[k]
  {
  }

  /** The networks it counts: those of both types, told apart by user and name. */
  lemma NetworkIdsIff(cache: Cache, networkId: (string, string) -> string, id: string)
    ensures id in NetworkIds(cache, networkId) <==>
      exists k :: k in cache && cache[k].kind in {Network, NetworkResource} && cache[k].data.network.Good?
               && networkId(cache[k].user, cache[k].data.network.value) == id
  {
  }

  /** The unit and workload counters, networks aside, have grown by the totals of `seen`. */
  ghost predicate CountedSoFar(was: C.Tally, seen: Cache, tally: C.Tally) {
    forall m: Meter :: m != Networks ==> tally.At(m) == Wrap(was.At(m) + Total(m, seen))
  }

  ghost predicate Synced(was: C.Tally, cache: Cache, networkId: (string, string) -> string, tally: C.Tally) {
    && CountedSoFar(was, cache, tally)
    && tally.networks == Wrap(was.networks + |NetworkIds(cache, networkId)|)
  }

  class Fs {
    var entries: Cache

    constructor ()
      ensures entries == map[]
    {
      entries := map[];
    }

    method Add(r: Reservation, writable: bool) returns (ok: bool)
      modifies this
      ensures ok <==> r.id !in old(entries) && writable
      ensures entries == if ok then old(entries)[r.id := r] else old(entries)
    {
      if r.id in entries || !writable { return false; }
      entries := entries[r.id := r];
      return true;
    }

    method Remove(id: Id, removable: bool) returns (ok: bool)
      modifies this
      ensures ok <==> removable || id !in old(entries)
      ensures entries == if ok then old(entries) - {id} else old(entries)
    {
      if id !in entries { return true; }
      if !removable { return false; }
      entries := entries - {id};
      return true;
    }

    /**
     * Removes every reservation that does not outlive a reboot, and empty files.  It stops at a file
     * that cannot be read; no volume with a file that can is ever removed.
     */
    method RemoveAllButPersistent(files: Files) returns (ok: bool)
      modifies this
      ensures ok <==> forall k :: k in old(entries) ==> k in files.empty || k !in files.unreadable
      ensures ok ==> entries == PersistentPart(old(entries) - files.empty)
      ensures PartOf(entries, old(entries)) && PartOf(PersistentPart(old(entries) - files.empty), entries)
    {
      var keys := entries.Keys;
      while keys != {}
        invariant keys <= old(entries).Keys
        invariant forall k :: k in old(entries) ==> (k in entries <==> k in keys || Survives(old(entries)[k], k, files))
        invariant PartOf(entries, old(entries))
        invariant forall k :: k in old(entries) && k !in keys ==> k in files.empty || k !in files.unreadable
        decreases |keys|
      {
        var k :| k in keys;
        if k in files.empty {
          entries := entries - {k};
        } else if k in files.unreadable {
          return false;
        } else if entries[k].kind != Volume {
          entries := entries - {k};
        }
        keys := keys - {k};
      }
      return true;
    }

    /**
     * Counts every reservation of the cache that is deployed and not expired, and every network
     * identity once.  It stops at the first reservation that does not decode; `part` is what has been
     * counted by then, the reservation it stopped at included.
     */
    method Sync(statser: C.Counters, now: int, files: Files, networkId: (string, string) -> string)
      returns (ok: bool, ghost part: Cache)
      modifies statser
      ensures ok <==> CanSync(entries, now, files)
      ensures ok ==> Synced(old(statser.Reading()), CountedPart(entries, now), networkId, statser.Reading())
      ensures PartOf(part, CountedPart(entries, now)) && CountedSoFar(old(statser.Reading()), part, statser.Reading())
      ensures ok ==> part == CountedPart(entries, now)
      ensures !ok ==> statser.Reading().networks == old(statser.Reading()).networks
    {
      var readable := ListReadable(files);
      part := map[];
      ProgressStart(statser.Reading(), networkId);
      if !readable { return false, part; }
      var unique;
      ok, unique, part := CountAll(statser, now, networkId);
      if ok {
        ProgressComplete(old(statser.Reading()), CountedPart(entries, now), networkId, unique, statser.Reading());
        CountNetworks(statser, unique);
      }
    }

    /** Listing the cache fails on the first file that cannot be read. */
    method ListReadable(files: Files) returns (ok: bool)
      ensures ok <==> forall k :: k in entries ==> Intact(files, k)
    {
      var keys := entries.Keys;
      while keys != {}
        invariant keys <= entries.Keys
        invariant forall k :: k in entries && k !in keys ==> Intact(files, k)
        decreases |keys|
      {
        var k :| k in keys;
        if !Intact(files, k) { return false; }
        keys := keys - {k};
      }
      return true;
    }

    method CountAll(statser: C.Counters, now: int, networkId: (string, string) -> string)
      returns (ok: bool, unique: map<string, Reservation>, ghost part: Cache)
      modifies statser
      ensures PartOf(part, CountedPart(entries, now)) && CountedSoFar(old(statser.Reading()), part, statser.Reading())
      ensures ok ==> part == CountedPart(entries, now)
      ensures statser.Reading().networks == old(statser.Reading()).networks
      ensures ok <==> forall k :: k in CountedPart(entries, now) ==> Decodes(entries[k])
      ensures ok ==> Progress(old(statser.Reading()), CountedPart(entries, now), networkId, unique, statser.Reading())
    {
      unique := map[];
      var keys := entries.Keys;
      ghost var was, seen: Cache := statser.Reading(), map[];
      ProgressStart(was, networkId);
      while keys != {}
        invariant keys <= entries.Keys
        invariant seen == CountedPart(entries - keys, now)
        invariant Progress(was, seen, networkId, unique, statser.Reading())
        decreases |keys|
      {
        var k :| k in keys;
        ExtendCounted(entries, keys, k, now);
        keys := keys - {k};
        var r := entries[k];
        if Counts(r, now) {
          ok, unique := CountOrDefer(statser, r, unique, networkId, was, seen, k);
          if !ok {
            assert k in CountedPart(entries, now);
            part := seen[k := r];
            return;
          }
          seen := seen[k := r];
        }
      }
      assert entries - keys == entries;
      ok, part := true, seen;
    }
  }

  /** How far the counting has come after the reservations of `seen`. */
  ghost predicate Progress(was: C.Tally, seen: Cache, networkId: (string, string) -> string,
                           unique: map<string, Reservation>, tally: C.Tally)
  {
    && CountedSoFar(was, seen, tally)
    && tally.networks == was.networks
    && unique.Keys == NetworkIds(seen, networkId)
    && (forall n :: n in unique ==> IsNetwork(unique[n]))
    && (forall k :: k in seen ==> Decodes(seen[k]))
  }

  /** Counts one reservation at once, or remembers its network for later. */
  method CountOrDefer(statser: C.Counters, r: Reservation, unique: map<string, Reservation>,
                      networkId: (string, string) -> string,
                      ghost was: C.Tally, ghost seen: Cache, ghost k: Id)
    returns (ok: bool, unique': map<string, Reservation>)
    requires k !in seen && Progress(was, seen, networkId, unique, statser.Reading())
    modifies statser
    ensures ok <==> Decodes(r)
    ensures CountedSoFar(was, seen[k := r], statser.Reading()) && statser.Reading().networks == was.networks
    ensures ok ==> Progress(was, seen[k := r], networkId, unique', statser.Reading())
  {
    unique' := unique;
    if IsNetwork(r) {
      SkipNetwork(was, seen, k, r, statser.Reading());
      if r.data.network.Bad? { return false, unique; }
      var n := networkId(r.user, r.data.network.value);
      NetworkIdsStore(seen, k, r, networkId);
      if n !in unique { unique' := unique[n := r]; }
      ok := true;
    } else {
      NetworkIdsKeep(seen, k, r, networkId);
      CountOne(was, seen, k, r, statser.Reading());
      ok := statser.Increment(r);
    }
  }

  lemma ProgressStart(was: C.Tally, networkId: (string, string) -> string)
    ensures Progress(was, map[], networkId, map[], was)
  {
    NothingCounted(was);
  }

  lemma NothingCounted(was: C.Tally)
    ensures CountedSoFar(was, map[], was)
  {
    forall m: Meter | m != Networks ensures was.At(m) == Wrap(was.At(m) + Total(m, map[])) {
      assert Total(m, map[]) == 0;
    }
  }

  lemma ProgressComplete(was: C.Tally, seen: Cache, networkId: (string, string) -> string,
                         unique: map<string, Reservation>, tally: C.Tally)
    requires Progress(was, seen, networkId, unique, tally)
    ensures Synced(was, seen, networkId, WithNetworks(tally, |unique.Keys|))
  {
    NetworksAdded(was, seen, tally, |unique.Keys|);
  }

  lemma NetworksAdded(was: C.Tally, seen: Cache, tally: C.Tally, n: nat)
    requires CountedSoFar(was, seen, tally)
    ensures CountedSoFar(was, seen, WithNetworks(tally, n))
  {
    var t := WithNetworks(tally, n);
    forall m: Meter | m != Networks ensures t.At(m) == Wrap(was.At(m) + Total(m, seen)) {
      OthersKept(tally, n, m);
    }
  }

  lemma OthersKept(t: C.Tally, n: nat, m: Meter)
    requires m != Networks
    ensures WithNetworks(t, n).At(m) == t.At(m)
  {
  }

  function WithNetworks(t: C.Tally, n: nat): C.Tally {
    t.(networks := Wrap(t.networks + n))
  }

  lemma NetworkCountsOne(t: C.Tally, r: Reservation, n: nat)
    requires IsNetwork(r)
    ensures C.Increased(WithNetworks(t, n), r) == WithNetworks(t, n + 1)
  {
    AddWrap(t.networks + n, 1);
  }

  /** Counts every network that was put aside, once. */
  method CountNetworks(statser: C.Counters, unique: map<string, Reservation>)
    requires forall n :: n in unique ==> IsNetwork(unique[n])
    modifies statser
    ensures statser.Reading() == WithNetworks(old(statser.Reading()), |unique.Keys|)
  {
    var left := unique.Keys;
    ghost var was, count := statser.Reading(), 0;
    while left != {}
      invariant left <= unique.Keys
      invariant count == |unique.Keys| - |left|
      invariant statser.Reading() == WithNetworks(was, count)
      decreases |left|
    {
      var n :| n in left;
      NetworkCountsOne(was, unique[n], count);
      var _ := statser.Increment(unique[n]);
      left := left - {n};
      count := count + 1;
    }
  }

  lemma ExtendCounted(entries: Cache, keys: set<Id>, k: Id, now: int)
    requires k in keys && keys <= entries.Keys
    ensures CountedPart(entries - (keys - {k}), now)
         == if Counts(entries[k], now) then CountedPart(entries - keys, now)[k := entries[k]]
            else CountedPart(entries - keys, now)
    ensures k !in CountedPart(entries - keys, now)
  {
  }

  lemma NetworkIdsStore(seen: Cache, k: Id, r: Reservation, networkId: (string, string) -> string)
    requires k !in seen && IsNetwork(r) && r.data.network.Good?
    ensures NetworkIds(seen[k := r], networkId)
         == NetworkIds(seen, networkId) + {networkId(r.user, r.data.network.value)}
  {
    var all := seen[k := r];
    assert all[k] == r;
    forall j | j in seen ensures j in all && all[j] == seen[j] {
    }
  }

  lemma NetworkIdsKeep(seen: Cache, k: Id, r: Reservation, networkId: (string, string) -> string)
    requires k !in seen && !IsNetwork(r)
    ensures NetworkIds(seen[k := r], networkId) == NetworkIds(seen, networkId)
  {
    var all := seen[k := r];
    forall j | j in seen ensures j in all && all[j] == seen[j] {
    }
  }

  lemma NetworksWeighNothing(m: Meter, r: Reservation)
    requires IsNetwork(r) && m != Networks
    ensures Contribution(m, r) == 0
  {
  }

  lemma SkipNetwork(was: C.Tally, seen: Cache, k: Id, r: Reservation, tally: C.Tally)
    requires k !in seen && IsNetwork(r) && CountedSoFar(was, seen, tally)
    ensures CountedSoFar(was, seen[k := r], tally)
  {
    forall m: Meter | m != Networks ensures Total(m, seen[k := r]) == Total(m, seen) {
      NetworksWeighNothing(m, r);
      TotalStore(m, seen, k, r);
    }
  }

  ghost predicate Adds(tally: C.Tally, next: C.Tally, r: Reservation) {
    forall m: Meter :: next.At(m) == Add(tally.At(m), Contribution(m, r))
  }

  lemma IncreasedAdds(tally: C.Tally, r: Reservation)
    ensures Adds(tally, C.Increased(tally, r), r)
  {
    forall m: Meter ensures C.Increased(tally, r).At(m) == Add(tally.At(m), Contribution(m, r)) {
      C.IncreasedAt(tally, r, m);
    }
  }

  lemma CountOneAt(m: Meter, was: nat, seen: Cache, k: Id, r: Reservation, count: u64)
    requires k !in seen && count == Wrap(was + Total(m, seen))
    ensures Add(count, Contribution(m, r)) == Wrap(was + Total(m, seen[k := r]))
  {
    TotalStore(m, seen, k, r);
    AddWrap(was + Total(m, seen), Contribution(m, r));
  }

  lemma CountOneMore(was: C.Tally, seen: Cache, k: Id, r: Reservation, tally: C.Tally, next: C.Tally)
    requires k !in seen && CountedSoFar(was, seen, tally) && Adds(tally, next, r)
    ensures CountedSoFar(was, seen[k := r], next)
  {
    forall m: Meter | m != Networks ensures next.At(m) == Wrap(was.At(m) + Total(m, seen[k := r])) {
      assert next.At(m) == Add(tally.At(m), Contribution(m, r));
      CountOneAt(m, was.At(m), seen, k, r, tally.At(m));
    }
  }

  lemma CountOne(was: C.Tally, seen: Cache, k: Id, r: Reservation, tally: C.Tally)
    requires k !in seen && !IsNetwork(r) && CountedSoFar(was, seen, tally)
    ensures CountedSoFar(was, seen[k := r], C.Increased(tally, r))
    ensures C.Increased(tally, r).networks == tally.networks
  {
    IncreasedAdds(tally, r);
    CountOneMore(was, seen, k, r, tally, C.Increased(tally, r));
  }
}
