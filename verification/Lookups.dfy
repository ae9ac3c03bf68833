/** Looking up volumes by name and listing them (pkg/storage/storage.go:415-499). */
module Lookups {
  import opened Storage
  import opened StorageInvariants
  import opened Zdb
  import opened StorageRuns

  const CACHE_LABEL := "zos-cache"
  const VDISK_VOLUME := "vdisks"

  function NamedIn(vs: seq<Subvolume>, name: string, j: nat): (k: nat)
    requires j <= |vs|
    ensures j <= k <= |vs|
    ensures k < |vs| ==> vs[k].name == name
    ensures forall l :: j <= l < k ==> vs[l].name != name
    decreases |vs| - j
  {
    if j == |vs| || vs[j].name == name then j else NamedIn(vs, name, j + 1)
  }

  /** The first mounted pool with a volume of that name. */
  function PathFrom(pools: seq<Pool>, i: nat, name: string, io: Io): Location
    requires i <= |pools|
    decreases |pools| - i
  {
    if i == |pools| then Missing
    else if !pools[i].mounted then PathFrom(pools, i + 1, name, io)
    else if i in io.list then Unlisted
    else
      var j := NamedIn(pools[i].volumes, name, 0);
      if j < |pools[i].volumes| then At(i, j) else PathFrom(pools, i + 1, name, io)
  }

  ghost predicate Named(pools: seq<Pool>, i: nat, j: nat, name: string) {
    i < |pools| && j < |pools[i].volumes| && pools[i].volumes[j].name == name
  }

  /** A name is reported missing exactly when no pool, mounted or not, has a volume of that name. */
  lemma {:induction false} PathIsExact(pools: seq<Pool>, i: nat, name: string, io: Io)
    requires AllOk(pools) && i <= |pools| && Listable(pools, ANY_KIND, io)
    ensures
      var l := PathFrom(pools, i, name, io);
      && l != Unlisted
      && (l == Missing <==> forall a, b :: i <= a ==> !Named(pools, a, b, name))
      && (l.At? ==>
            && i <= l.pool && Named(pools, l.pool, l.volume, name)
            && forall a, b :: i <= a && Before(a, b, l.pool, l.volume) ==> !Named(pools, a, b, name))
    decreases |pools| - i
  {
    if i < |pools| {
      PathIsExact(pools, i + 1, name, io);
      assert PoolOk(pools[i]);
      AnyKind(pools[i]);
      var l := PathFrom(pools, i, name, io);
      if l.At? {
        assert Named(pools, l.pool, l.volume, name);
      } else {
        forall b ensures !Named(pools, i, b, name) {
        }
      }
    }
  }

  predicate Special(v: Subvolume) {
    v.name == CACHE_LABEL || v.name == VDISK_VOLUME
  }

  /** The ordinary volumes of one pool, up to the `n`th. */
  function ListedIn(p: Pool, i: nat, n: nat): seq<(nat, nat)>
    requires n <= |p.volumes|
  {
    if n == 0 then []
    else if Special(p.volumes[n - 1]) then ListedIn(p, i, n - 1)
    else ListedIn(p, i, n - 1) + [(i, n - 1)]
  }

  /** The ordinary volumes of the mounted pools, up to the `n`th pool. */
  function Listed(pools: seq<Pool>, n: nat): seq<(nat, nat)>
    requires n <= |pools|
  {
    if n == 0 then []
    else if !pools[n - 1].mounted then Listed(pools, n - 1)
    else Listed(pools, n - 1) + ListedIn(pools[n - 1], n - 1, |pools[n - 1].volumes|)
  }

  lemma {:induction false} ListedInExact(p: Pool, i: nat, n: nat, a: nat, b: nat)
    requires n <= |p.volumes|
    ensures (a, b) in ListedIn(p, i, n) <==> a == i && b < n && Ordinary(p, b)
  {
    if n != 0 {
      ListedInExact(p, i, n - 1, a, b);
    }
  }

  ghost predicate UnmountedAreEmpty(pools: seq<Pool>) {
    forall i :: 0 <= i < |pools| ==> pools[i].mounted || pools[i].volumes == []
  }

  predicate Ordinary(p: Pool, b: nat) {
    b < |p.volumes| && p.volumes[b].name != "zos-cache" && p.volumes[b].name != "vdisks"
  }

  lemma ListedOfPool(pools: seq<Pool>, n: nat, a: nat, b: nat)
    requires 0 < n <= |pools| && (pools[n - 1].mounted || pools[n - 1].volumes == [])
    ensures (a, b) in Listed(pools, n) <==> (a, b) in Listed(pools, n - 1) || (a == n - 1 && Ordinary(pools[n - 1], b))
  {
    if pools[n - 1].mounted {
      ListedInExact(pools[n - 1], n - 1, |pools[n - 1].volumes|, a, b);
    }
  }

  /** The listing of the mounted pools shows every ordinary volume of every pool. */
  lemma {:induction false} ListedExact(pools: seq<Pool>, n: nat, a: nat, b: nat)
    requires UnmountedAreEmpty(pools) && n <= |pools|
    ensures (a, b) in Listed(pools, n) <==> a < n && Ordinary(pools[a], b)
  {
    if n != 0 {
      ListedExact(pools, n - 1, a, b);
      ListedOfPool(pools, n, a, b);
    }
  }

  /**
   * In every run: the path of a name is missing exactly when no pool has it, and the listing shows
   * exactly the ordinary volumes of all pools.
   */
  lemma LookupsAgreeInEveryRun(pools: seq<Pool>, steps: seq<Step>, name: string, io: Io, a: nat, b: nat)
    requires Booted(pools) && (forall i :: 0 <= i < |steps| ==> StorageRuns.Named(steps[i]))
    requires Listable(Run(pools, steps), ANY_KIND, io)
    ensures
      var now := Run(pools, steps);
      && (PathFrom(now, 0, name, io) == Missing <==> forall i, j :: !Named(now, i, j, name))
      && ((a, b) in Listed(now, |now|) <==> a < |now| && Ordinary(now[a], b))
  {
    RunPoolsOk(pools, steps);
    PathIsExact(Run(pools, steps), 0, name, io);
    assert UnmountedAreEmpty(Run(pools, steps)) by {
      forall i | 0 <= i < |Run(pools, steps)| ensures PoolOk(Run(pools, steps)[i]) {
      }
    }
    ListedExact(Run(pools, steps), |Run(pools, steps)|, a, b);
  }

  // ---------------------------------------------------------------- pools that cannot be listed

  /** A mounted pool that cannot be listed, with the name on none of those before it. */
  ghost predicate PathBlockedAt(pools: seq<Pool>, i: nat, name: string, io: Io, k: nat) {
    && i <= k < |pools| && pools[k].mounted && k in io.list
    && forall a: nat, b: nat :: i <= a < k ==> !Named(pools, a, b, name)
  }

  ghost predicate PathBlocked(pools: seq<Pool>, i: nat, name: string, io: Io) {
    exists k: nat :: PathBlockedAt(pools, i, name, io, k)
  }

  lemma PathBlockedLater(pools: seq<Pool>, i: nat, name: string, io: Io)
    requires i < |pools| && !(pools[i].mounted && i in io.list) && forall b: nat :: !Named(pools, i, b, name)
    ensures PathBlocked(pools, i, name, io) <==> PathBlocked(pools, i + 1, name, io)
  {
    if k: nat :| PathBlockedAt(pools, i, name, io, k) {
      assert PathBlockedAt(pools, i + 1, name, io, k);
    }
    var next := i + 1;
    if k: nat :| PathBlockedAt(pools, next, name, io, k) {
      assert PathBlockedAt(pools, i, name, io, k);
    }
  }

  /** The lookup by name fails exactly at such a pool. */
  lemma {:induction false} PathGivesUpIff(pools: seq<Pool>, i: nat, name: string, io: Io)
    requires AllOk(pools) && i <= |pools|
    ensures PathFrom(pools, i, name, io) == Unlisted <==> PathBlocked(pools, i, name, io)
    decreases |pools| - i
  {
    if i < |pools| {
      PathGivesUpIff(pools, i + 1, name, io);
      assert PoolOk(pools[i]);
      var j := NamedIn(pools[i].volumes, name, 0);
      if pools[i].mounted && i in io.list {
        assert PathBlockedAt(pools, i, name, io, i);
      } else if j < |pools[i].volumes| {
        assert Named(pools, i, j, name);
        assert forall k: nat :: !PathBlockedAt(pools, i, name, io, k);
      } else {
        PathBlockedLater(pools, i, name, io);
      }
    }
  }
}
