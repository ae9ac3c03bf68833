/**
Whole runs of the storage module: creating, releasing, allocating and idle
shutdown in any order and with any failures, while the workloads write files
and 0-db processes come and go.
*/
module StorageRuns {
  import opened U64
  import opened Primitives
  import opened Storage
  import opened StorageInvariants
  import opened StorageQuotas
  import opened Zdb
  import opened ZdbAllocation

  datatype Step =
    | Create(name: string, size: u64, kind: DiskType, io: Io)
    | Release(name: string, io: Io)
    | AllocateZdb(q: Request, io: Io)
    | Search(size: u64, kind: DiskType, io: Io)        // a vdisk candidate search on its own
    | Idle(io: Io)
    | Workload(i: nat, j: nat, files: u64, namespaces: map<string, u64>, index: Index)

  /** What a workload can change about its volume: its files, its namespaces and its index. */
  function Touched(pools: seq<Pool>, i: nat, j: nat, files: u64, ns: map<string, u64>, index: Index): seq<Pool> {
    if i < |pools| && j < |pools[i].volumes|
    then
      var v := pools[i].volumes[j];
      pools[i := pools[i].(volumes := pools[i].volumes[j := v.(files := files, namespaces := ns, index := index)])]
    else pools
  }

  ghost function Next(pools: seq<Pool>, step: Step): seq<Pool> {
    match step
    case Create(name, size, kind, io) => CreateFilesystem(pools, name, size, kind, io).0
    case Release(name, io) => ReleaseFilesystem(pools, name, io).0
    case AllocateZdb(q, io) => Allocate(pools, q, io).0
    case Search(size, kind, io) => FindCandidates(pools, size, kind, io).0
    case Idle(io) => ShutdownFrom(pools, 0, io)
    case Workload(i, j, files, ns, index) => Touched(pools, i, j, files, ns, index)
  }

  ghost function Run(pools: seq<Pool>, steps: seq<Step>): seq<Pool> {
    if |steps| == 0 then pools else Next(Run(pools, steps[..|steps| - 1]), steps[|steps| - 1])
  }

  /** New 0-db volumes carry the 0-db prefix. */
  predicate Named(step: Step) {
    step.AllocateZdb? ==> ZdbName(step.q)
  }

  lemma TouchedUndisturbed(pools: seq<Pool>, i: nat, j: nat, files: u64, ns: map<string, u64>, index: Index)
    requires AllOk(pools)
    ensures Undisturbed(pools, Touched(pools, i, j, files, ns, index))
  {
    UndisturbedSelf(pools);
    if i < |pools| && j < |pools[i].volumes| {
      var after := Touched(pools, i, j, files, ns, index);
      QuotaSumSame(pools[i].volumes, after[i].volumes);
      TouchedPoolOk(pools[i], j, pools[i].volumes[j].(files := files, namespaces := ns, index := index));
      forall k | 0 <= k < |after| ensures PoolOk(after[k]) {
        assert PoolOk(pools[k]);
      }
    }
  }

  lemma TouchedPoolOk(p: Pool, j: nat, v: Subvolume)
    requires PoolOk(p) && j < |p.volumes|
    requires v.name == p.volumes[j].name && v.quota == p.volumes[j].quota && v.qgroup == p.volumes[j].qgroup
    ensures PoolOk(p.(volumes := p.volumes[j := v]))
  {
  }

  lemma SearchUndisturbed(pools: seq<Pool>, size: u64, kind: DiskType, io: Io)
    requires AllOk(pools)
    ensures Undisturbed(pools, FindCandidates(pools, size, kind, io).0)
  {
    FindOnlyMounts(pools, size, kind, io);
    OnlyMountsOk(pools, FindCandidates(pools, size, kind, io).0);
  }

  lemma UndisturbedWithinSize(a: seq<Pool>, b: seq<Pool>)
    requires WithinSize(a) && Undisturbed(a, b)
    ensures WithinSize(b)
  {
  }

  /** What a step keeps, whatever fails; the quotas of a creation need that its check does not wrap. */
  lemma NextOk(pools: seq<Pool>, step: Step)
    requires AllOk(pools) && WithinSize(pools) && Named(step)
    requires step.Create? ==> NoWrap(pools, step.size)
    ensures AllOk(Next(pools, step)) && WithinSize(Next(pools, step)) && SamePools(pools, Next(pools, step))
  {
    match step
    case Create(name, size, kind, io) =>
      CreateFilesystemOk(pools, name, size, kind, io);
      CreateStaysWithinSize(pools, name, size, kind, io);
    case Release(name, io) => ReleaseFromOk(pools, 0, name, io);
    case AllocateZdb(q, io) =>
      AllocateOk(pools, q, io);
      UndisturbedWithinSize(pools, Next(pools, step));
    case Search(size, kind, io) =>
      SearchUndisturbed(pools, size, kind, io);
      UndisturbedWithinSize(pools, Next(pools, step));
    case Idle(io) => ShutdownFromOk(pools, 0, io);
    case Workload(i, j, files, ns, index) =>
      TouchedUndisturbed(pools, i, j, files, ns, index);
      UndisturbedWithinSize(pools, Next(pools, step));
  }

  /** After a boot every pool is mounted, and what is on it is in order. */
  ghost predicate Booted(pools: seq<Pool>) {
    AllOk(pools) && WithinSize(pools) && forall i :: 0 <= i < |pools| ==> pools[i].mounted
  }

  /**
   * In every run no pool that is powered down holds a volume, and the quotas of every pool sum to at
   * most its size.
   */
  lemma {:induction false} RunOk(pools: seq<Pool>, steps: seq<Step>)
    requires Booted(pools)
    requires forall i :: 0 <= i < |steps| ==> Named(steps[i])
    requires forall i :: 0 <= i < |steps| && steps[i].Create? ==> NoWrap(Run(pools, steps[..i]), steps[i].size)
    ensures AllOk(Run(pools, steps)) && WithinSize(Run(pools, steps)) && SamePools(pools, Run(pools, steps))
    decreases |steps|
  {
    if |steps| != 0 {
      var n := |steps| - 1;
      forall i | 0 <= i <= n ensures steps[..n][..i] == steps[..i] {
      }
      RunOk(pools, steps[..n]);
      NextOk(Run(pools, steps[..n]), steps[n]);
    }
  }

  /** That powered-down pools are empty needs no condition on sizes at all. */
  lemma NextPoolsOk(pools: seq<Pool>, step: Step)
    requires AllOk(pools) && Named(step)
    ensures AllOk(Next(pools, step))
  {
    match step
    case Create(name, size, kind, io) => CreateFilesystemOk(pools, name, size, kind, io);
    case Release(name, io) => ReleaseKeepsOk(pools, 0, name, io);
    case AllocateZdb(q, io) => AllocateOk(pools, q, io);
    case Search(size, kind, io) => SearchUndisturbed(pools, size, kind, io);
    case Idle(io) => ShutdownKeepsOk(pools, 0, io);
    case Workload(i, j, files, ns, index) => TouchedUndisturbed(pools, i, j, files, ns, index);
  }

  lemma {:induction false} ReleaseKeepsOk(pools: seq<Pool>, i: nat, name: string, io: Io)
    requires AllOk(pools) && i <= |pools|
    ensures AllOk(ReleaseFrom(pools, i, name, io).0)
    decreases |pools| - i
  {
    if i < |pools| {
      ReleaseAtOk(pools[i], i, name, io);
      ReleaseKeepsOk(pools[i := ReleaseAt(pools[i], i, name, io).0], i + 1, name, io);
    }
  }

  lemma {:induction false} ShutdownKeepsOk(pools: seq<Pool>, i: nat, io: Io)
    requires AllOk(pools) && i <= |pools|
    ensures AllOk(ShutdownFrom(pools, i, io))
    decreases |pools| - i
  {
    if i < |pools| {
      ShutdownKeepsOk(pools, i + 1, io);
      if pools[i].volumes == [] {
        ShutdownKeepsOk(pools[i := pools[i].(mounted := false)], i + 1, io);
      }
    }
  }

  lemma {:induction false} RunPoolsOk(pools: seq<Pool>, steps: seq<Step>)
    requires Booted(pools) && forall i :: 0 <= i < |steps| ==> Named(steps[i])
    ensures AllOk(Run(pools, steps))
    decreases |steps|
  {
    if |steps| != 0 {
      RunPoolsOk(pools, steps[..|steps| - 1]);
      NextPoolsOk(Run(pools, steps[..|steps| - 1]), steps[|steps| - 1]);
    }
  }

  /**
   * Hence, in every run, a lookup of a namespace that skips unmounted pools reports it missing
   * exactly when no pool at all, mounted or not, holds it.
   */
  lemma LookupNeverMisses(pools: seq<Pool>, steps: seq<Step>, ns: string, io: Io)
    requires Booted(pools) && (forall i :: 0 <= i < |steps| ==> Named(steps[i]))
    requires Listable(Run(pools, steps), ANY_KIND, io)
    ensures
      var now := Run(pools, steps);
      Find(now, ns, io) == Missing <==> Absent(now, ns)
  {
    RunPoolsOk(pools, steps);
    MissingIffAbsent(Run(pools, steps), ns, io);
  }

  /** Without the condition the quotas can outgrow the pool: a request close to 2^64 bytes passes the check. */
  lemma WrapOvercommits()
    ensures
      var pool := Pool("p", SSD, 100, true, [Subvolume("a", true, 1, 0, map[], NoIndex, {})]);
      var after := CreateFilesystem([pool], "b", LIMIT - 1, SSD, NO_FAILURE).0;
      && Booted([pool]) && |after| == 1
      && QuotaSum(after[0].volumes) == LIMIT
  {
    var a := Subvolume("a", true, 1, 0, map[], NoIndex, {});
    var pool := Pool("p", SSD, 100, true, [a]);
    assert !a.IsZdb();
    assert [a][..0] == [];
    assert VolumesSize([]) == 0 && QuotaSum([]) == 0;
    assert VolumesSize([a]) == 1 && QuotaSum([a]) == 1;
    assert Fits(pool, LIMIT - 1);
    CreateFilesystemQuotas([pool], "b", LIMIT - 1, SSD, NO_FAILURE);
    CreatesOnTheOnlyPool(pool, "b", LIMIT - 1, NO_FAILURE);
  }

  lemma CreatesOnTheOnlyPool(pool: Pool, name: string, size: u64, io: Io)
    requires PoolOk(pool) && pool.mounted && pool.kind == SSD && Fits(pool, size)
    requires !HasVolume(pool, name) && !("zdb" <= name) && io == NO_FAILURE
    ensures CreateFilesystem([pool], name, size, SSD, io).1 == Placed(0)
  {
    FindsTheOnlyPool(pool, size, io);
    var (found, s) := FindCandidates([pool], size, SSD, io);
    assert found[s.list[0]] == pool;
  }

  lemma FindsTheOnlyPool(pool: Pool, size: u64, io: Io)
    requires pool.mounted && pool.kind == SSD && Fits(pool, size) && io == NO_FAILURE
    ensures
      var (found, s) := FindCandidates([pool], size, SSD, io);
      found == [pool] && s.Candidates? && |s.list| > 0 && s.list[0] == 0
  {
    MountedFitsExact([pool], size, SSD, io, 1, 0);
    SortedMountedFits([pool], size, SSD, io);
    FoundGood([pool], size, SSD, io);
  }
}
