/**
Creating and releasing volumes: what they keep, and when the quotas of a pool
stay within its size.
*/
module StorageQuotas {
  import opened U64
  import opened Primitives
  import opened Storage
  import opened StorageInvariants

  ghost predicate WithinSize(pools: seq<Pool>) {
    forall i :: 0 <= i < |pools| ==> QuotaSum(pools[i].volumes) <= pools[i].size
  }

  /** Adding `size` to what any pool has reserved does not wrap. */
  ghost predicate NoWrap(pools: seq<Pool>, size: u64) {
    forall i :: 0 <= i < |pools| ==> VolumesSize(pools[i].volumes) + size < LIMIT
  }

  /** What a pool has reserved covers all its quotas. */
  lemma {:induction false} ReservedCoversQuotas(vs: seq<Subvolume>)
    requires forall j :: 0 <= j < |vs| ==> QuotaBacked(vs[j])
    ensures QuotaSum(vs) <= VolumesSize(vs)
    decreases |vs|
  {
    if vs != [] {
      ReservedCoversQuotas(vs[..|vs| - 1]);
      assert QuotaBacked(vs[|vs| - 1]);
    }
  }

  lemma QuotaSumAppend(vs: seq<Subvolume>, v: Subvolume)
    ensures QuotaSum(vs + [v]) == QuotaSum(vs) + v.quota
  {
    assert (vs + [v])[..|vs|] == vs;
  }

  // ---------------------------------------------------------------- adding

  lemma AddedOk(p: Pool, name: string)
    requires PoolOk(p) && p.mounted && !HasVolume(p, name)
    ensures PoolOk(p.(volumes := p.volumes + [FreshVolume(name)]))
  {
  }

  /** The quotas of every pool are what they were. */
  ghost predicate SameQuotas(a: seq<Pool>, b: seq<Pool>) {
    |a| == |b| && forall i :: 0 <= i < |a| ==> QuotaSum(a[i].volumes) == QuotaSum(b[i].volumes)
  }

  lemma WithVolumeOk(pools: seq<Pool>, i: nat, name: string)
    requires AllOk(pools) && i < |pools| && pools[i].mounted && !HasVolume(pools[i], name)
    ensures
      var more := WithVolume(pools, i, FreshVolume(name));
      AllOk(more) && SamePools(pools, more) && SameQuotas(pools, more)
  {
    AddedOk(pools[i], name);
    QuotaSumAppend(pools[i].volumes, FreshVolume(name));
  }

  /** Trying any list of candidates keeps the pools in order and sets no quota. */
  lemma {:induction false} TryAddOk(pools: seq<Pool>, list: seq<nat>, name: string, io: Io)
    requires AllOk(pools)
    ensures
      var (after, p) := TryAdd(pools, list, name, io);
      AllOk(after) && SamePools(pools, after) && SameQuotas(pools, after)
    decreases |list|
  {
    if list != [] {
      var i := list[0];
      if i >= |pools| || !pools[i].mounted || HasVolume(pools[i], name) || i in io.add {
        TryAddOk(pools, list[1..], name, io);
      } else {
        var more := WithVolume(pools, i, FreshVolume(name));
        WithVolumeOk(pools, i, name);
        if i in io.info {
          TryAddOk(more, list[1..], name, io);
        }
      }
    }
  }

  /** The volume ends up last in the chosen pool, which is one of the candidates. */
  lemma {:induction false} TryAddPlaces(pools: seq<Pool>, list: seq<nat>, name: string, io: Io)
    ensures
      var (after, p) := TryAdd(pools, list, name, io);
      p.Placed? ==>
        && p.pool in list && p.pool < |after| && after[p.pool].mounted
        && after[p.pool].volumes != []
        && after[p.pool].volumes[|after[p.pool].volumes| - 1] == FreshVolume(name)
    decreases |list|
  {
    if list != [] {
      var i := list[0];
      TryAddPlaces(pools, list[1..], name, io);
      if i < |pools| {
        TryAddPlaces(WithVolume(pools, i, FreshVolume(name)), list[1..], name, io);
      }
    }
  }

  lemma {:induction false} ScanGood(pools: seq<Pool>, i: nat, size: u64, kind: DiskType, io: Io)
    requires i <= |pools|
    ensures
      var (after, s) := Scan(pools, i, size, kind, io);
      s.Candidates? ==> GoodCandidates(after, s.list, size, kind)
    decreases |pools| - i
  {
    if i < |pools| {
      ScanGood(pools, i + 1, size, kind, io);
      ScanGood(pools[i := pools[i].(mounted := true)], i + 1, size, kind, io);
    }
  }

  /** Whatever fails during the search, the candidates it returns are mounted and have room. */
  lemma FoundGood(pools: seq<Pool>, size: u64, kind: DiskType, io: Io)
    ensures
      var (after, s) := FindCandidates(pools, size, kind, io);
      s.Candidates? ==> GoodCandidates(after, s.list, size, kind)
  {
    if MountedFits(pools, size, kind, io, |pools|) != [] {
      SortedMountedFits(pools, size, kind, io);
    } else {
      ScanGood(pools, 0, size, kind, io);
    }
  }

  lemma CreateSubvolOk(pools: seq<Pool>, size: u64, name: string, kind: DiskType, io: Io)
    requires AllOk(pools)
    ensures
      var (after, p) := CreateSubvol(pools, size, name, kind, io);
      AllOk(after) && SamePools(pools, after) && SameQuotas(pools, after)
  {
    FindOnlyMounts(pools, size, kind, io);
    var (found, s) := FindCandidates(pools, size, kind, io);
    OnlyMountsOk(pools, found);
    if s.Candidates? {
      TryAddOk(found, s.list, name, io);
    }
  }

  /** A volume is created, without a quota, only on a mounted pool of the kind that had room for it. */
  lemma CreateSubvolPlaces(pools: seq<Pool>, size: u64, name: string, kind: DiskType, io: Io)
    requires AllOk(pools)
    ensures
      var (after, p) := CreateSubvol(pools, size, name, kind, io);
      p.Placed? ==>
        && p.pool < |pools| == |after| && after[p.pool].mounted
        && pools[p.pool].kind == kind && Fits(pools[p.pool], size)
        && after[p.pool].volumes != []
        && after[p.pool].volumes[|after[p.pool].volumes| - 1] == FreshVolume(name)
  {
    CreateSubvolOk(pools, size, name, kind, io);
    FindOnlyMounts(pools, size, kind, io);
    var (found, s) := FindCandidates(pools, size, kind, io);
    if kind != OtherDisk && s.Candidates? {
      FoundGood(pools, size, kind, io);
      TryAddPlaces(found, s.list, name, io);
    }
  }

  // ---------------------------------------------------------------- quotas

  lemma LimitOk(pools: seq<Pool>, i: nat, name: string, size: u64)
    requires AllOk(pools) && i < |pools| && pools[i].volumes != [] && !("zdb" <= name)
    requires pools[i].volumes[|pools[i].volumes| - 1] == FreshVolume(name)
    ensures
      var after := Limit(pools, i, size);
      && AllOk(after) && SamePools(pools, after)
      && QuotaSum(after[i].volumes) == QuotaSum(pools[i].volumes) + size
      && forall k :: 0 <= k < |pools| && k != i ==> after[k] == pools[k]
  {
    var vs := pools[i].volumes;
    var last := vs[|vs| - 1].(quota := size);
    var limited := vs[|vs| - 1 := last];
    assert limited == vs[..|vs| - 1] + [last];
    QuotaSumAppend(vs[..|vs| - 1], last);
    assert vs == vs[..|vs| - 1] + [vs[|vs| - 1]];
    QuotaSumAppend(vs[..|vs| - 1], vs[|vs| - 1]);
  }

  lemma CreateFilesystemOk(pools: seq<Pool>, name: string, size: u64, kind: DiskType, io: Io)
    requires AllOk(pools)
    ensures
      var (after, p) := CreateFilesystem(pools, name, size, kind, io);
      AllOk(after) && SamePools(pools, after)
  {
    CreateSubvolOk(pools, size, name, kind, io);
    CreateSubvolPlaces(pools, size, name, kind, io);
    var (made, p) := CreateSubvol(pools, size, name, kind, io);
    if !("zdb" <= name) && p.Placed? {
      LimitOk(made, p.pool, name, size);
    }
  }

  /** The quotas after a creation: those before, and the new one on the pool that was chosen. */
  lemma CreateFilesystemQuotas(pools: seq<Pool>, name: string, size: u64, kind: DiskType, io: Io)
    requires AllOk(pools)
    ensures
      var (after, p) := CreateFilesystem(pools, name, size, kind, io);
      && |after| == |pools|
      && (p.Placed? ==> p.pool < |pools| && pools[p.pool].kind == kind && Fits(pools[p.pool], size))
      && forall k :: 0 <= k < |pools| ==>
           QuotaSum(after[k].volumes) == QuotaSum(pools[k].volumes) + if p == Placed(k) then size else 0
  {
    if !("zdb" <= name) {
      CreateSubvolOk(pools, size, name, kind, io);
      CreateSubvolPlaces(pools, size, name, kind, io);
      var (made, p) := CreateSubvol(pools, size, name, kind, io);
      LimitedQuotas(pools, made, p, name, size, io.limit);
    }
  }

  /** The same of any result of creating the volume: the quota is set on the volume that was added. */
  lemma LimitedQuotas(pools: seq<Pool>, made: seq<Pool>, p: Placed, name: string, size: u64, fails: bool)
    requires AllOk(made) && SamePools(pools, made) && SameQuotas(pools, made) && !("zdb" <= name)
    requires p.Placed? ==>
               && p.pool < |made| && made[p.pool].volumes != []
               && made[p.pool].volumes[|made[p.pool].volumes| - 1] == FreshVolume(name)
    ensures
      var (after, placed) := Limited(made, p, size, fails);
      && |after| == |pools| && (placed == p || placed.NotPlaced?)
      && forall k :: 0 <= k < |pools| ==>
           QuotaSum(after[k].volumes) == QuotaSum(pools[k].volumes) + if placed == Placed(k) then size else 0
  {
    if p.Placed? {
      LimitOk(made, p.pool, name, size);
    }
  }

  /** No overcommit: as long as the check does not wrap, a creation keeps the quotas of every pool within its size. */
  lemma CreateStaysWithinSize(pools: seq<Pool>, name: string, size: u64, kind: DiskType, io: Io)
    requires AllOk(pools) && WithinSize(pools) && NoWrap(pools, size)
    ensures WithinSize(CreateFilesystem(pools, name, size, kind, io).0)
  {
    CreateFilesystemQuotas(pools, name, size, kind, io);
    CreateFilesystemOk(pools, name, size, kind, io);
    var (after, p) := CreateFilesystem(pools, name, size, kind, io);
    forall k | 0 <= k < |after| ensures QuotaSum(after[k].volumes) <= after[k].size {
      if p == Placed(k) {
        RoomForQuota(pools[k], size);
      }
    }
  }

  lemma RoomForQuota(p: Pool, size: u64)
    requires PoolOk(p) && Fits(p, size) && VolumesSize(p.volumes) + size < LIMIT
    ensures QuotaSum(p.volumes) + size <= p.size
  {
    ReservedCoversQuotas(p.volumes);
  }

  /** What is reserved by files and namespaces on volumes without a quota. */
  ghost function Unquoted(p: Pool): int {
    VolumesSize(p.volumes) - QuotaSum(p.volumes)
  }

  /** Otherwise a check that wraps can be harmless. */
  lemma WrapCanBeHarmless()
    ensures
      var p := Pool("p", SSD, 10, true, [Subvolume("a", true, 0, LIMIT - 1, map[], NoIndex, {})]);
      && PoolOk(p) && Fits(p, 1) && VolumesSize(p.volumes) + 1 == LIMIT
      && QuotaSum(p.volumes) + 1 <= p.size
  {
    var a := Subvolume("a", true, 0, LIMIT - 1, map[], NoIndex, {});
    assert !a.IsZdb();
    assert [a][..0] == [];
    assert VolumesSize([]) == 0 && QuotaSum([]) == 0;
    assert VolumesSize([a]) == LIMIT - 1 && QuotaSum([a]) == 0;
  }

  /**
   * And exactly then: of a creation that succeeds, the quotas fit the pool afterwards if and only if the
   * check did not wrap, whenever the pool and what is reserved on it without a quota stay below 2^64 together.
   */
  lemma OvercommitIffWrap(pools: seq<Pool>, name: string, size: u64, kind: DiskType, io: Io)
    requires AllOk(pools) && WithinSize(pools)
    requires
      var p := CreateFilesystem(pools, name, size, kind, io).1;
      p.Placed? && p.pool < |pools|
      && Unquoted(pools[p.pool]) + pools[p.pool].size < LIMIT
    ensures
      var (after, p) := CreateFilesystem(pools, name, size, kind, io);
      && |after| == |pools|
      && (QuotaSum(after[p.pool].volumes) <= pools[p.pool].size <==> VolumesSize(pools[p.pool].volumes) + size < LIMIT)
  {
    CreateFilesystemQuotas(pools, name, size, kind, io);
    WrapDecides(pools[CreateFilesystem(pools, name, size, kind, io).1.pool], size);
  }

  lemma WrapDecides(p: Pool, size: u64)
    requires PoolOk(p) && Fits(p, size) && Unquoted(p) + p.size < LIMIT
    ensures QuotaSum(p.volumes) + size <= p.size <==> VolumesSize(p.volumes) + size < LIMIT
  {
    ReservedCoversQuotas(p.volumes);
  }

  // ---------------------------------------------------------------- releasing

  /** Exactly the volumes of that name are gone. */
  lemma {:induction false} WithoutMembers(vs: seq<Subvolume>, name: string, v: Subvolume)
    ensures v in Without(vs, name) <==> v in vs && v.name != name
    decreases |vs|
  {
    if vs != [] {
      WithoutMembers(vs[..|vs| - 1], name, v);
      assert vs == vs[..|vs| - 1] + [vs[|vs| - 1]];
    }
  }

  lemma {:induction false} WithoutQuotas(vs: seq<Subvolume>, name: string)
    ensures QuotaSum(Without(vs, name)) <= QuotaSum(vs)
    decreases |vs|
  {
    if vs != [] {
      WithoutQuotas(vs[..|vs| - 1], name);
      QuotaSumAppend(Without(vs[..|vs| - 1], name), vs[|vs| - 1]);
    }
  }

  lemma {:induction false} WithoutUnique(vs: seq<Subvolume>, name: string)
    requires NamesUnique(vs)
    ensures NamesUnique(Without(vs, name))
    decreases |vs|
  {
    if vs != [] {
      var (init, last) := (vs[..|vs| - 1], vs[|vs| - 1]);
      WithoutUnique(init, name);
      var rest := Without(init, name);
      forall j | 0 <= j < |rest| ensures rest[j].name != last.name {
        WithoutMembers(init, name, rest[j]);
      }
    }
  }

  lemma WithoutTheOnlyOne(vs: seq<Subvolume>, name: string)
    requires |vs| == 1 && vs[0].name == name
    ensures Without(vs, name) == []
  {
    assert Without(vs[..0], name) == [];
  }

  /** A pool without the volume, still mounted. */
  lemma RemovedOk(p: Pool, name: string)
    requires PoolOk(p) && p.mounted
    ensures PoolOk(p.(volumes := Without(p.volumes, name)))
    ensures QuotaSum(Without(p.volumes, name)) <= QuotaSum(p.volumes)
  {
    WithoutUnique(p.volumes, name);
    WithoutQuotas(p.volumes, name);
    var left := Without(p.volumes, name);
    forall j | 0 <= j < |left| ensures QuotaBacked(left[j]) {
      WithoutMembers(p.volumes, name, left[j]);
    }
  }

  /** The pool is left as it is, loses the volume, or loses the only one it had and is unmounted. */
  lemma ReleaseAtResult(p: Pool, i: nat, name: string, io: Io)
    ensures
      var (q, left) := (ReleaseAt(p, i, name, io).0, p.(volumes := Without(p.volumes, name)));
      || q == p
      || (p.mounted && q == left)
      || (p.mounted && |p.volumes| == 1 && p.volumes[0].name == name && q == left.(mounted := false))
  {
  }

  lemma UnmountedOk(p: Pool, name: string)
    requires |p.volumes| == 1 && p.volumes[0].name == name
    ensures PoolOk(p.(volumes := Without(p.volumes, name), mounted := false))
    ensures QuotaSum(Without(p.volumes, name)) <= QuotaSum(p.volumes)
  {
    WithoutTheOnlyOne(p.volumes, name);
    WithoutQuotas(p.volumes, name);
  }

  lemma ReleaseAtOk(p: Pool, i: nat, name: string, io: Io)
    requires PoolOk(p)
    ensures
      var q := ReleaseAt(p, i, name, io).0;
      PoolOk(q) && QuotaSum(q.volumes) <= QuotaSum(p.volumes) && q.name == p.name && q.kind == p.kind && q.size == p.size
  {
    ReleaseAtResult(p, i, name, io);
    var q := ReleaseAt(p, i, name, io).0;
    if q != p {
      if q.mounted {
        RemovedOk(p, name);
      } else {
        UnmountedOk(p, name);
      }
    }
  }

  lemma {:induction false} ReleaseFromOk(pools: seq<Pool>, i: nat, name: string, io: Io)
    requires AllOk(pools) && WithinSize(pools) && i <= |pools|
    ensures
      var after := ReleaseFrom(pools, i, name, io).0;
      AllOk(after) && WithinSize(after) && SamePools(pools, after)
    decreases |pools| - i
  {
    if i < |pools| {
      var (p, ok) := ReleaseAt(pools[i], i, name, io);
      ReleaseAtOk(pools[i], i, name, io);
      var next := pools[i := p];
      assert WithinSize(next);
      if ok {
        ReleaseFromOk(next, i + 1, name, io);
      }
    }
  }

  lemma {:induction false} ShutdownFromOk(pools: seq<Pool>, i: nat, io: Io)
    requires AllOk(pools) && WithinSize(pools) && i <= |pools|
    ensures
      var after := ShutdownFrom(pools, i, io);
      AllOk(after) && WithinSize(after) && SamePools(pools, after)
    decreases |pools| - i
  {
    if i < |pools| {
      if pools[i].mounted && pools[i].volumes == [] {
        var down := pools[i := pools[i].(mounted := false)];
        assert AllOk(down) && WithinSize(down) && SamePools(pools, down);
        ShutdownFromOk(down, i + 1, io);
      } else {
        ShutdownFromOk(pools, i + 1, io);
      }
    }
  }
}
