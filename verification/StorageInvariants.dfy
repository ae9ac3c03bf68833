/**
What every storage operation keeps: a pool that is powered down holds no
volume, names are unique within a pool, and quotas are backed by quota groups.
*/
module StorageInvariants {
  import opened U64
  import opened Primitives
  import opened Sorting
  import opened Storage

  ghost predicate NamesUnique(vs: seq<Subvolume>) {
    forall i, j :: 0 <= i < j < |vs| ==> vs[i].name != vs[j].name
  }

  /** A quota is the limit of an existing quota group, and never on a 0-db volume. */
  predicate QuotaBacked(v: Subvolume) {
    v.quota != 0 ==> v.qgroup && !v.IsZdb()
  }

  ghost predicate PoolOk(p: Pool) {
    && (!p.mounted ==> p.volumes == [])
    && NamesUnique(p.volumes)
    && (forall j :: 0 <= j < |p.volumes| ==> QuotaBacked(p.volumes[j]))
  }

  ghost predicate AllOk(pools: seq<Pool>) {
    forall i :: 0 <= i < |pools| ==> PoolOk(pools[i])
  }

  /** The second state differs from the first only in pools that were mounted meanwhile. */
  ghost predicate OnlyMounts(a: seq<Pool>, b: seq<Pool>) {
    |a| == |b| && forall i :: 0 <= i < |a| ==> b[i] == a[i] || b[i] == a[i].(mounted := true)
  }

  /** Pools are never renamed, resized or replaced. */
  ghost predicate SamePools(a: seq<Pool>, b: seq<Pool>) {
    |a| == |b| && forall i :: 0 <= i < |a| ==> b[i].name == a[i].name && b[i].kind == a[i].kind && b[i].size == a[i].size
  }

  // ---------------------------------------------------------------- candidate search

  lemma {:induction false} ScanOnlyMounts(pools: seq<Pool>, i: nat, size: u64, kind: DiskType, io: Io)
    requires i <= |pools|
    ensures OnlyMounts(pools, Scan(pools, i, size, kind, io).0)
    decreases |pools| - i
  {
    if i < |pools| {
      ScanOnlyMounts(pools, i + 1, size, kind, io);
      var up := pools[i := pools[i].(mounted := true)];
      ScanOnlyMounts(up, i + 1, size, kind, io);
    }
  }

  lemma FindOnlyMounts(pools: seq<Pool>, size: u64, kind: DiskType, io: Io)
    ensures OnlyMounts(pools, FindCandidates(pools, size, kind, io).0)
  {
    ScanOnlyMounts(pools, 0, size, kind, io);
  }

  lemma OnlyMountsOk(a: seq<Pool>, b: seq<Pool>)
    requires AllOk(a) && OnlyMounts(a, b)
    ensures AllOk(b) && SamePools(a, b)
  {
  }

  lemma {:induction false} MountedFitsExact(pools: seq<Pool>, size: u64, kind: DiskType, io: Io, n: nat, k: nat)
    requires n <= |pools|
    ensures k in MountedFits(pools, size, kind, io, n) <==>
            k < n && pools[k].mounted && pools[k].kind == kind && k !in io.probe && Fits(pools[k], size)
  {
    if n != 0 {
      MountedFitsExact(pools, size, kind, io, n - 1, k);
    }
  }

  /** The commands of the search succeed. */
  predicate Searchable(io: Io) {
    io.mount == {} && io.enable == {} && io.probe == {} && io.unmount == {} && io.shutdown == {}
  }

  /** An unmounted pool of the kind with room. */
  ghost predicate Spare(p: Pool, size: u64, kind: DiskType) {
    !p.mounted && p.kind == kind && Fits(p, size)
  }

  /** The first spare pool from position `i`, or the number of pools. */
  ghost function FirstSpare(pools: seq<Pool>, i: nat, size: u64, kind: DiskType): (k: nat)
    requires i <= |pools|
    ensures i <= k <= |pools|
    ensures k < |pools| ==> Spare(pools[k], size, kind)
    ensures forall j :: i <= j < k ==> !Spare(pools[j], size, kind)
    decreases |pools| - i
  {
    if i == |pools| || Spare(pools[i], size, kind) then i else FirstSpare(pools, i + 1, size, kind)
  }

  /** The search among unmounted pools mounts the first one with room, and it alone. */
  lemma {:induction false} ScanExact(pools: seq<Pool>, i: nat, size: u64, kind: DiskType, io: Io)
    requires i <= |pools| && Searchable(io)
    ensures
      var k := FirstSpare(pools, i, size, kind);
      Scan(pools, i, size, kind, io) ==
      if k == |pools| then (pools, NotEnough)
      else (pools[k := pools[k].(mounted := true)], Candidates([k]))
    decreases |pools| - i
  {
    if i < |pools| && !Spare(pools[i], size, kind) {
      ScanExact(pools, i + 1, size, kind, io);
    }
  }

  lemma {:induction false} MountedFitsInOrder(pools: seq<Pool>, size: u64, kind: DiskType, io: Io, n: nat)
    requires n <= |pools|
    ensures forall k :: k in MountedFits(pools, size, kind, io, n) ==> k < n
    ensures Distinct(MountedFits(pools, size, kind, io, n))
  {
    if n != 0 {
      MountedFitsInOrder(pools, size, kind, io, n - 1);
      var rest := MountedFits(pools, size, kind, io, n - 1);
      assert n - 1 !in rest;
      assert Distinct(rest + [n - 1]);
    }
  }

  ghost predicate Distinct(list: seq<nat>) {
    forall a, b :: 0 <= a < b < |list| ==> list[a] != list[b]
  }

  /** What a caller gets from the candidate search. */
  ghost predicate GoodCandidates(pools: seq<Pool>, list: seq<nat>, size: u64, kind: DiskType) {
    && list != []
    && (forall a :: 0 <= a < |list| ==>
          list[a] < |pools| && pools[list[a]].mounted && pools[list[a]].kind == kind && Fits(pools[list[a]], size))
    && Distinct(list)
    && (forall a, b :: 0 <= a < b < |list| ==> pools[list[a]].size >= pools[list[b]].size)
  }

  /** Sorting keeps what holds of every candidate, and puts larger pools first. */
  lemma SortedCandidates(pools: seq<Pool>, list: seq<nat>)
    requires forall k :: k in list ==> k < |pools|
    requires Distinct(list)
    ensures
      var sorted := Sort(list, LargestFirst(pools));
      && |sorted| == |list| && (forall a :: 0 <= a < |sorted| ==> sorted[a] in list)
      && Distinct(sorted)
      && (forall a, b :: 0 <= a < b < |sorted| ==> pools[sorted[a]].size >= pools[sorted[b]].size)
  {
    var sorted := Sort(list, LargestFirst(pools));
    forall a | 0 <= a < |sorted| ensures sorted[a] in list {
      SameElements(sorted, list, sorted[a]);
    }
    SameElements(sorted, list, 0);
    Permuted(list, sorted);
    forall a, b | 0 <= a < b < |sorted|
      ensures sorted[a] < |pools| && sorted[b] < |pools| && pools[sorted[a]].size >= pools[sorted[b]].size
    {
      assert sorted[a] in list && sorted[b] in list;
      assert LargestFirst(pools)(sorted[a]) <= LargestFirst(pools)(sorted[b]);
    }
  }

  lemma SortedMountedFits(pools: seq<Pool>, size: u64, kind: DiskType, io: Io)
    requires MountedFits(pools, size, kind, io, |pools|) != []
    ensures
      var list := MountedFits(pools, size, kind, io, |pools|);
      GoodCandidates(pools, Sort(list, LargestFirst(pools)), size, kind)
  {
    var list := MountedFits(pools, size, kind, io, |pools|);
    MountedFitsInOrder(pools, size, kind, io, |pools|);
    forall k: nat | k in list
      ensures k < |pools| && pools[k].mounted && pools[k].kind == kind && Fits(pools[k], size)
    {
      MountedFitsExact(pools, size, kind, io, |pools|, k);
    }
    SortedCandidates(pools, list);
  }

  lemma Permuted(a: seq<nat>, b: seq<nat>)
    requires multiset(a) == multiset(b) && Distinct(a)
    ensures Distinct(b)
  {
    forall i, j | 0 <= i < j < |b| ensures b[i] != b[j] {
      if b[i] == b[j] {
        var x := b[i];
        assert b == b[..i] + [x] + b[i + 1..j] + [x] + b[j + 1..];
        assert multiset(b)[x] >= 2;
        OnceIn(a, x);
      }
    }
  }

  lemma {:induction false} OnceIn(a: seq<nat>, x: nat)
    requires Distinct(a)
    ensures multiset(a)[x] <= 1
    decreases |a|
  {
    if a != [] {
      var rest := a[..|a| - 1];
      assert a == rest + [a[|a| - 1]];
      OnceIn(rest, x);
      if a[|a| - 1] == x {
        assert x !in rest;
      }
    }
  }

  /** A mounted pool of the kind with room. */
  ghost predicate Roomy(p: Pool, size: u64, kind: DiskType) {
    p.mounted && p.kind == kind && Fits(p, size)
  }

  ghost predicate MountsOneSpare(pools: seq<Pool>, after: seq<Pool>, s: Search, size: u64, kind: DiskType) {
    exists k ::
      && 0 <= k < |pools| && Spare(pools[k], size, kind)
      && (forall l :: 0 <= l < k ==> !Spare(pools[l], size, kind))
      && s == Candidates([k]) && after == pools[k := pools[k].(mounted := true)]
  }

  /** The candidates are the mounted pools with room, largest first. */
  ghost predicate FoundMounted(pools: seq<Pool>, after: seq<Pool>, s: Search, size: u64, kind: DiskType) {
    && after == pools && s.Candidates? && GoodCandidates(pools, s.list, size, kind)
    && (forall k: nat :: k < |pools| && Roomy(pools[k], size, kind) ==> k in s.list)
  }

  lemma SearchMounted(pools: seq<Pool>, size: u64, kind: DiskType, io: Io)
    requires Searchable(io) && MountedFits(pools, size, kind, io, |pools|) != []
    ensures
      var (after, s) := FindCandidates(pools, size, kind, io);
      FoundMounted(pools, after, s, size, kind)
  {
    var list := MountedFits(pools, size, kind, io, |pools|);
    var sorted := Sort(list, LargestFirst(pools));
    SortedMountedFits(pools, size, kind, io);
    forall k: nat | k < |pools| && Roomy(pools[k], size, kind) ensures k in sorted {
      MountedFitsExact(pools, size, kind, io, |pools|, k);
      SameElements(sorted, list, k);
    }
  }

  lemma NoneMounted(pools: seq<Pool>, size: u64, kind: DiskType, io: Io)
    requires Searchable(io) && MountedFits(pools, size, kind, io, |pools|) == []
    ensures forall k: nat :: k < |pools| ==> !Roomy(pools[k], size, kind)
  {
    forall k: nat | k < |pools| ensures !Roomy(pools[k], size, kind) {
      MountedFitsExact(pools, size, kind, io, |pools|, k);
    }
  }

  /**
   * The candidate search is exact when its commands succeed.  If mounted pools of the kind have room it returns
   * all of them, largest first, and changes nothing; else it mounts the first unmounted pool that has room, and
   * returns that one; and it reports a lack of space, changing nothing, exactly when no pool of the kind has room.
   */
  lemma SearchExact(pools: seq<Pool>, size: u64, kind: DiskType, io: Io)
    requires Searchable(io)
    ensures
      var (after, s) := FindCandidates(pools, size, kind, io);
      if exists k: nat :: k < |pools| && Roomy(pools[k], size, kind) then FoundMounted(pools, after, s, size, kind)
      else if exists k: nat :: k < |pools| && Spare(pools[k], size, kind) then MountsOneSpare(pools, after, s, size, kind)
      else (after, s) == (pools, NotEnough)
  {
    if MountedFits(pools, size, kind, io, |pools|) != [] {
      var k := MountedFits(pools, size, kind, io, |pools|)[0];
      MountedFitsExact(pools, size, kind, io, |pools|, k);
      SearchMounted(pools, size, kind, io);
    } else {
      NoneMounted(pools, size, kind, io);
      ScanExact(pools, 0, size, kind, io);
    }
  }

  // ---------------------------------------------------------------- the search when commands fail

  predicate Unlit(p: Pool, kind: DiskType) {
    !p.mounted && p.kind == kind
  }

  /** The search goes on past this pool: it is not looked at, or its probe fails, or it has no room and is unmounted again. */
  ghost predicate Passed(p: Pool, i: nat, size: u64, kind: DiskType, io: Io) {
    Unlit(p, kind) ==>
      && i !in io.mount && i !in io.enable
      && (i in io.probe || (!Fits(p, size) && i !in io.unmount && i !in io.shutdown))
  }

  /** A pool that was passed is as before, except that one whose probe failed stays mounted. */
  function AfterPassing(p: Pool, i: nat, kind: DiskType, io: Io): Pool {
    if Unlit(p, kind) && i in io.probe then p.(mounted := true) else p
  }

  /** The pool at which the search ends is a candidate exactly when it was mounted, probed and has room. */
  ghost predicate EndsAt(p: Pool, q: Pool, i: nat, size: u64, io: Io, s: Search) {
    && s == (if i !in io.mount && i !in io.enable && Fits(p, size) then Candidates([i]) else Broken)
    && q == p.(mounted := i !in io.mount && (i in io.enable || Fits(p, size) || i in io.unmount))
  }

  /**
   * The search among unmounted pools, whatever fails: it passes pools up to the first that it cannot pass, ends
   * there, and leaves all after it alone; it reports a lack of space exactly when it passes them all.
   */
  lemma {:induction false} ScanEnds(pools: seq<Pool>, i: nat, size: u64, kind: DiskType, io: Io, n: nat)
    requires i <= n <= |pools| && (forall k :: i <= k < n ==> Passed(pools[k], k, size, kind, io))
    requires n < |pools| ==> !Passed(pools[n], n, size, kind, io)
    ensures
      var (after, s) := Scan(pools, i, size, kind, io);
      && |after| == |pools|
      && (forall k :: 0 <= k < |pools| && k != n ==>
            after[k] == if i <= k < n then AfterPassing(pools[k], k, kind, io) else pools[k])
      && (if n == |pools| then s == NotEnough else EndsAt(pools[n], after[n], n, size, io, s))
    decreases |pools| - i
  {
    if i < n {
      var next := pools[i := AfterPassing(pools[i], i, kind, io)];
      assert next[i] == AfterPassing(pools[i], i, kind, io);
      ScanEnds(next, i + 1, size, kind, io, n);
      ScanPasses(pools, i, size, kind, io);
    }
  }

  lemma ScanPasses(pools: seq<Pool>, i: nat, size: u64, kind: DiskType, io: Io)
    requires i < |pools| && Passed(pools[i], i, size, kind, io)
    ensures Scan(pools, i, size, kind, io)
         == Scan(pools[i := AfterPassing(pools[i], i, kind, io)], i + 1, size, kind, io)
  {
    assert pools[i := pools[i]] == pools;
  }
}
