/**
Which volume an allocation of a 0-db namespace takes
(pkg/storage/zdb.go:58-233).
*/
module ZdbChoice {
  import opened U64
  import opened Primitives
  import opened Sorting
  import opened Storage
  import opened StorageInvariants
  import opened StorageQuotas
  import opened StorageCreation
  import opened Zdb
  import opened ZdbAllocation

  /** The space the volume would have taken with the namespace, in the arithmetic of 64 bits. */
  ghost function Taken(v: Subvolume, size: u64): nat {
    (VolumeSize(v) + size) % 18446744073709551616
  }

  /** Volume `(i, j)` can take the namespace: mounted, of the kind, a 0-db volume of the mode, with room. */
  ghost predicate Open(pools: seq<Pool>, q: Request, i: nat, j: nat) {
    && i < |pools| && j < |pools[i].volumes|
    && pools[i].mounted && pools[i].kind == q.kind
    && "zdb" <= pools[i].volumes[j].name && pools[i].volumes[j].index == Index(q.mode)
    && Taken(pools[i].volumes[j], q.size) <= pools[i].size
  }

  /** What volume `(i, j)` would have left. */
  ghost function Left(pools: seq<Pool>, q: Request, i: nat, j: nat): int
    requires i < |pools| && j < |pools[i].volumes|
  {
    pools[i].size - Taken(pools[i].volumes[j], q.size)
  }

  ghost predicate SomeOpen(pools: seq<Pool>, q: Request) {
    exists i: nat, j: nat :: Open(pools, q, i, j)
  }

  lemma {:induction false} CandidatesInExact(p: Pool, i: nat, size: u64, mode: Mode, n: nat, c: Candidate)
    requires n <= |p.volumes|
    ensures c in CandidatesIn(p, i, size, mode, n) <==>
      && c.pool == i && c.volume < n && "zdb" <= p.volumes[c.volume].name && p.volumes[c.volume].index == Index(mode)
      && Taken(p.volumes[c.volume], size) <= p.size && c.free == p.size - Taken(p.volumes[c.volume], size)
  {
    if n != 0 {
      CandidatesInExact(p, i, size, mode, n - 1, c);
      SuitsIff(p, p.volumes[n - 1], size, mode);
    }
  }

  lemma SuitsIff(p: Pool, v: Subvolume, size: u64, mode: Mode)
    ensures Add(Wrap(VolumeSize(v)), size) == Taken(v, size)
    ensures Suits(p, v, size, mode) <==> "zdb" <= v.name && v.index == Index(mode) && Taken(v, size) <= p.size
  {
    AddWrap(VolumeSize(v), size);
  }

  /** The candidates of the first `n` pools are the open volumes, each with what it would have left. */
  lemma {:induction false} CandidatesExact(pools: seq<Pool>, q: Request, n: nat, c: Candidate)
    requires n <= |pools|
    ensures c in ZdbCandidates(pools, q.size, q.kind, q.mode, n) <==>
      c.pool < n && Open(pools, q, c.pool, c.volume) && c.free == Left(pools, q, c.pool, c.volume)
  {
    if n != 0 {
      CandidatesExact(pools, q, n - 1, c);
      CandidatesInExact(pools[n - 1], n - 1, q.size, q.mode, |pools[n - 1].volumes|, c);
    }
  }

  /** `(i, j)` is open, and no open volume would have more left. */
  ghost predicate MostLeft(pools: seq<Pool>, q: Request, i: nat, j: nat) {
    && Open(pools, q, i, j)
    && forall a: nat, b: nat :: Open(pools, q, a, b) ==> Left(pools, q, a, b) <= Left(pools, q, i, j)
  }

  lemma NoCandidates(pools: seq<Pool>, q: Request)
    ensures ZdbCandidates(pools, q.size, q.kind, q.mode, |pools|) == [] <==> !SomeOpen(pools, q)
  {
    var list := ZdbCandidates(pools, q.size, q.kind, q.mode, |pools|);
    if list != [] {
      CandidatesExact(pools, q, |pools|, list[0]);
    }
    if i: nat, j: nat :| Open(pools, q, i, j) {
      CandidatesExact(pools, q, |pools|, Candidate(i, j, Left(pools, q, i, j)));
    }
  }

  lemma FirstHasMostLeft(pools: seq<Pool>, q: Request)
    requires SomeOpen(pools, q)
    ensures
      var list := ZdbCandidates(pools, q.size, q.kind, q.mode, |pools|);
      var best := Sort(list, MostFree());
      best != [] && MostLeft(pools, q, best[0].pool, best[0].volume)
  {
    NoCandidates(pools, q);
    var list := ZdbCandidates(pools, q.size, q.kind, q.mode, |pools|);
    var best := Sort(list, MostFree());
    BestIsCandidate(list);
    CandidatesExact(pools, q, |pools|, best[0]);
    forall a: nat, b: nat | Open(pools, q, a, b) ensures Left(pools, q, a, b) <= best[0].free {
      CandidatesExact(pools, q, |pools|, Candidate(a, b, Left(pools, q, a, b)));
      NoneHasMore(list, Candidate(a, b, Left(pools, q, a, b)));
    }
  }

  lemma NoneHasMore(list: seq<Candidate>, c: Candidate)
    requires c in list
    ensures Sort(list, MostFree()) != [] && c.free <= Sort(list, MostFree())[0].free
  {
    var best := Sort(list, MostFree());
    SameElements(best, list, c);
    var k :| 0 <= k < |best| && best[k] == c;
    assert k > 0 ==> MostFree()(best[0]) <= MostFree()(best[k]);
  }

  // ---------------------------------------------------------------- a new volume

  /** The volume that is placed comes after those its pool had, whatever fails. */
  lemma PlacedIsLast(pools: seq<Pool>, size: u64, name: string, kind: DiskType, io: Io)
    requires AllOk(pools) && CreateSubvol(pools, size, name, kind, io).1.Placed?
    ensures
      var (made, p) := CreateSubvol(pools, size, name, kind, io);
      && p.pool < |pools| == |made| && HasRoom(pools[p.pool], size, kind)
      && made[p.pool] == pools[p.pool].(mounted := true, volumes := pools[p.pool].volumes + [FreshVolume(name)])
  {
    var (found, s) := FindCandidates(pools, size, kind, io);
    FindOnlyMounts(pools, size, kind, io);
    FoundGood(pools, size, kind, io);
    TriedInTurn(found, s.list, name, io);
    CreateSubvolPlaces(pools, size, name, kind, io);
    RoomIsFits(pools[CreateSubvol(pools, size, name, kind, io).1.pool], size, kind);
  }

  // ---------------------------------------------------------------- the allocation

  /** The volume with the namespace written on it. */
  function Holding(v: Subvolume, ns: string, size: u64): Subvolume {
    v.(namespaces := v.namespaces[ns := size])
  }

  /**
   * The allocation of a namespace that exists nowhere: if a volume is open, it goes on one that has the most
   * left, and nothing else changes; a new volume is made exactly when none is open, on a pool with room, and the
   * namespace is all it holds.
   */
  lemma AllocationTakesMostFree(pools: seq<Pool>, q: Request, io: Io)
    requires AllOk(pools) && ZdbName(q) && Absent(pools, q.ns) && Listable(pools, {q.kind}, io)
    requires Allocate(pools, q, io).1.At?
    ensures
      var (after, l) := Allocate(pools, q, io);
      && l.pool < |pools| == |after|
      && if SomeOpen(pools, q)
         then
           && MostLeft(pools, q, l.pool, l.volume)
           && after == pools[l.pool := pools[l.pool].(volumes :=
                pools[l.pool].volumes[l.volume := Holding(pools[l.pool].volumes[l.volume], q.ns, q.size)])]
         else
           && l.volume == |pools[l.pool].volumes| && HasRoom(pools[l.pool], q.size, q.kind)
           && after[l.pool] == pools[l.pool].(mounted := true, volumes :=
                pools[l.pool].volumes + [Holding(FreshVolume(q.newName), q.ns, q.size)])
  {
    AllocateNew(pools, q, io);
    NoCandidates(pools, q);
    if SomeOpen(pools, q) {
      FirstHasMostLeft(pools, q);
    } else {
      PlacedIsLast(pools, q.size, q.newName, q.kind, io);
    }
  }

  lemma ChoosesOpen(pools: seq<Pool>, q: Request, io: Io)
    requires !Unprobed(pools, q.kind, io) && SomeOpen(pools, q)
    ensures
      var (made, l) := ChooseVolume(pools, q, io);
      made == pools && l.At? && MostLeft(pools, q, l.pool, l.volume)
  {
    NoCandidates(pools, q);
    FirstHasMostLeft(pools, q);
  }

  lemma ChoosesNew(pools: seq<Pool>, q: Request, io: Io)
    requires AllOk(pools) && q.kind != OtherDisk && CreateWorks(io) && NameFree(pools, q.newName)
    requires !Unprobed(pools, q.kind, io) && !SomeOpen(pools, q)
    ensures
      var (made, l) := ChooseVolume(pools, q, io);
      && (l.At? <==> SomeRoom(pools, q.size, q.kind))
      && (l.At? ==> l.pool < |made| && l.volume < |made[l.pool].volumes|)
  {
    NoCandidates(pools, q);
    SubvolPlacedIff(pools, q.size, q.newName, q.kind, io);
    CreateSubvolPlaces(pools, q.size, q.newName, q.kind, io);
  }

  lemma NotKnown(pools: seq<Pool>, q: Request, io: Io)
    requires AllOk(pools) && Absent(pools, q.ns) && Listable(pools, {q.kind}, io)
    ensures FindFrom(pools, 0, q.ns, {q.kind}, io) == Missing
  {
    FindIsExact(pools, 0, q.ns, {q.kind}, io);
  }

  /** With working commands it succeeds exactly when a volume is open or a pool of the kind has room for a new one. */
  lemma AllocationSucceedsIff(pools: seq<Pool>, q: Request, io: Io)
    requires AllOk(pools) && Absent(pools, q.ns) && q.kind != OtherDisk && q.header.Written?
    requires CreateWorks(io) && io.list == {} && NameFree(pools, q.newName)
    ensures Allocate(pools, q, io).1.At? <==>
      SomeOpen(pools, q) || SomeRoom(pools, q.size, q.kind)
  {
    NotKnown(pools, q, io);
    if SomeOpen(pools, q) {
      ChoosesOpen(pools, q, io);
    } else {
      ChoosesNew(pools, q, io);
    }
  }

  // ---------------------------------------------------------------- pools that cannot be read

  /** A mounted pool of the kinds that cannot be listed, with the namespace on none of those before it. */
  ghost predicate BlockedAt(pools: seq<Pool>, i: nat, ns: string, kinds: set<DiskType>, io: Io, k: nat) {
    && i <= k < |pools| && pools[k].mounted && pools[k].kind in kinds && k in io.list
    && forall a: nat, b: nat :: i <= a < k && pools[a].kind in kinds ==> !Holds(pools, a, b, ns)
  }

  ghost predicate Blocked(pools: seq<Pool>, i: nat, ns: string, kinds: set<DiskType>, io: Io) {
    exists k: nat :: BlockedAt(pools, i, ns, kinds, io, k)
  }

  /** The lookup gives up exactly at such a pool. */
  lemma {:induction false} FindGivesUpIff(pools: seq<Pool>, i: nat, ns: string, kinds: set<DiskType>, io: Io)
    requires AllOk(pools) && i <= |pools|
    ensures FindFrom(pools, i, ns, kinds, io) == Unlisted <==> Blocked(pools, i, ns, kinds, io)
    decreases |pools| - i
  {
    if i < |pools| {
      FindGivesUpIff(pools, i + 1, ns, kinds, io);
      if pools[i].mounted && pools[i].kind in kinds && i in io.list {
        assert BlockedAt(pools, i, ns, kinds, io, i);
      } else {
        FindSkips(pools, i, ns, kinds, io);
      }
    }
  }

  lemma FindSkips(pools: seq<Pool>, i: nat, ns: string, kinds: set<DiskType>, io: Io)
    requires AllOk(pools) && i < |pools| && !(pools[i].mounted && pools[i].kind in kinds && i in io.list)
    requires FindFrom(pools, i + 1, ns, kinds, io) == Unlisted <==> Blocked(pools, i + 1, ns, kinds, io)
    ensures FindFrom(pools, i, ns, kinds, io) == Unlisted <==> Blocked(pools, i, ns, kinds, io)
  {
    assert PoolOk(pools[i]);
    var j := HolderIn(pools[i].volumes, ns, 0);
    if pools[i].mounted && pools[i].kind in kinds && j < |pools[i].volumes| {
      assert Holds(pools, i, j, ns);
      assert forall k: nat :: !BlockedAt(pools, i, ns, kinds, io, k);
    } else {
      assert pools[i].kind in kinds ==> forall b: nat :: !Holds(pools, i, b, ns);
      BlockedLater(pools, i, ns, kinds, io);
    }
  }

  lemma BlockedLater(pools: seq<Pool>, i: nat, ns: string, kinds: set<DiskType>, io: Io)
    requires i < |pools| && !(pools[i].mounted && pools[i].kind in kinds && i in io.list)
    requires pools[i].kind in kinds ==> forall b: nat :: !Holds(pools, i, b, ns)
    ensures Blocked(pools, i, ns, kinds, io) <==> Blocked(pools, i + 1, ns, kinds, io)
  {
    if k: nat :| BlockedAt(pools, i, ns, kinds, io, k) {
      assert BlockedAt(pools, i + 1, ns, kinds, io, k);
    }
    var next := i + 1;
    if k: nat :| BlockedAt(pools, next, ns, kinds, io, k) {
      assert BlockedAt(pools, i, ns, kinds, io, k);
    }
  }

  /** Then nothing is allocated, and nothing changes. */
  lemma AllocationGivesUp(pools: seq<Pool>, q: Request, io: Io, k: nat)
    requires AllOk(pools) && q.kind != OtherDisk && BlockedAt(pools, 0, q.ns, {q.kind}, io, k)
    ensures Allocate(pools, q, io) == (pools, Unlisted)
  {
    FindGivesUpIff(pools, 0, q.ns, {q.kind}, io);
  }

  /** Neither is anything when the namespace is absent and a mounted pool of the kind cannot be probed. */
  lemma UnprobedGivesUp(pools: seq<Pool>, q: Request, io: Io, k: nat)
    requires AllOk(pools) && q.kind != OtherDisk && Absent(pools, q.ns) && Listable(pools, {q.kind}, io)
    requires k < |pools| && pools[k].mounted && pools[k].kind == q.kind && k in io.probe
    ensures Allocate(pools, q, io) == (pools, Unlisted)
  {
    NotKnown(pools, q, io);
    assert UnprobedAt(pools, q.kind, io, k);
  }

  /** An allocation that fails at the header leaves the chosen volume, and the begun namespace if the file was made. */
  lemma HeaderFailureLeaves(pools: seq<Pool>, q: Request, io: Io)
    requires AllOk(pools) && ZdbName(q) && q.kind != OtherDisk && Absent(pools, q.ns) && Listable(pools, {q.kind}, io)
    requires ChooseVolume(pools, q, io).1.At? && !q.header.Written?
    ensures
      var (made, l) := ChooseVolume(pools, q, io);
      && Usable(made, l, q.kind)
      && Allocate(pools, q, io) ==
         (if q.header.Begun? then BeginNamespace(made, l.pool, l.volume, q.ns) else made, Missing)
  {
    NotKnown(pools, q, io);
    ChosenUsable(pools, q, io);
  }
}
