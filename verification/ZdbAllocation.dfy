/** What the allocation of a 0-db namespace promises. */
module ZdbAllocation {
  import opened U64
  import opened MapSums
  import opened Primitives
  import opened Sorting
  import opened Storage
  import opened StorageInvariants
  import opened StorageQuotas
  import opened Zdb

  /** No volume of any pool holds the namespace. */
  ghost predicate Absent(pools: seq<Pool>, ns: string) {
    forall a, b :: !Holds(pools, a, b, ns)
  }

  /** New 0-db volumes are named with the prefix that marks them. */
  predicate ZdbName(q: Request) {
    "zdb" <= q.newName
  }

  /** A location a namespace can be put on. */
  ghost predicate Usable(pools: seq<Pool>, l: Location, kind: DiskType)
  {
    && l.At? && l.pool < |pools| && l.volume < |pools[l.pool].volumes|
    && pools[l.pool].mounted && pools[l.pool].kind == kind
    && pools[l.pool].volumes[l.volume].IsZdb()
  }

  lemma {:induction false} CandidatesInUsable(p: Pool, i: nat, size: u64, mode: Mode, n: nat, c: Candidate)
    requires n <= |p.volumes| && c in CandidatesIn(p, i, size, mode, n)
    ensures c.pool == i && c.volume < n && Suits(p, p.volumes[c.volume], size, mode)
  {
    if n != 0 && c in CandidatesIn(p, i, size, mode, n - 1) {
      CandidatesInUsable(p, i, size, mode, n - 1, c);
    }
  }

  lemma {:induction false} CandidatesUsable(pools: seq<Pool>, size: u64, kind: DiskType, mode: Mode, n: nat, c: Candidate)
    requires n <= |pools| && c in ZdbCandidates(pools, size, kind, mode, n)
    ensures Usable(pools, At(c.pool, c.volume), kind)
    ensures c.pool < n && Suits(pools[c.pool], pools[c.pool].volumes[c.volume], size, mode)
  {
    if n != 0 {
      if c in ZdbCandidates(pools, size, kind, mode, n - 1) {
        CandidatesUsable(pools, size, kind, mode, n - 1, c);
      } else {
        CandidatesInUsable(pools[n - 1], n - 1, size, mode, |pools[n - 1].volumes|, c);
      }
    }
  }

  // ---------------------------------------------------------------- nothing else gains a namespace

  lemma {:induction false} TryAddBringsNoNamespace(pools: seq<Pool>, list: seq<nat>, name: string, io: Io, ns: string)
    requires Absent(pools, ns)
    ensures Absent(TryAdd(pools, list, name, io).0, ns)
    decreases |list|
  {
    if list != [] {
      var i := list[0];
      TryAddBringsNoNamespace(pools, list[1..], name, io, ns);
      if i < |pools| {
        WithVolumeBringsNoNamespace(pools, i, name, ns);
        TryAddBringsNoNamespace(WithVolume(pools, i, FreshVolume(name)), list[1..], name, io, ns);
      }
    }
  }

  lemma WithVolumeBringsNoNamespace(pools: seq<Pool>, i: nat, name: string, ns: string)
    requires Absent(pools, ns) && i < |pools|
    ensures Absent(WithVolume(pools, i, FreshVolume(name)), ns)
  {
    var more := WithVolume(pools, i, FreshVolume(name));
    forall a: nat, b: nat ensures !Holds(more, a, b, ns) {
      assert !Holds(pools, a, b, ns);
    }
  }

  lemma CreateSubvolBringsNoNamespace(pools: seq<Pool>, size: u64, name: string, kind: DiskType, io: Io, ns: string)
    requires Absent(pools, ns)
    ensures Absent(CreateSubvol(pools, size, name, kind, io).0, ns)
  {
    FindOnlyMounts(pools, size, kind, io);
    var (found, s) := FindCandidates(pools, size, kind, io);
    forall a: nat, b: nat ensures !Holds(found, a, b, ns) {
      assert !Holds(pools, a, b, ns);
    }
    if s.Candidates? {
      TryAddBringsNoNamespace(found, s.list, name, io, ns);
    }
  }

  // ---------------------------------------------------------------- the chosen volume

  /** The pools stay in order, keep their identity and their quotas. */
  ghost predicate Undisturbed(a: seq<Pool>, b: seq<Pool>) {
    AllOk(b) && SamePools(a, b) && SameQuotas(a, b)
  }

  lemma UndisturbedTwice(a: seq<Pool>, b: seq<Pool>, c: seq<Pool>)
    requires Undisturbed(a, b) && Undisturbed(b, c)
    ensures Undisturbed(a, c)
  {
  }

  lemma UndisturbedSelf(a: seq<Pool>)
    requires AllOk(a)
    ensures Undisturbed(a, a)
  {
  }

  lemma BestIsCandidate(list: seq<Candidate>)
    requires list != []
    ensures Sort(list, MostFree()) != [] && Sort(list, MostFree())[0] in list
  {
    var best := Sort(list, MostFree());
    SameElements(best, list, list[0]);
    SameElements(best, list, best[0]);
  }

  /** The volume that is chosen, new or not, is a mounted 0-db volume of the kind. */
  lemma ChosenUsable(pools: seq<Pool>, q: Request, io: Io)
    requires AllOk(pools) && ZdbName(q)
    ensures
      var (made, l) := ChooseVolume(pools, q, io);
      && Undisturbed(pools, made)
      && (l.At? ==> Usable(made, l, q.kind))
  {
    var list := ZdbCandidates(pools, q.size, q.kind, q.mode, |pools|);
    UndisturbedSelf(pools);
    if list == [] {
      CreateSubvolOk(pools, q.size, q.newName, q.kind, io);
      CreateSubvolPlaces(pools, q.size, q.newName, q.kind, io);
    } else {
      BestIsCandidate(list);
      CandidatesUsable(pools, q.size, q.kind, q.mode, |pools|, Sort(list, MostFree())[0]);
    }
  }

  /** The chosen volume was there before, with nothing changed, or is new. */
  lemma ChosenOldOrNew(pools: seq<Pool>, q: Request, io: Io)
    requires AllOk(pools) && ZdbName(q) && ChooseVolume(pools, q, io).1.At?
    ensures
      var (made, l) := ChooseVolume(pools, q, io);
      && Usable(made, l, q.kind)
      && (made == pools || made[l.pool].volumes[l.volume] == FreshVolume(q.newName))
  {
    ChosenUsable(pools, q, io);
    if ZdbCandidates(pools, q.size, q.kind, q.mode, |pools|) == [] {
      CreateSubvolPlaces(pools, q.size, q.newName, q.kind, io);
    }
  }

  lemma ChosenBringsNoNamespace(pools: seq<Pool>, q: Request, io: Io, ns: string)
    requires Absent(pools, ns)
    ensures Absent(ChooseVolume(pools, q, io).0, ns)
  {
    CreateSubvolBringsNoNamespace(pools, q.size, q.newName, q.kind, io, ns);
  }

  // ---------------------------------------------------------------- writing the namespace

  lemma QuotaSumSame(a: seq<Subvolume>, b: seq<Subvolume>)
    requires |a| == |b| && forall j :: 0 <= j < |a| ==> a[j].quota == b[j].quota
    ensures QuotaSum(a) == QuotaSum(b)
  {
  }

  lemma CreateNamespaceOk(pools: seq<Pool>, l: Location, ns: string, size: u64, kind: DiskType)
    requires AllOk(pools) && Usable(pools, l, kind)
    ensures
      var after := CreateNamespace(pools, l.pool, l.volume, ns, size);
      Undisturbed(pools, after) && Usable(after, l, kind)
  {
    var after := CreateNamespace(pools, l.pool, l.volume, ns, size);
    QuotaSumSame(pools[l.pool].volumes, after[l.pool].volumes);
  }

  lemma BeginNamespaceOk(pools: seq<Pool>, l: Location, ns: string, kind: DiskType)
    requires AllOk(pools) && Usable(pools, l, kind)
    ensures
      var after := BeginNamespace(pools, l.pool, l.volume, ns);
      Undisturbed(pools, after) && Usable(after, l, kind)
  {
    var after := BeginNamespace(pools, l.pool, l.volume, ns);
    QuotaSumSame(pools[l.pool].volumes, after[l.pool].volumes);
  }

  lemma BeginNamespaceHolds(pools: seq<Pool>, l: Location, ns: string, kind: DiskType)
    requires Usable(pools, l, kind) && Absent(pools, ns)
    ensures
      var after := BeginNamespace(pools, l.pool, l.volume, ns);
      forall a: nat, b: nat :: Holds(after, a, b, ns) <==> a == l.pool && b == l.volume
  {
    var after := BeginNamespace(pools, l.pool, l.volume, ns);
    forall a: nat, b: nat ensures Holds(after, a, b, ns) <==> a == l.pool && b == l.volume {
      assert !Holds(pools, a, b, ns);
    }
  }

  /** The namespace is then on that volume and on no other. */
  lemma CreateNamespaceHolds(pools: seq<Pool>, l: Location, ns: string, size: u64, kind: DiskType)
    requires Usable(pools, l, kind) && Absent(pools, ns)
    ensures
      var after := CreateNamespace(pools, l.pool, l.volume, ns, size);
      forall a: nat, b: nat :: Holds(after, a, b, ns) <==> a == l.pool && b == l.volume
  {
    var after := CreateNamespace(pools, l.pool, l.volume, ns, size);
    forall a: nat, b: nat ensures Holds(after, a, b, ns) <==> a == l.pool && b == l.volume {
      assert !Holds(pools, a, b, ns);
    }
  }

  lemma NamespaceRaisesSize(ns: map<string, u64>, name: string, size: u64)
    requires name !in ns && name != "default"
    ensures NamespacesSize(ns[name := size]) == NamespacesSize(ns) + size
  {
    DefaultAside(ns, name, size);
    SumStore(Accounted(ns), Identity(), name, size);
  }

  lemma DefaultAside(ns: map<string, u64>, name: string, size: u64)
    requires name != "default"
    ensures Accounted(ns[name := size]) == Accounted(ns)[name := size]
  {
  }

  // ---------------------------------------------------------------- allocation

  /** Allocation keeps every pool in order and touches no quota, whatever fails. */
  lemma AllocateOk(pools: seq<Pool>, q: Request, io: Io)
    requires AllOk(pools) && ZdbName(q)
    ensures
      Undisturbed(pools, Allocate(pools, q, io).0)
  {
    UndisturbedSelf(pools);
    ChosenUsable(pools, q, io);
    var (made, l) := ChooseVolume(pools, q, io);
    if l.At? {
      CreateNamespaceOk(made, l, q.ns, q.size, q.kind);
      UndisturbedTwice(pools, made, CreateNamespace(made, l.pool, l.volume, q.ns, q.size));
      BeginNamespaceOk(made, l, q.ns, q.kind);
      UndisturbedTwice(pools, made, BeginNamespace(made, l.pool, l.volume, q.ns));
    }
  }

  /** The allocation of a namespace that exists nowhere, when it succeeds, is a choice and one write. */
  lemma AllocateNew(pools: seq<Pool>, q: Request, io: Io)
    requires AllOk(pools) && ZdbName(q) && Absent(pools, q.ns) && Listable(pools, {q.kind}, io) && Allocate(pools, q, io).1.At?
    ensures
      var (made, l) := ChooseVolume(pools, q, io);
      && Usable(made, l, q.kind) && Absent(made, q.ns)
      && Allocate(pools, q, io) == (CreateNamespace(made, l.pool, l.volume, q.ns, q.size), l)
  {
    FindIsExact(pools, 0, q.ns, {q.kind}, io);
    ChosenUsable(pools, q, io);
    ChosenBringsNoNamespace(pools, q, io, q.ns);
  }

  /** After a successful allocation the lookup returns exactly that volume. */
  lemma AllocatedIsFound(pools: seq<Pool>, q: Request, io: Io, later: Io)
    requires AllOk(pools) && ZdbName(q) && Absent(pools, q.ns) && Listable(pools, {q.kind}, io)
    requires Listable(Allocate(pools, q, io).0, ANY_KIND, later)
    requires Allocate(pools, q, io).1.At?
    ensures
      var (after, l) := Allocate(pools, q, io);
      Find(after, q.ns, later) == l
  {
    AllocateNew(pools, q, io);
    AllocateOk(pools, q, io);
    var (made, l) := ChooseVolume(pools, q, io);
    CreateNamespaceHolds(made, l, q.ns, q.size, q.kind);
    FoundWhereHeld(Allocate(pools, q, io).0, l, q.ns, ANY_KIND, later);
  }

  /** Where exactly one volume holds a namespace, the lookup returns it. */
  lemma FoundWhereHeld(pools: seq<Pool>, l: Location, ns: string, kinds: set<DiskType>, io: Io)
    requires AllOk(pools) && Listable(pools, kinds, io) && l.At? && l.pool < |pools| && pools[l.pool].kind in kinds
    requires forall a: nat, b: nat :: Holds(pools, a, b, ns) <==> a == l.pool && b == l.volume
    ensures FindFrom(pools, 0, ns, kinds, io) == l
  {
    FindIsExact(pools, 0, ns, kinds, io);
    assert Holds(pools, l.pool, l.volume, ns);
  }

  /** It raises what the volume, an existing or a new one, has reserved by exactly the requested size. */
  lemma AllocationIsReserved(pools: seq<Pool>, q: Request, io: Io)
    requires AllOk(pools) && ZdbName(q) && Absent(pools, q.ns) && Listable(pools, {q.kind}, io) && q.ns != "default"
    requires Allocate(pools, q, io).1.At?
    ensures
      var (made, _) := ChooseVolume(pools, q, io);
      var (after, l) := Allocate(pools, q, io);
      && Usable(made, l, q.kind) && Usable(after, l, q.kind)
      && (made == pools || made[l.pool].volumes[l.volume] == FreshVolume(q.newName))
      && NamespacesSize(after[l.pool].volumes[l.volume].namespaces)
         == NamespacesSize(made[l.pool].volumes[l.volume].namespaces) + q.size
  {
    AllocateNew(pools, q, io);
    var (made, l) := ChooseVolume(pools, q, io);
    assert !Holds(made, l.pool, l.volume, q.ns);
    ChosenOldOrNew(pools, q, io);
    NamespaceRaisesSize(made[l.pool].volumes[l.volume].namespaces, q.ns, q.size);
  }

  /** And asking again for the same namespace on the same kind of disk gives the same answer and changes nothing. */
  lemma AllocateAgain(pools: seq<Pool>, q: Request, io: Io, again: Request, later: Io)
    requires AllOk(pools) && ZdbName(q) && Absent(pools, q.ns) && Listable(pools, {q.kind}, io)
    requires Listable(Allocate(pools, q, io).0, {q.kind}, later)
    requires Allocate(pools, q, io).1.At? && again.ns == q.ns && again.kind == q.kind
    ensures
      var (after, l) := Allocate(pools, q, io);
      Allocate(after, again, later) == (after, l)
  {
    AllocateNew(pools, q, io);
    AllocateOk(pools, q, io);
    var (made, l) := ChooseVolume(pools, q, io);
    CreateNamespaceHolds(made, l, q.ns, q.size, q.kind);
    FoundWhereHeld(Allocate(pools, q, io).0, l, q.ns, {q.kind}, later);
  }

  /**
   * An allocation that fails at the header has left a namespace behind exactly when the file was begun.  The
   * next request for it is then told that it is allocated, and nothing is reserved.
   */
  lemma FailedAllocationIsFoundIff(pools: seq<Pool>, q: Request, io: Io, later: Io)
    requires AllOk(pools) && ZdbName(q) && Absent(pools, q.ns) && Listable(pools, {q.kind}, io)
    requires Listable(Allocate(pools, q, io).0, ANY_KIND, later)
    requires q.kind != OtherDisk && ChooseVolume(pools, q, io).1.At? && !q.header.Written?
    ensures
      var (made, l) := ChooseVolume(pools, q, io);
      var after := Allocate(pools, q, io).0;
      && Allocate(pools, q, io).1 == Missing
      && (Find(after, q.ns, later) == l <==> q.header.Begun?)
      && (Find(after, q.ns, later) == Missing <==> q.header.Refused?)
  {
    FindIsExact(pools, 0, q.ns, {q.kind}, io);
    ChosenUsable(pools, q, io);
    ChosenBringsNoNamespace(pools, q, io, q.ns);
    var (made, l) := ChooseVolume(pools, q, io);
    if q.header.Begun? {
      BeginNamespaceOk(made, l, q.ns, q.kind);
      BeginNamespaceHolds(made, l, q.ns, q.kind);
      FoundWhereHeld(BeginNamespace(made, l.pool, l.volume, q.ns), l, q.ns, ANY_KIND, later);
    } else {
      MissingIffAbsent(made, q.ns, later);
    }
  }

  lemma AllocateBegun(pools: seq<Pool>, q: Request, io: Io)
    requires AllOk(pools) && ZdbName(q) && Absent(pools, q.ns) && Listable(pools, {q.kind}, io)
    requires q.kind != OtherDisk && ChooseVolume(pools, q, io).1.At? && q.header.Begun?
    ensures
      var (made, l) := ChooseVolume(pools, q, io);
      && AllOk(made) && Usable(made, l, q.kind) && Absent(made, q.ns)
      && Allocate(pools, q, io).0 == BeginNamespace(made, l.pool, l.volume, q.ns)
  {
    FindIsExact(pools, 0, q.ns, {q.kind}, io);
    ChosenUsable(pools, q, io);
    ChosenBringsNoNamespace(pools, q, io, q.ns);
  }

  /** A namespace whose file was begun is reported as allocated when it is asked for again. */
  lemma BegunIsReportedAllocated(pools: seq<Pool>, q: Request, io: Io, again: Request, later: Io)
    requires AllOk(pools) && ZdbName(q) && Absent(pools, q.ns) && Listable(pools, {q.kind}, io)
    requires Listable(Allocate(pools, q, io).0, {q.kind}, later)
    requires q.kind != OtherDisk && ChooseVolume(pools, q, io).1.At? && q.header.Begun?
    requires again.ns == q.ns && again.kind == q.kind
    ensures
      var (made, l) := ChooseVolume(pools, q, io);
      var after := Allocate(pools, q, io).0;
      && Usable(made, l, q.kind) && Usable(after, l, q.kind)
      && Allocate(after, again, later) == (after, l)
      && after[l.pool].volumes[l.volume].namespaces == made[l.pool].volumes[l.volume].namespaces
  {
    AllocateBegun(pools, q, io);
    var (made, l) := ChooseVolume(pools, q, io);
    BeginNamespaceOk(made, l, q.ns, q.kind);
    BeginNamespaceHolds(made, l, q.ns, q.kind);
    FoundWhereHeld(BeginNamespace(made, l.pool, l.volume, q.ns), l, q.ns, {q.kind}, later);
  }

  /** The lookup over mounted pools reports a namespace missing exactly when no pool at all holds it. */
  lemma MissingIffAbsent(pools: seq<Pool>, ns: string, io: Io)
    requires AllOk(pools) && Listable(pools, ANY_KIND, io)
    ensures Find(pools, ns, io) == Missing <==> Absent(pools, ns)
  {
    FindIsExact(pools, 0, ns, ANY_KIND, io);
    if NowhereFrom(pools, 0, ns, ANY_KIND) {
      forall a: nat, b: nat ensures !Holds(pools, a, b, ns) {
        if a < |pools| {
          AnyKind(pools[a]);
        }
      }
    }
  }
}
