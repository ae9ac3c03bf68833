/**
Looking up volumes and 0-db namespaces, and allocating namespaces
(pkg/storage/storage.go:415-499, pkg/storage/zdb.go:18-233,
pkg/storage/zdbpool/pool.go:31-130).
*/
module Zdb {
  import opened U64
  import opened Primitives
  import opened Sorting
  import opened Storage
  import opened StorageInvariants

  /** A volume by the positions of its pool and of itself; `Unlisted` is a pool that cannot be read. */
  datatype Location = At(pool: nat, volume: nat) | Missing | Unlisted

  predicate Exists(v: Subvolume, ns: string) {
    v.IsZdb() && (ns in v.namespaces || ns in v.headless)
  }

  /** The first volume from position `j` that holds the namespace. */
  function HolderIn(vs: seq<Subvolume>, ns: string, j: nat): (k: nat)
    requires j <= |vs|
    ensures j <= k <= |vs|
    ensures k < |vs| ==> Exists(vs[k], ns)
    ensures forall l :: j <= l < k ==> !Exists(vs[l], ns)
    decreases |vs| - j
  {
    if j == |vs| || Exists(vs[j], ns) then j else HolderIn(vs, ns, j + 1)
  }

  /** The first mounted pool of one of the kinds that holds the namespace. */
  function FindFrom(pools: seq<Pool>, i: nat, ns: string, kinds: set<DiskType>, io: Io): Location
    requires i <= |pools|
    decreases |pools| - i
  {
    if i == |pools| then Missing
    else if !pools[i].mounted || pools[i].kind !in kinds then FindFrom(pools, i + 1, ns, kinds, io)
    else if i in io.list then Unlisted
    else
      var j := HolderIn(pools[i].volumes, ns, 0);
      if j < |pools[i].volumes| then At(i, j) else FindFrom(pools, i + 1, ns, kinds, io)
  }

  const ANY_KIND := {SSD, HDD, OtherDisk}

  function Find(pools: seq<Pool>, ns: string, io: Io): Location {
    FindFrom(pools, 0, ns, ANY_KIND, io)
  }

  // ---------------------------------------------------------------- allocation

  datatype Candidate = Candidate(pool: nat, volume: nat, free: u64)

  /** A 0-db volume that has room by itself and whose index is of the wanted mode. */
  ghost predicate Suits(p: Pool, v: Subvolume, size: u64, mode: Mode) {
    && v.IsZdb()
    && Add(Wrap(VolumeSize(v)), size) <= p.size
    && v.index == Index(mode)
  }

  ghost function CandidatesIn(p: Pool, i: nat, size: u64, mode: Mode, n: nat): seq<Candidate>
    requires n <= |p.volumes|
  {
    if n == 0 then []
    else
      var rest := CandidatesIn(p, i, size, mode, n - 1);
      var v := p.volumes[n - 1];
      if Suits(p, v, size, mode) then rest + [Candidate(i, n - 1, p.size - Add(Wrap(VolumeSize(v)), size))] else rest
  }

  ghost function ZdbCandidates(pools: seq<Pool>, size: u64, kind: DiskType, mode: Mode, n: nat): seq<Candidate>
    requires n <= |pools|
  {
    if n == 0 then []
    else
      var rest := ZdbCandidates(pools, size, kind, mode, n - 1);
      var p := pools[n - 1];
      if p.mounted && p.kind == kind then rest + CandidatesIn(p, n - 1, size, mode, |p.volumes|) else rest
  }

  function MostFree(): Candidate -> int {
    (c: Candidate) => -(c.free as int)
  }

  /** Some mounted pool of the kind cannot be probed or listed. */
  ghost predicate Unprobed(pools: seq<Pool>, kind: DiskType, io: Io) {
    exists i: nat :: i < |pools| && UnprobedAt(pools, kind, io, i)
  }

  predicate UnprobedAt(pools: seq<Pool>, kind: DiskType, io: Io, i: nat)
    requires i < |pools|
  {
    pools[i].mounted && pools[i].kind == kind && (i in io.probe || i in io.list)
  }

  /** Writes the header of a namespace on a volume. */
  function CreateNamespace(pools: seq<Pool>, i: nat, j: nat, ns: string, size: u64): seq<Pool>
    requires i < |pools| && j < |pools[i].volumes|
  {
    var v := pools[i].volumes[j];
    pools[i := pools[i].(volumes := pools[i].volumes[j := v.(namespaces := v.namespaces[ns := size])])]
  }

  /** The writing of the header can come to its end, fail with the file in place, or fail before. */
  datatype Write = Written | Begun | Refused

  function BeginNamespace(pools: seq<Pool>, i: nat, j: nat, ns: string): seq<Pool>
    requires i < |pools| && j < |pools[i].volumes|
  {
    var v := pools[i].volumes[j];
    pools[i := pools[i].(volumes := pools[i].volumes[j := v.(headless := v.headless + {ns})])]
  }

  /** A request for a namespace: `newName` is the name for a new volume, `header` how writing the header goes. */
  datatype Request = Request(ns: string, kind: DiskType, size: u64, mode: Mode, newName: string, header: Write)

  ghost function ChooseVolume(pools: seq<Pool>, q: Request, io: Io): (seq<Pool>, Location) {
    if Unprobed(pools, q.kind, io) then (pools, Unlisted)
    else
      var list := ZdbCandidates(pools, q.size, q.kind, q.mode, |pools|);
      if list != [] then
        var best := Sort(list, MostFree());
        assert |multiset(best)| == |multiset(list)|;
        (pools, At(best[0].pool, best[0].volume))
      else
        var (made, p) := CreateSubvol(pools, q.size, q.newName, q.kind, io);
        if p.Placed? && p.pool < |made| && made[p.pool].volumes != []
        then (made, At(p.pool, |made[p.pool].volumes| - 1)) else (made, Missing)
  }

  ghost function Allocate(pools: seq<Pool>, q: Request, io: Io): (seq<Pool>, Location) {
    if q.kind == OtherDisk then (pools, Missing)
    else
      var known := FindFrom(pools, 0, q.ns, {q.kind}, io);
      if known != Missing then (pools, known)
      else
        var (made, l) := ChooseVolume(pools, q, io);
        if !l.At? || l.pool >= |made| || l.volume >= |made[l.pool].volumes| then (made, l)
        else if q.header.Refused? then (made, Missing)
        else if q.header.Begun? then (BeginNamespace(made, l.pool, l.volume, q.ns), Missing)
        else (CreateNamespace(made, l.pool, l.volume, q.ns, q.size), l)
  }

  // ---------------------------------------------------------------- lookups

  /** Volume `(i, j)` holds the namespace. */
  ghost predicate Holds(pools: seq<Pool>, i: nat, j: nat, ns: string) {
    && i < |pools| && j < |pools[i].volumes| && "zdb" <= pools[i].volumes[j].name
    && (ns in pools[i].volumes[j].namespaces || ns in pools[i].volumes[j].headless)
  }

  /** Before position `(i, j)`, pool by pool. */
  predicate Before(a: nat, b: nat, i: nat, j: nat) {
    a < i || (a == i && b < j)
  }

  ghost predicate NowhereFrom(pools: seq<Pool>, i: nat, ns: string, kinds: set<DiskType>) {
    forall a, b :: i <= a < |pools| && pools[a].kind in kinds ==> !Holds(pools, a, b, ns)
  }

  lemma AnyKind(p: Pool)
    ensures p.kind in ANY_KIND
  {
    var k := p.kind;
    assert k == SSD || k == HDD || k == OtherDisk;
  }

  /** The mounted pools of the kinds can be listed. */
  ghost predicate Listable(pools: seq<Pool>, kinds: set<DiskType>, io: Io) {
    forall i: nat :: i < |pools| && pools[i].mounted && pools[i].kind in kinds ==> i !in io.list
  }

  /**
   * Skipping unmounted pools is right because they hold nothing: the search finds the first of all
   * volumes that hold the namespace, and reports it missing exactly when no pool at all holds it.
   */
  lemma {:induction false} FindIsExact(pools: seq<Pool>, i: nat, ns: string, kinds: set<DiskType>, io: Io)
    requires AllOk(pools) && i <= |pools| && Listable(pools, kinds, io)
    ensures
      var l := FindFrom(pools, i, ns, kinds, io);
      && l != Unlisted
      && (l == Missing <==> NowhereFrom(pools, i, ns, kinds))
      && (l.At? ==>
            && i <= l.pool < |pools| && pools[l.pool].kind in kinds && Holds(pools, l.pool, l.volume, ns)
            && forall a, b :: i <= a && Before(a, b, l.pool, l.volume) && pools[a].kind in kinds ==> !Holds(pools, a, b, ns))
    decreases |pools| - i
  {
    if i < |pools| {
      FindIsExact(pools, i + 1, ns, kinds, io);
      assert PoolOk(pools[i]);
      var l := FindFrom(pools, i, ns, kinds, io);
      if l.At? {
        assert Holds(pools, l.pool, l.volume, ns);
      } else {
        assert NowhereFrom(pools, i + 1, ns, kinds);
        forall b | pools[i].kind in kinds ensures !Holds(pools, i, b, ns) {
        }
      }
    }
  }
}
