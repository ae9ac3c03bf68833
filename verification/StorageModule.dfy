/**
The storage module as the object the daemon runs (pkg/storage/storage.go:315-499,
644-803, pkg/storage/zdb.go:18-160, pkg/storage/filesystem/btrfs.go:448-466,
pkg/storage/zdbpool/pool.go:31-45).  Each method is proved to compute the
function of the state that the theorems are about.
*/
module StorageModule {
  import opened U64
  import opened MapSums
  import opened Primitives
  import opened Sorting
  import S = Storage
  import Zdb
  import L = Lookups

  /** The sum of the sizes of all namespaces but the default one. */
  method NamespacesReserved(namespaces: map<string, u64>) returns (total: u64)
    ensures total == Wrap(S.NamespacesSize(namespaces))
  {
    total := 0;
    var left := S.Accounted(namespaces);
    ghost var seen: nat := 0;
    ghost var all := Sum(left, S.Identity());
    while left.Keys != {}
      invariant Counted(left, total, seen, all)
      decreases |left|
    {
      left, total, seen := TakeOne(left, total, seen, all);
    }
    AllCounted(left, total, seen, all);
  }

  lemma AllCounted(left: map<string, u64>, total: u64, seen: nat, all: nat)
    requires left.Keys == {} && Counted(left, total, seen, all)
    ensures total == Wrap(all)
  {
    assert |left| == 0;
  }

  /** What has been summed up so far, and what is left. */
  ghost predicate Counted(left: map<string, u64>, total: u64, seen: nat, all: nat) {
    total == Wrap(seen) && seen + Sum(left, S.Identity()) == all
  }

  method TakeOne(left: map<string, u64>, total: u64, ghost seen: nat, ghost all: nat)
    returns (left': map<string, u64>, total': u64, ghost seen': nat)
    requires left.Keys != {} && Counted(left, total, seen, all)
    ensures Counted(left', total', seen', all) && |left'| < |left|
  {
    var k :| k in left.Keys;
    left' := left - {k};
    TookOne(left, k, left', total, seen, all);
    total', seen' := Add(total, left[k]), seen + left[k];
  }

  lemma TookOne(left: map<string, u64>, k: string, rest: map<string, u64>, total: u64, seen: nat, all: nat)
    requires k in left && rest == left - {k} && Counted(left, total, seen, all)
    ensures Counted(rest, Add(total, left[k]), seen + left[k], all) && |rest| < |left|
  {
    TakeNamespace(left, k);
    Smaller(left, k);
    CountedNext(total, seen, left[k]);
  }

  lemma CountedNext(total: u64, seen: nat, size: u64)
    requires total == Wrap(seen)
    ensures Add(total, size) == Wrap(seen + size)
  {
    AddWrap(seen, size);
  }

  lemma TakeNamespace(left: map<string, u64>, k: string)
    requires k in left
    ensures Sum(left, S.Identity()) == left[k] + Sum(left - {k}, S.Identity())
  {
    SumDrop(left, S.Identity(), k);
  }

  method VolumeUsage(v: S.Subvolume) returns (size: u64)
    ensures size == Wrap(S.VolumeSize(v))
  {
    if !v.qgroup { return 0; }
    if v.IsZdb() {
      size := NamespacesReserved(v.namespaces);
      return;
    }
    return if v.quota == 0 then v.files else v.quota;
  }

  method PoolReserved(p: S.Pool) returns (total: u64)
    ensures total == S.Reserved(p)
  {
    total := 0;
    for j := 0 to |p.volumes|
      invariant total == Wrap(S.VolumesSize(p.volumes[..j]))
    {
      var usage := VolumeUsage(p.volumes[j]);
      assert p.volumes[..j + 1][..j] == p.volumes[..j];
      AddWrapBoth(S.VolumesSize(p.volumes[..j]), S.VolumeSize(p.volumes[j]));
      total := Add(total, usage);
    }
    assert p.volumes[..|p.volumes|] == p.volumes;
  }

  class Module {
    var pools: seq<S.Pool>

    constructor (pools: seq<S.Pool>)
      ensures this.pools == pools
    {
      this.pools := pools;
    }

    /** Mounted pools of the kind that have room, in the order of the pools. */
    method CheckMounted(size: u64, kind: DiskType, io: S.Io) returns (candidates: seq<nat>)
      ensures candidates == S.MountedFits(pools, size, kind, io, |pools|)
    {
      candidates := [];
      for i := 0 to |pools|
        invariant candidates == S.MountedFits(pools, size, kind, io, i)
      {
        if pools[i].mounted && pools[i].kind == kind && i !in io.probe {
          var reserved := PoolReserved(pools[i]);
          if Add(reserved, size) <= pools[i].size {
            candidates := candidates + [i];
          }
        }
      }
    }

    /** Mounts unmounted pools of the kind one by one until one has room. */
    method CheckUnmounted(size: u64, kind: DiskType, io: S.Io) returns (found: S.Search)
      modifies this
      ensures (pools, found) == S.Scan(old(pools), 0, size, kind, io)
    {
      var i := 0;
      while i < |pools|
        invariant i <= |pools|
        invariant S.Scan(pools, i, size, kind, io) == S.Scan(old(pools), 0, size, kind, io)
        decreases |pools| - i
      {
        var p := pools[i];
        ghost var was := pools;
        if !p.mounted && p.kind == kind {
          if i in io.mount { return S.Broken; }
          pools := pools[i := p.(mounted := true)];
          if i in io.enable { return S.Broken; }
          if i !in io.probe {
            var reserved := PoolReserved(p);
            if Add(reserved, size) <= p.size { return S.Candidates([i]); }
            if i in io.unmount { return S.Broken; }
            pools := pools[i := p];
            assert pools == was;
            if i in io.shutdown { return S.Broken; }
          }
        }
        i := i + 1;
      }
      return S.NotEnough;
    }

    method FindCandidates(size: u64, kind: DiskType, io: S.Io) returns (found: S.Search)
      modifies this
      ensures (pools, found) == S.FindCandidates(old(pools), size, kind, io)
    {
      var candidates := CheckMounted(size, kind, io);
      if candidates != [] {
        return S.Candidates(Sort(candidates, S.LargestFirst(pools)));
      }
      found := CheckUnmounted(size, kind, io);
    }

    method CreateSubvol(size: u64, name: string, kind: DiskType, io: S.Io) returns (placed: S.Placed)
      modifies this
      ensures (pools, placed) == S.CreateSubvol(old(pools), size, name, kind, io)
    {
      if kind != HDD && kind != SSD { return S.NotPlaced; }
      var found := FindCandidates(size, kind, io);
      if !found.Candidates? { return S.NotPlaced; }
      ghost var start := pools;
      var list := found.list;
      while list != []
        invariant S.TryAdd(pools, list, name, io) == S.TryAdd(start, found.list, name, io)
        decreases |list|
      {
        var i := list[0];
        list := list[1..];
        if i < |pools| && pools[i].mounted && !S.HasVolume(pools[i], name) && i !in io.add {
          pools := S.WithVolume(pools, i, S.FreshVolume(name));
          if i !in io.info { return S.Placed(i); }
        }
      }
      return S.NotPlaced;
    }

    /** The caller is told of a failure also when the usage of the new volume, which stays, cannot be read. */
    method CreateFilesystem(name: string, size: u64, kind: DiskType, io: S.Io) returns (ok: bool, placed: S.Placed)
      modifies this
      ensures (pools, placed) == S.CreateFilesystem(old(pools), name, size, kind, io)
      ensures ok <==> placed.Placed? && !io.usage
    {
      if "zdb" <= name { return false, S.NotPlaced; }
      placed := CreateSubvol(size, name, kind, io);
      if placed.NotPlaced? { return false, placed; }
      if io.limit || placed.pool >= |pools| || pools[placed.pool].volumes == [] { return false, S.NotPlaced; }
      pools := S.Limit(pools, placed.pool, size);
      return !io.usage, placed;
    }

    /** Removes the volume from every mounted pool that has it, and powers down pools left empty. */
    method ReleaseFilesystem(name: string, io: S.Io) returns (ok: bool)
      modifies this
      ensures (pools, ok) == S.ReleaseFilesystem(old(pools), name, io)
    {
      var i := 0;
      while i < |pools|
        invariant i <= |pools|
        invariant S.ReleaseFrom(pools, i, name, io) == S.ReleaseFrom(old(pools), 0, name, io)
        decreases |pools| - i
      {
        var p := pools[i];
        ghost var was := pools;
        assert was[i := p] == was;
        if p.mounted {
          if i in io.list { return false; }
          if S.HasVolume(p, name) {
            if i in io.remove { return false; }
            pools := pools[i := p.(volumes := S.Without(p.volumes, name))];
            if i in io.destroy { return false; }
            if |p.volumes| == 1 {
              if i in io.unmount { return false; }
              pools := pools[i := pools[i].(mounted := false)];
              assert pools == was[i := pools[i]];
              if i in io.shutdown { return false; }
            }
          }
        }
        i := i + 1;
      }
      return true;
    }

    method ShutdownUnusedPools(io: S.Io)
      modifies this
      ensures pools == S.ShutdownFrom(old(pools), 0, io)
    {
      var i := 0;
      while i < |pools|
        invariant i <= |pools|
        invariant S.ShutdownFrom(pools, i, io) == S.ShutdownFrom(old(pools), 0, io)
        decreases |pools| - i
      {
        if pools[i].mounted {
          if i in io.list { return; }
          if pools[i].volumes == [] {
            if i in io.unmount { return; }
            pools := pools[i := pools[i].(mounted := false)];
          }
        }
        i := i + 1;
      }
    }

    method Path(name: string, io: S.Io) returns (l: Zdb.Location)
      ensures l == L.PathFrom(pools, 0, name, io)
    {
      var i := 0;
      while i < |pools|
        invariant i <= |pools|
        invariant L.PathFrom(pools, i, name, io) == L.PathFrom(pools, 0, name, io)
      {
        if pools[i].mounted {
          if i in io.list { return Zdb.Unlisted; }
          var j := L.NamedIn(pools[i].volumes, name, 0);
          if j < |pools[i].volumes| { return Zdb.At(i, j); }
        }
        i := i + 1;
      }
      return Zdb.Missing;
    }

    /** The ordinary volumes by position; reading the usage of a volume is part of listing its pool. */
    method ListFilesystems(io: S.Io) returns (ok: bool, list: seq<(nat, nat)>)
      ensures ok <==> forall k :: 0 <= k < |pools| && pools[k].mounted ==> k !in io.list
      ensures ok ==> list == L.Listed(pools, |pools|)
    {
      list := [];
      for i := 0 to |pools|
        invariant list == L.Listed(pools, i)
        invariant forall k :: 0 <= k < i && pools[k].mounted ==> k !in io.list
      {
        if pools[i].mounted {
          if i in io.list { return false, []; }
          var more := ListPool(i);
          list := list + more;
        }
      }
      return true, list;
    }

    method ListPool(i: nat) returns (list: seq<(nat, nat)>)
      requires i < |pools|
      ensures list == L.ListedIn(pools[i], i, |pools[i].volumes|)
    {
      list := [];
      var p := pools[i];
      for j := 0 to |p.volumes|
        invariant list == L.ListedIn(p, i, j)
      {
        if !L.Special(p.volumes[j]) {
          list := list + [(i, j)];
        }
      }
    }

    method Find(ns: string, io: S.Io) returns (l: Zdb.Location)
      ensures l == Zdb.Find(pools, ns, io)
    {
      l := FindOn(ns, Zdb.ANY_KIND, io);
    }

    method FindOn(ns: string, kinds: set<DiskType>, io: S.Io) returns (l: Zdb.Location)
      ensures l == Zdb.FindFrom(pools, 0, ns, kinds, io)
    {
      var i := 0;
      while i < |pools|
        invariant i <= |pools|
        invariant Zdb.FindFrom(pools, i, ns, kinds, io) == Zdb.FindFrom(pools, 0, ns, kinds, io)
      {
        if pools[i].mounted && pools[i].kind in kinds {
          if i in io.list { return Zdb.Unlisted; }
          var j := Zdb.HolderIn(pools[i].volumes, ns, 0);
          if j < |pools[i].volumes| { return Zdb.At(i, j); }
        }
        i := i + 1;
      }
      return Zdb.Missing;
    }

    /** The 0-db volumes of one pool that suit a request. */
    method CheckZdbVolumes(i: nat, size: u64, mode: S.Mode) returns (list: seq<Zdb.Candidate>)
      requires i < |pools|
      ensures list == Zdb.CandidatesIn(pools[i], i, size, mode, |pools[i].volumes|)
    {
      list := [];
      var p := pools[i];
      for j := 0 to |p.volumes|
        invariant list == Zdb.CandidatesIn(p, i, size, mode, j)
      {
        if p.volumes[j].IsZdb() {
          var usage := VolumeUsage(p.volumes[j]);
          var needed := Add(usage, size);
          if needed <= p.size && p.volumes[j].index == S.Index(mode) {
            list := list + [Zdb.Candidate(i, j, p.size - needed)];
          }
        }
      }
    }

    method CheckForZdbCandidateVolumes(size: u64, kind: DiskType, mode: S.Mode, io: S.Io)
      returns (ok: bool, list: seq<Zdb.Candidate>)
      ensures ok <==> !Zdb.Unprobed(pools, kind, io)
      ensures ok ==> list == Zdb.ZdbCandidates(pools, size, kind, mode, |pools|)
    {
      list := [];
      for i := 0 to |pools|
        invariant list == Zdb.ZdbCandidates(pools, size, kind, mode, i)
        invariant forall k :: 0 <= k < i ==> !Zdb.UnprobedAt(pools, kind, io, k)
      {
        if pools[i].mounted && pools[i].kind == kind {
          if i in io.probe || i in io.list {
            assert Zdb.UnprobedAt(pools, kind, io, i);
            return false, [];
          }
          var more := CheckZdbVolumes(i, size, mode);
          list := list + more;
        }
      }
      return true, list;
    }

    method ChooseVolume(q: Zdb.Request, io: S.Io) returns (l: Zdb.Location)
      modifies this
      ensures (pools, l) == Zdb.ChooseVolume(old(pools), q, io)
    {
      var ok, list := CheckForZdbCandidateVolumes(q.size, q.kind, q.mode, io);
      if !ok { return Zdb.Unlisted; }
      if list != [] {
        var best := Sort(list, Zdb.MostFree());
        SameElements(best, list, list[0]);
        return Zdb.At(best[0].pool, best[0].volume);
      }
      var placed := CreateSubvol(q.size, q.newName, q.kind, io);
      if placed.Placed? && placed.pool < |pools| && pools[placed.pool].volumes != [] {
        return Zdb.At(placed.pool, |pools[placed.pool].volumes| - 1);
      }
      return Zdb.Missing;
    }

    method Allocate(q: Zdb.Request, io: S.Io) returns (l: Zdb.Location)
      modifies this
      ensures (pools, l) == Zdb.Allocate(old(pools), q, io)
    {
      if q.kind != HDD && q.kind != SSD { return Zdb.Missing; }
      l := FindOn(q.ns, {q.kind}, io);
      if l != Zdb.Missing { return; }
      l := ChooseVolume(q, io);
      if !l.At? || l.pool >= |pools| || l.volume >= |pools[l.pool].volumes| { return; }
      if q.header.Refused? { return Zdb.Missing; }
      if q.header.Begun? {
        pools := Zdb.BeginNamespace(pools, l.pool, l.volume, q.ns);
        return Zdb.Missing;
      }
      pools := Zdb.CreateNamespace(pools, l.pool, l.volume, q.ns, q.size);
    }
  }
}
