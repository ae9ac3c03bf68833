/**
What creating a volume does, and what releasing it undoes
(pkg/storage/storage.go:342-413, 664-803).
*/
module StorageCreation {
  import opened U64
  import opened Primitives
  import opened Storage
  import opened StorageInvariants
  import opened StorageQuotas
  import opened StorageRelease

  // ---------------------------------------------------------------- trying the candidates

  /** Creating a volume of that name on pool `i` succeeds; reading it back may still fail. */
  predicate Accepts(pools: seq<Pool>, i: nat, name: string, io: Io) {
    i < |pools| && pools[i].mounted && !HasVolume(pools[i], name) && i !in io.add
  }

  /**
   * What trying candidates in turn leaves: the volume is on the first candidate that accepts it and reads it
   * back, and strays are left on those before that accept it and do not read it back.
   */
  ghost predicate Tried(pools: seq<Pool>, list: seq<nat>, name: string, io: Io, after: seq<Pool>, p: Placed) {
    var n := if p.Placed? && p.pool in list then FirstAt(list, p.pool) else |list|;
    && |after| == |pools|
    && (p.Placed? ==> p.pool in list && Accepts(pools, p.pool, name, io) && p.pool !in io.info)
    && (forall a :: 0 <= a < n ==> Accepts(pools, list[a], name, io) ==> list[a] in io.info)
    && (forall k: nat :: k < |pools| ==>
          after[k] == if (p == Placed(k) || k in list[..n]) && Accepts(pools, k, name, io)
                      then pools[k].(volumes := pools[k].volumes + [FreshVolume(name)]) else pools[k])
  }

  function FirstAt(list: seq<nat>, x: nat): (n: nat)
    requires x in list
    ensures n < |list| && list[n] == x && x !in list[..n]
  {
    if list[0] == x then 0
    else
      assert list == [list[0]] + list[1..];
      var m := FirstAt(list[1..], x);
      assert list[..m + 1] == [list[0]] + list[1..][..m];
      m + 1
  }

  lemma {:induction false} TriedInTurn(pools: seq<Pool>, list: seq<nat>, name: string, io: Io)
    requires Distinct(list) && forall a :: 0 <= a < |list| ==> list[a] < |pools|
    ensures
      var (after, p) := TryAdd(pools, list, name, io);
      Tried(pools, list, name, io, after, p)
    decreases |list|
  {
    if list != [] {
      var (i, rest) := (list[0], list[1..]);
      assert list == [i] + rest && i !in rest;
      if !Accepts(pools, i, name, io) {
        TriedInTurn(pools, rest, name, io);
        var (after, p) := TryAdd(pools, rest, name, io);
        SkippedFirst(pools, i, rest, name, io, after, p);
      } else {
        var more := WithVolume(pools, i, FreshVolume(name));
        if i in io.info {
          TriedInTurn(more, rest, name, io);
          var (after, p) := TryAdd(more, rest, name, io);
          StrayFirst(pools, more, i, rest, name, io, after, p);
        } else {
          assert FirstAt(list, i) == 0;
        }
      }
    }
  }

  lemma FirstAfter(i: nat, rest: seq<nat>, x: nat)
    requires x in rest && i != x
    ensures x in [i] + rest && FirstAt([i] + rest, x) == FirstAt(rest, x) + 1
    ensures ([i] + rest)[..FirstAt(rest, x) + 1] == [i] + rest[..FirstAt(rest, x)]
  {
    assert ([i] + rest)[1..] == rest;
  }

  lemma SkippedFirst(pools: seq<Pool>, i: nat, rest: seq<nat>, name: string, io: Io, after: seq<Pool>, p: Placed)
    requires i !in rest && !Accepts(pools, i, name, io) && Tried(pools, rest, name, io, after, p)
    ensures Tried(pools, [i] + rest, name, io, after, p)
  {
    if p.Placed? {
      FirstAfter(i, rest, p.pool);
    } else {
      assert ([i] + rest)[..|rest| + 1] == [i] + rest && rest[..|rest|] == rest;
    }
  }

  lemma StrayFirst(pools: seq<Pool>, more: seq<Pool>, i: nat, rest: seq<nat>, name: string, io: Io,
                   after: seq<Pool>, p: Placed)
    requires i !in rest && Accepts(pools, i, name, io) && i in io.info
    requires more == WithVolume(pools, i, FreshVolume(name)) && Tried(more, rest, name, io, after, p)
    ensures Tried(pools, [i] + rest, name, io, after, p)
  {
    forall k: nat | k != i ensures Accepts(more, k, name, io) == Accepts(pools, k, name, io) {
    }
    if p.Placed? {
      FirstAfter(i, rest, p.pool);
    } else {
      assert ([i] + rest)[..|rest| + 1] == [i] + rest && rest[..|rest|] == rest;
    }
  }

  // ---------------------------------------------------------------- creating with working commands

  predicate CreateWorks(io: Io) {
    Searchable(io) && io.add == {} && io.info == {} && !io.limit
  }

  /** A pool of the kind whose volumes leave room, in the arithmetic of 64 bits. */
  ghost predicate HasRoom(p: Pool, size: u64, kind: DiskType) {
    p.kind == kind && (VolumesSize(p.volumes) + size) % 18446744073709551616 <= p.size
  }

  ghost predicate SomeRoom(pools: seq<Pool>, size: u64, kind: DiskType) {
    exists k: nat :: k < |pools| && HasRoom(pools[k], size, kind)
  }

  lemma RoomIsFits(p: Pool, size: u64, kind: DiskType)
    ensures HasRoom(p, size, kind) <==> p.kind == kind && Fits(p, size)
  {
    AddWrap(VolumesSize(p.volumes), size);
  }

  /** An empty volume with that quota. */
  function NewVolume(name: string, quota: u64): Subvolume {
    Subvolume(name, true, quota, 0, map[], NoIndex, {})
  }

  /** The pool with the new volume last, and mounted. */
  function Hosting(p: Pool, name: string, size: u64): Pool {
    p.(mounted := true, volumes := p.volumes + [NewVolume(name, size)])
  }

  ghost predicate NameFree(pools: seq<Pool>, name: string) {
    forall k: nat, j: nat :: k < |pools| ==> !Named(pools[k], j, name)
  }

  /** The first candidate takes the volume. */
  lemma AddsToFirst(found: seq<Pool>, list: seq<nat>, name: string, io: Io)
    requires list != [] && list[0] < |found| && found[list[0]].mounted && CreateWorks(io) && NameFree(found, name)
    ensures TryAdd(found, list, name, io) == (WithVolume(found, list[0], FreshVolume(name)), Placed(list[0]))
  {
    if HasVolume(found[list[0]], name) {
      var j: nat :| j < |found[list[0]].volumes| && found[list[0]].volumes[j].name == name;
      assert Named(found[list[0]], j, name);
    }
  }

  lemma LimitedFirst(found: seq<Pool>, i: nat, name: string, size: u64)
    requires i < |found|
    ensures
      var made := WithVolume(found, i, FreshVolume(name));
      Limited(made, Placed(i), size, false) ==
      (found[i := found[i].(volumes := found[i].volumes + [NewVolume(name, size)])], Placed(i))
  {
    var made := WithVolume(found, i, FreshVolume(name));
    var n := |found[i].volumes|;
    assert made[i].volumes[n := NewVolume(name, size)] == found[i].volumes + [NewVolume(name, size)];
    assert Limit(made, i, size) == found[i := found[i].(volumes := found[i].volumes + [NewVolume(name, size)])];
  }

  /** The creation from a search that found candidates. */
  lemma CreatesOn(pools: seq<Pool>, name: string, size: u64, kind: DiskType, io: Io, found: seq<Pool>, list: seq<nat>)
    requires CreateWorks(io) && !("zdb" <= name) && kind != OtherDisk && NameFree(found, name)
    requires FindCandidates(pools, size, kind, io) == (found, Candidates(list))
    requires list != [] && list[0] < |found| && found[list[0]].mounted
    ensures CreateFilesystem(pools, name, size, kind, io) ==
      (found[list[0] := Hosting(found[list[0]], name, size)], Placed(list[0]))
  {
    AddsToFirst(found, list, name, io);
    LimitedFirst(found, list[0], name, size);
  }

  ghost predicate Best(pools: seq<Pool>, i: nat, size: u64, kind: DiskType)
    requires i < |pools|
  {
    && HasRoom(pools[i], size, kind)
    && if exists k: nat :: k < |pools| && pools[k].mounted && HasRoom(pools[k], size, kind)
       then pools[i].mounted
            && forall k: nat :: k < |pools| && pools[k].mounted && HasRoom(pools[k], size, kind) ==> pools[k].size <= pools[i].size
       else forall k: nat :: k < i ==> !HasRoom(pools[k], size, kind)
  }

  /**
   * With working commands a volume of a new name is placed exactly when a pool of the kind has room: on the
   * largest of the mounted ones that do, or else on the first other one, which is mounted for it.  It is empty,
   * has the quota asked for, and nothing else changes.
   */
  lemma CreateIsExact(pools: seq<Pool>, name: string, size: u64, kind: DiskType, io: Io)
    requires CreateWorks(io) && !("zdb" <= name) && kind != OtherDisk && NameFree(pools, name)
    ensures
      var (after, p) := CreateFilesystem(pools, name, size, kind, io);
      if SomeRoom(pools, size, kind)
      then
        && p.Placed? && p.pool < |pools| && Best(pools, p.pool, size, kind)
        && after == pools[p.pool := Hosting(pools[p.pool], name, size)]
      else (after, p) == (pools, NotPlaced)
  {
    forall k: nat | k < |pools| ensures HasRoom(pools[k], size, kind) <==> pools[k].kind == kind && Fits(pools[k], size) {
      RoomIsFits(pools[k], size, kind);
    }
    SearchExact(pools, size, kind, io);
    var (found, s) := FindCandidates(pools, size, kind, io);
    if k: nat :| k < |pools| && Roomy(pools[k], size, kind) {
      CreatesOnMounted(pools, name, size, kind, io, k);
    } else if k: nat :| k < |pools| && Spare(pools[k], size, kind) {
      CreatesOnSpare(pools, name, size, kind, io);
    }
  }

  lemma CreatesOnMounted(pools: seq<Pool>, name: string, size: u64, kind: DiskType, io: Io, k: nat)
    requires CreateWorks(io) && !("zdb" <= name) && kind != OtherDisk && NameFree(pools, name)
    requires k < |pools| && Roomy(pools[k], size, kind)
    ensures
      var (after, p) := CreateFilesystem(pools, name, size, kind, io);
      && p.Placed? && p.pool < |pools| && Best(pools, p.pool, size, kind)
      && after == pools[p.pool := Hosting(pools[p.pool], name, size)]
  {
    SearchExact(pools, size, kind, io);
    var list := FindCandidates(pools, size, kind, io).1.list;
    CreatesOn(pools, name, size, kind, io, pools, list);
    forall l: nat | l < |pools| ensures HasRoom(pools[l], size, kind) <==> pools[l].kind == kind && Fits(pools[l], size) {
      RoomIsFits(pools[l], size, kind);
    }
    forall l: nat | l < |pools| && Roomy(pools[l], size, kind) ensures pools[l].size <= pools[list[0]].size {
      var a :| 0 <= a < |list| && list[a] == l;
      assert a > 0 ==> pools[list[0]].size >= pools[list[a]].size;
    }
    assert Roomy(pools[k], size, kind) && HasRoom(pools[k], size, kind);
  }

  lemma CreatesOnSpare(pools: seq<Pool>, name: string, size: u64, kind: DiskType, io: Io)
    requires CreateWorks(io) && !("zdb" <= name) && kind != OtherDisk && NameFree(pools, name)
    requires MountsOneSpare(pools, FindCandidates(pools, size, kind, io).0, FindCandidates(pools, size, kind, io).1, size, kind)
    requires forall k: nat :: k < |pools| ==> !Roomy(pools[k], size, kind)
    ensures
      var (after, p) := CreateFilesystem(pools, name, size, kind, io);
      && p.Placed? && p.pool < |pools| && Best(pools, p.pool, size, kind)
      && after == pools[p.pool := Hosting(pools[p.pool], name, size)]
  {
    var (found, s) := FindCandidates(pools, size, kind, io);
    var i := s.list[0];
    NameStaysFree(pools, found, name);
    CreatesOn(pools, name, size, kind, io, found, s.list);
    forall l: nat | l < |pools| ensures HasRoom(pools[l], size, kind) <==> pools[l].kind == kind && Fits(pools[l], size) {
      RoomIsFits(pools[l], size, kind);
    }
    assert found[i := Hosting(found[i], name, size)] == pools[i := Hosting(pools[i], name, size)];
  }

  lemma RoomyOrSpare(p: Pool, size: u64, kind: DiskType)
    ensures HasRoom(p, size, kind) <==> Roomy(p, size, kind) || Spare(p, size, kind)
  {
    RoomIsFits(p, size, kind);
  }

  lemma FindsIff(pools: seq<Pool>, size: u64, kind: DiskType, io: Io)
    requires Searchable(io)
    ensures FindCandidates(pools, size, kind, io).1.Candidates? <==> SomeRoom(pools, size, kind)
  {
    SearchExact(pools, size, kind, io);
    forall k: nat | k < |pools|
      ensures HasRoom(pools[k], size, kind) <==> Roomy(pools[k], size, kind) || Spare(pools[k], size, kind)
    {
      RoomyOrSpare(pools[k], size, kind);
    }
  }

  lemma NameStaysFree(pools: seq<Pool>, found: seq<Pool>, name: string)
    requires OnlyMounts(pools, found) && NameFree(pools, name)
    ensures NameFree(found, name)
  {
    forall k: nat, j: nat | k < |found| ensures !Named(found[k], j, name) {
      assert !Named(pools[k], j, name);
    }
  }

  /** The volume alone, of any name: it is made exactly when a pool of the kind has room. */
  lemma SubvolPlacedIff(pools: seq<Pool>, size: u64, name: string, kind: DiskType, io: Io)
    requires CreateWorks(io) && kind != OtherDisk && NameFree(pools, name)
    ensures CreateSubvol(pools, size, name, kind, io).1.Placed? <==> SomeRoom(pools, size, kind)
  {
    FindsIff(pools, size, kind, io);
    FindOnlyMounts(pools, size, kind, io);
    FoundGood(pools, size, kind, io);
    var (found, s) := FindCandidates(pools, size, kind, io);
    if s.Candidates? {
      NameStaysFree(pools, found, name);
      AddsToFirst(found, s.list, name, io);
    }
  }

  /** A new volume takes exactly its quota from what its pool has left. */
  lemma QuotaIsTaken(p: Pool, name: string, size: u64)
    requires !("zdb" <= name)
    ensures VolumesSize(Hosting(p, name, size).volumes) == VolumesSize(p.volumes) + size
    ensures QuotaSum(Hosting(p, name, size).volumes) == QuotaSum(p.volumes) + size
  {
    var more := p.volumes + [NewVolume(name, size)];
    assert more[..|p.volumes|] == p.volumes && !NewVolume(name, size).IsZdb();
  }

  /** Releasing undoes creating: every volume is where it was, and at most a pool without volumes is unmounted. */
  lemma ReleaseUndoesCreate(pools: seq<Pool>, name: string, size: u64, kind: DiskType, io: Io, later: Io)
    requires AllOk(pools) && CreateWorks(io) && !("zdb" <= name) && kind != OtherDisk && NameFree(pools, name)
    requires
      var (made, p) := CreateFilesystem(pools, name, size, kind, io);
      p.Placed? && ReleaseFilesystem(made, name, later).1
    ensures
      var (made, p) := CreateFilesystem(pools, name, size, kind, io);
      && p.pool < |pools|
      && ReleaseFilesystem(made, name, later).0 == pools[p.pool := pools[p.pool].(mounted := pools[p.pool].volumes != [])]
  {
    CreateIsExact(pools, name, size, kind, io);
    CreateFilesystemOk(pools, name, size, kind, io);
    var (made, p) := CreateFilesystem(pools, name, size, kind, io);
    ReleaseIsExact(made, name, later);
    ReleasedOne(pools, p.pool, name, size, ReleaseFilesystem(made, name, later).0);
  }

  lemma ReleasedOne(pools: seq<Pool>, i: nat, name: string, size: u64, after: seq<Pool>)
    requires i < |pools| == |after| && NameFree(pools, name)
    requires
      var made := pools[i := Hosting(pools[i], name, size)];
      forall k :: 0 <= k < |pools| ==> Released(made[k], after[k], name)
    ensures after == pools[i := pools[i].(mounted := pools[i].volumes != [])]
  {
    var made := pools[i := Hosting(pools[i], name, size)];
    forall k: nat | k < |pools|
      ensures after[k] == if k == i then pools[k].(mounted := pools[k].volumes != []) else pools[k]
    {
      assert Released(made[k], after[k], name);
      assert forall j: nat :: !Named(pools[k], j, name);
      if k == i {
        LastIsCut(pools[k], after[k], name, size);
      }
    }
  }

  lemma LastIsCut(p: Pool, q: Pool, name: string, size: u64)
    requires (forall j: nat :: !Named(p, j, name)) && Released(Hosting(p, name, size), q, name)
    ensures q == p.(mounted := p.volumes != [])
  {
    var full := Hosting(p, name, size);
    var n := |p.volumes|;
    assert Named(full, n, name);
    forall j: nat | Named(full, j, name) ensures j == n {
      assert j < n ==> Named(p, j, name);
    }
    assert Cut(full.volumes, n) == p.volumes;
  }
}
