/**
What releasing a volume and powering down idle pools do, pool by pool and
whatever fails (pkg/storage/storage.go:315-339, 374-413).
*/
module StorageRelease {
  import opened Storage
  import opened StorageInvariants

  /** Without the volume at position `j`; the others are as they were and in order. */
  function Cut(vs: seq<Subvolume>, j: nat): seq<Subvolume>
    requires j < |vs|
  {
    vs[..j] + vs[j + 1..]
  }

  ghost predicate Named(p: Pool, j: nat, name: string) {
    j < |p.volumes| && p.volumes[j].name == name
  }

  /** The pool lost its volume of that name, if it had one, and was unmounted if that was the only one. */
  ghost predicate Released(p: Pool, q: Pool, name: string) {
    if exists j: nat :: Named(p, j, name)
    then exists j: nat :: Named(p, j, name) && q == p.(volumes := Cut(p.volumes, j), mounted := |p.volumes| != 1)
    else q == p
  }

  lemma WithoutNone(vs: seq<Subvolume>, name: string)
    requires forall j :: 0 <= j < |vs| ==> vs[j].name != name
    ensures Without(vs, name) == vs
  {
    if vs != [] {
      WithoutNone(vs[..|vs| - 1], name);
    }
  }

  lemma {:induction false} WithoutIsCut(vs: seq<Subvolume>, name: string, j: nat)
    requires NamesUnique(vs) && j < |vs| && vs[j].name == name
    ensures Without(vs, name) == Cut(vs, j)
    decreases |vs|
  {
    var init := vs[..|vs| - 1];
    if j == |vs| - 1 {
      WithoutNone(init, name);
    } else {
      WithoutIsCut(init, name, j);
      assert vs[j + 1..] == init[j + 1..] + [vs[|vs| - 1]];
    }
  }

  lemma ReleasedOk(p: Pool, q: Pool, name: string)
    requires PoolOk(p) && Released(p, q, name)
    ensures PoolOk(q)
  {
  }

  /** Every command that a release needs on this pool works. */
  ghost predicate CanRelease(p: Pool, i: nat, name: string, io: Io) {
    p.mounted ==>
      && i !in io.list
      && ((exists j: nat :: Named(p, j, name)) ==>
            i !in io.remove && i !in io.destroy && (|p.volumes| == 1 ==> i !in io.unmount && i !in io.shutdown))
  }

  /**
   * A pool on which a command fails: the volume is gone exactly if it was removed before that, and the pool is
   * unmounted exactly if only the power-down failed.
   */
  ghost predicate Interrupted(p: Pool, q: Pool, i: nat, name: string, io: Io) {
    if i in io.list || i in io.remove then q == p
    else exists j: nat :: Named(p, j, name)
           && q == p.(volumes := Cut(p.volumes, j), mounted := i in io.destroy || |p.volumes| != 1 || i in io.unmount)
  }

  lemma ReleaseAtIff(p: Pool, i: nat, name: string, io: Io)
    requires PoolOk(p)
    ensures
      var (q, ok) := ReleaseAt(p, i, name, io);
      && (ok <==> CanRelease(p, i, name, io))
      && (ok ==> Released(p, q, name)) && (!ok ==> Interrupted(p, q, i, name, io))
  {
    if HasVolume(p, name) {
      var j: nat :| j < |p.volumes| && p.volumes[j].name == name;
      assert Named(p, j, name);
      WithoutIsCut(p.volumes, name, j);
    } else {
      assert forall j: nat :: !Named(p, j, name);
    }
  }

  /** The first pool from position `i` on which a command of the release fails, or the number of pools. */
  ghost function FirstBlocked(pools: seq<Pool>, i: nat, name: string, io: Io): (n: nat)
    requires i <= |pools|
    ensures i <= n <= |pools| && (n < |pools| ==> !CanRelease(pools[n], n, name, io))
    ensures forall k :: i <= k < n ==> CanRelease(pools[k], k, name, io)
    decreases |pools| - i
  {
    if i == |pools| || !CanRelease(pools[i], i, name, io) then i else FirstBlocked(pools, i + 1, name, io)
  }

  /** The release is done on every pool before that one, interrupted there, and not begun on those after it. */
  ghost predicate ReleasedUpTo(pools: seq<Pool>, after: seq<Pool>, i: nat, n: nat, name: string, io: Io) {
    && |after| == |pools|
    && (forall k: nat :: k < |pools| && (k < i || k > n) ==> after[k] == pools[k])
    && (forall k: nat :: i <= k < n && k < |pools| ==> Released(pools[k], after[k], name))
    && (n < |pools| ==> Interrupted(pools[n], after[n], n, name, io))
  }

  lemma {:induction false} ReleaseFromStops(pools: seq<Pool>, i: nat, name: string, io: Io, n: nat)
    requires AllOk(pools) && i <= n <= |pools| && (forall k :: i <= k < n ==> CanRelease(pools[k], k, name, io))
    requires n < |pools| ==> !CanRelease(pools[n], n, name, io)
    ensures
      var (after, ok) := ReleaseFrom(pools, i, name, io);
      (ok <==> n == |pools|) && ReleasedUpTo(pools, after, i, n, name, io)
    decreases |pools| - i
  {
    if i < |pools| {
      var p := ReleaseAt(pools[i], i, name, io).0;
      ReleaseAtIff(pools[i], i, name, io);
      if i == n {
        InterruptedHere(pools, p, i, name, io);
      } else {
        var next := pools[i := p];
        ReleasedOk(pools[i], p, name);
        ReleaseFromStops(next, i + 1, name, io, n);
        ReleasedOneMore(pools, p, ReleaseFrom(next, i + 1, name, io).0, i, n, name, io);
      }
    }
  }

  lemma InterruptedHere(pools: seq<Pool>, p: Pool, i: nat, name: string, io: Io)
    requires i < |pools| && Interrupted(pools[i], p, i, name, io)
    ensures ReleasedUpTo(pools, pools[i := p], i, i, name, io)
  {
  }

  lemma ReleasedOneMore(pools: seq<Pool>, p: Pool, after: seq<Pool>, i: nat, n: nat, name: string, io: Io)
    requires i < n && i < |pools| && Released(pools[i], p, name)
    requires ReleasedUpTo(pools[i := p], after, i + 1, n, name, io)
    ensures ReleasedUpTo(pools, after, i, n, name, io)
  {
  }

  /** A release succeeds if and only if no command it needs fails, and otherwise stops at the first pool where one does. */
  lemma ReleaseStopsAtFirstFailure(pools: seq<Pool>, name: string, io: Io)
    requires AllOk(pools)
    ensures
      var (after, ok) := ReleaseFilesystem(pools, name, io);
      && (ok <==> forall k :: 0 <= k < |pools| ==> CanRelease(pools[k], k, name, io))
      && ReleasedUpTo(pools, after, 0, FirstBlocked(pools, 0, name, io), name, io)
  {
    ReleaseFromStops(pools, 0, name, io, FirstBlocked(pools, 0, name, io));
  }

  /**
   * A release that succeeds leaves no volume of that name on any pool, keeps every other volume where it is,
   * unchanged and in order, and unmounts exactly the pools whose only volume it removed.
   */
  lemma ReleaseIsExact(pools: seq<Pool>, name: string, io: Io)
    requires AllOk(pools) && ReleaseFilesystem(pools, name, io).1
    ensures
      var after := ReleaseFilesystem(pools, name, io).0;
      && |after| == |pools|
      && (forall k, j: nat :: 0 <= k < |after| ==> !Named(after[k], j, name))
      && (forall k :: 0 <= k < |pools| ==> Released(pools[k], after[k], name))
      && (forall k :: 0 <= k < |pools| ==>
            (pools[k].mounted && !after[k].mounted <==> |pools[k].volumes| == 1 && pools[k].volumes[0].name == name))
  {
    ReleaseStopsAtFirstFailure(pools, name, io);
    var after := ReleaseFilesystem(pools, name, io).0;
    forall k | 0 <= k < |pools|
      ensures forall j: nat :: !Named(after[k], j, name)
      ensures pools[k].mounted && !after[k].mounted <==> |pools[k].volumes| == 1 && pools[k].volumes[0].name == name
    {
      ReleasedIsGone(pools[k], after[k], name);
    }
  }

  lemma ReleasedIsGone(p: Pool, q: Pool, name: string)
    requires PoolOk(p) && Released(p, q, name)
    ensures forall j: nat :: !Named(q, j, name)
    ensures p.mounted && !q.mounted <==> |p.volumes| == 1 && p.volumes[0].name == name
  {
    if j: nat :| Named(p, j, name) && q == p.(volumes := Cut(p.volumes, j), mounted := |p.volumes| != 1) {
      assert forall l: nat :: Named(q, l, name) ==> Named(p, if l < j then l else l + 1, name);
    }
    if |p.volumes| == 1 && p.volumes[0].name == name {
      assert Named(p, 0, name);
    }
  }

  // ---------------------------------------------------------------- powering down

  predicate Idle(p: Pool) {
    p.mounted && |p.volumes| == 0
  }

  /** The power-down changes nothing but that idle pools are unmounted, and with working commands all of them are. */
  lemma {:induction false} ShutdownIsExact(pools: seq<Pool>, i: nat, io: Io)
    requires i <= |pools|
    ensures
      var after := ShutdownFrom(pools, i, io);
      && |after| == |pools|
      && (forall k :: 0 <= k < i ==> after[k] == pools[k])
      && (forall k :: i <= k < |pools| ==>
            after[k] == pools[k] || (Idle(pools[k]) && after[k] == pools[k].(mounted := false)))
      && ((forall k :: i <= k < |pools| ==> k !in io.list && k !in io.unmount) ==>
            forall k :: i <= k < |pools| ==> after[k] == if Idle(pools[k]) then pools[k].(mounted := false) else pools[k])
    decreases |pools| - i
  {
    if i < |pools| {
      ShutdownIsExact(pools, i + 1, io);
      ShutdownIsExact(pools[i := pools[i].(mounted := false)], i + 1, io);
    }
  }

  /** A mounted pool that cannot be listed, or an idle one that cannot be unmounted. */
  predicate ShutdownBlocked(p: Pool, i: nat, io: Io) {
    p.mounted && (i in io.list || (|p.volumes| == 0 && i in io.unmount))
  }

  /** The power-down goes on to the first pool that blocks it: idle pools before that are unmounted, and nothing else changes. */
  lemma {:induction false} ShutdownStopsAtFirstFailure(pools: seq<Pool>, i: nat, io: Io, n: nat)
    requires i <= n <= |pools| && (forall k :: i <= k < n ==> !ShutdownBlocked(pools[k], k, io))
    requires n < |pools| ==> ShutdownBlocked(pools[n], n, io)
    ensures
      var after := ShutdownFrom(pools, i, io);
      && |after| == |pools|
      && forall k :: 0 <= k < |pools| ==>
           after[k] == if i <= k < n && Idle(pools[k]) then pools[k].(mounted := false) else pools[k]
    decreases |pools| - i
  {
    if i < n {
      ShutdownStopsAtFirstFailure(pools, i + 1, io, n);
      ShutdownStopsAtFirstFailure(pools[i := pools[i].(mounted := false)], i + 1, io, n);
    }
  }
}
