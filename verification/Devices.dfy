/**
The disks of a node and the storage pools made from the free ones
(pkg/storage/filesystem/device.go:50-254, pkg/storage/storage.go:177-255,
pkg/storage/filesystem/btrfs.go:79-107).
*/
module Devices {
  import opened Primitives
  import opened Sorting

  /** What the measuring of a disk can result in. */
  type MeasuredType = t: DiskType | t != OtherDisk witness HDD

  datatype Device = Device(
    path: string,
    volume: string,       // the label
    fstype: string,
    disk: MeasuredType,
    readTime: nat,
    partitioned: bool,
    children: seq<Device>)

  predicate Used(d: Device) {
    d.volume != "" || d.fstype != "" || d.children != [] || d.partitioned
  }

  // ---------------------------------------------------------------- flattening the tree

  /** The entry of a device in the flat list: its children go, but that it had some is noted. */
  function Stripped(d: Device): Device {
    d.(children := [], partitioned := d.partitioned || d.children != [])
  }

  function Flatten(devices: seq<Device>): seq<Device> {
    if devices == [] then []
    else [Stripped(devices[0])] + Flatten(devices[0].children) + Flatten(devices[1..])
  }

  /** `d` is one of the devices or somewhere below one. */
  ghost predicate IsNode(d: Device, devices: seq<Device>)
    decreases devices
  {
    exists i :: 0 <= i < |devices| && (d == devices[i] || IsNode(d, devices[i].children))
  }

  lemma IsNodeSplit(d: Device, devices: seq<Device>)
    requires devices != []
    ensures IsNode(d, devices) <==> d == devices[0] || IsNode(d, devices[0].children) || IsNode(d, devices[1..])
  {
    if IsNode(d, devices) {
      var i :| 0 <= i < |devices| && (d == devices[i] || IsNode(d, devices[i].children));
      if i > 0 {
        assert devices[1..][i - 1] == devices[i];
      }
    }
    if IsNode(d, devices[1..]) {
      var i :| 0 <= i < |devices[1..]| && (d == devices[1..][i] || IsNode(d, devices[1..][i].children));
      assert devices[i + 1] == devices[1..][i];
    }
  }

  ghost predicate StripsNode(d: Device, devices: seq<Device>) {
    exists n :: IsNode(n, devices) && d == Stripped(n)
  }

  /** The flat list holds exactly the devices of the tree, at every depth. */
  lemma {:induction false} FlattenIsExact(devices: seq<Device>, d: Device)
    ensures d in Flatten(devices) <==> StripsNode(d, devices)
    decreases devices
  {
    if devices != [] {
      FlattenIsExact(devices[0].children, d);
      FlattenIsExact(devices[1..], d);
      if d in Flatten(devices) {
        if d == Stripped(devices[0]) {
          assert IsNode(devices[0], devices);
        } else {
          var n :| (IsNode(n, devices[0].children) || IsNode(n, devices[1..])) && d == Stripped(n);
          IsNodeSplit(n, devices);
        }
      }
      if StripsNode(d, devices) {
        var n :| IsNode(n, devices) && d == Stripped(n);
        IsNodeSplit(n, devices);
      }
    }
  }

  /** No device looks free in the flat list unless it is free in the tree: it is then listed unchanged. */
  lemma FreeInListIsFreeInTree(devices: seq<Device>, d: Device)
    ensures d in Flatten(devices) && !Used(d) <==> IsNode(d, devices) && !Used(d)
    ensures forall n :: IsNode(n, devices) ==> (Used(n) <==> Used(Stripped(n))) && Stripped(n) in Flatten(devices)
  {
    FlattenIsExact(devices, d);
    if IsNode(d, devices) && !Used(d) {
      assert Stripped(d) == d;
    }
    if d in Flatten(devices) && !Used(d) {
      var n :| IsNode(n, devices) && d == Stripped(n);
      assert n == d;
    }
    forall n | IsNode(n, devices) ensures Stripped(n) in Flatten(devices) {
      FlattenIsExact(devices, Stripped(n));
    }
  }

  lemma {:induction false} FlattenJoin(a: seq<Device>, b: seq<Device>)
    ensures Flatten(a + b) == Flatten(a) + Flatten(b)
    decreases |a|
  {
    if a == [] {
      assert a + b == b;
    } else {
      assert (a + b)[1..] == a[1..] + b;
      FlattenJoin(a[1..], b);
    }
  }

  /** Flattening a flat list changes nothing. */
  lemma {:induction false} FlattenFlat(devices: seq<Device>)
    ensures Flatten(Flatten(devices)) == Flatten(devices)
    decreases devices
  {
    if devices != [] {
      var (head, below, rest) := (Stripped(devices[0]), Flatten(devices[0].children), Flatten(devices[1..]));
      FlattenFlat(devices[0].children);
      FlattenFlat(devices[1..]);
      FlattenJoin([head] + below, rest);
      FlattenJoin([head], below);
      assert Flatten([head]) == [head];
    }
  }

  lemma FlattenNext(devices: seq<Device>, i: nat)
    requires i < |devices|
    ensures Flatten(devices[..i + 1]) == Flatten(devices[..i]) + [Stripped(devices[i])] + Flatten(devices[i].children)
  {
    assert devices[..i + 1] == devices[..i] + [devices[i]];
    FlattenJoin(devices[..i], [devices[i]]);
    assert Flatten([devices[i]]) == [Stripped(devices[i])] + Flatten(devices[i].children) + Flatten([]);
  }

  method FlattenDevices(devices: seq<Device>) returns (list: seq<Device>)
    ensures list == Flatten(devices)
    decreases devices
  {
    list := [];
    for i := 0 to |devices|
      invariant list == Flatten(devices[..i])
    {
      var children := devices[i].children;
      var device := devices[i].(children := []);
      if |children| > 0 {
        device := device.(partitioned := true);
      }
      var below := FlattenDevices(children);
      FlattenNext(devices, i);
      list := list + [device] + below;
    }
    assert devices[..|devices|] == devices;
  }

  // ---------------------------------------------------------------- disk types

  /** The type and the read time measured on a disk hold for its partitions too. */
  function Typed(d: Device, disk: MeasuredType, readTime: nat): Device
    decreases d, 0
  {
    d.(disk := disk, readTime := readTime, children := TypedAll(d.children, disk, readTime))
  }

  function TypedAll(devices: seq<Device>, disk: MeasuredType, readTime: nat): seq<Device>
    decreases devices
  {
    if devices == [] then []
    else [Typed(devices[0], disk, readTime)] + TypedAll(devices[1..], disk, readTime)
  }

  /** Device by device, nothing but the type and the read time differs. */
  ghost predicate Retyped(was: seq<Device>, now: seq<Device>, disk: MeasuredType, readTime: nat) {
    && |now| == |was|
    && (forall i :: 0 <= i < |now| ==> now[i] == was[i].(disk := disk, readTime := readTime))
  }

  lemma RetypedJoin(a: seq<Device>, b: seq<Device>, c: seq<Device>, d: seq<Device>, disk: MeasuredType, readTime: nat)
    requires Retyped(a, b, disk, readTime) && Retyped(c, d, disk, readTime)
    ensures Retyped(a + c, b + d, disk, readTime)
  {
  }

  /** Every device on a disk gets the disk's type, and none becomes free or used by it. */
  lemma {:induction false} TypedThroughout(devices: seq<Device>, disk: MeasuredType, readTime: nat)
    ensures Retyped(Flatten(devices), Flatten(TypedAll(devices, disk, readTime)), disk, readTime)
    decreases devices
  {
    if devices != [] {
      var (d, rest) := (devices[0], devices[1..]);
      var (t, more) := (Typed(d, disk, readTime), TypedAll(rest, disk, readTime));
      assert TypedAll(devices, disk, readTime) == [t] + more && ([t] + more)[1..] == more;
      TypedLength(d.children, disk, readTime);
      TypedThroughout(d.children, disk, readTime);
      TypedThroughout(rest, disk, readTime);
      RetypedJoin([Stripped(d)], [Stripped(t)], Flatten(d.children), Flatten(t.children), disk, readTime);
      RetypedJoin([Stripped(d)] + Flatten(d.children), [Stripped(t)] + Flatten(t.children),
        Flatten(rest), Flatten(more), disk, readTime);
    }
  }

  lemma {:induction false} TypedLength(devices: seq<Device>, disk: MeasuredType, readTime: nat)
    ensures |TypedAll(devices, disk, readTime)| == |devices|
    decreases |devices|
  {
    if devices != [] {
      TypedLength(devices[1..], disk, readTime);
    }
  }

  // ---------------------------------------------------------------- groups of free disks

  ghost predicate DistinctPaths(devices: seq<Device>) {
    forall i, j :: 0 <= i < j < |devices| ==> devices[i].path != devices[j].path
  }

  type Pool = seq<Device>

  /** Disks `i * n` up to `(i + 1) * n`. */
  function Group(disks: seq<Device>, n: nat, i: nat): Pool
    requires i * n + n <= |disks|
  {
    disks[i * n..i * n + n]
  }

  /** The pools made from the first `count` groups; `mkfs` says for which the file system could be made. */
  function Pools(disks: seq<Device>, n: nat, count: nat, mkfs: Pool -> bool): seq<Pool>
    requires count * n <= |disks|
    decreases count
  {
    if count == 0 then []
    else
      var group := Group(disks, n, count - 1);
      Pools(disks, n, count - 1, mkfs) + if mkfs(group) then [group] else []
  }

  function Broken(disks: seq<Device>, n: nat, count: nat, mkfs: Pool -> bool): seq<Device>
    requires count * n <= |disks|
    decreases count
  {
    if count == 0 then []
    else
      var group := Group(disks, n, count - 1);
      Broken(disks, n, count - 1, mkfs) + if mkfs(group) then [] else group
  }

  function Joined(pools: seq<Pool>): seq<Device> {
    if pools == [] then [] else pools[0] + Joined(pools[1..])
  }

  lemma {:induction false} JoinedAppend(pools: seq<Pool>, pool: Pool)
    ensures Joined(pools + [pool]) == Joined(pools) + pool
    decreases |pools|
  {
    if pools == [] {
      assert Joined([pool]) == pool + Joined([]);
    } else {
      assert (pools + [pool])[1..] == pools[1..] + [pool];
      JoinedAppend(pools[1..], pool);
    }
  }

  /** The disks are those of the pools and the broken ones, each counted once. */
  ghost predicate Split(pools: seq<Pool>, broken: seq<Device>, disks: seq<Device>) {
    multiset(Joined(pools)) + multiset(broken) == multiset(disks)
  }

  lemma PartitionStep(pools: seq<Pool>, broken: seq<Device>, front: seq<Device>, group: Pool, made: bool)
    requires Split(pools, broken, front)
    ensures Split(pools + if made then [group] else [], broken + if made then [] else group, front + group)
  {
    if made {
      JoinedAppend(pools, group);
    } else {
      assert pools + [] == pools;
    }
  }

  lemma FrontNext(disks: seq<Device>, n: nat, i: nat)
    requires i * n + n <= |disks|
    ensures (i + 1) * n == i * n + n && disks[..(i + 1) * n] == disks[..i * n] + Group(disks, n, i)
  {
  }

  /** Every disk of the groups is in one pool or reported broken, and in one place only. */
  lemma {:induction false} PoolsPartition(disks: seq<Device>, n: nat, count: nat, mkfs: Pool -> bool)
    requires count * n <= |disks|
    ensures Partitioned(disks, n, count, mkfs)
    decreases count
  {
    if count == 0 {
      assert Joined([]) == [] && disks[..0] == [];
    } else {
      TimesNext(count - 1, n);
      PoolsPartition(disks, n, count - 1, mkfs);
      PartitionNext(disks, n, count - 1, mkfs);
    }
  }

  ghost predicate Partitioned(disks: seq<Device>, n: nat, count: nat, mkfs: Pool -> bool)
    requires count * n <= |disks|
  {
    Split(Pools(disks, n, count, mkfs), Broken(disks, n, count, mkfs), disks[..count * n])
  }

  lemma TimesNext(i: nat, n: nat)
    ensures (i + 1) * n == i * n + n && i * n >= 0
  {
  }

  lemma PartitionNext(disks: seq<Device>, n: nat, i: nat, mkfs: Pool -> bool)
    requires i * n + n <= |disks| && (i + 1) * n == i * n + n && Partitioned(disks, n, i, mkfs)
    ensures Partitioned(disks, n, i + 1, mkfs)
  {
    var group := Group(disks, n, i);
    var (pools, broken) := (Pools(disks, n, i, mkfs), Broken(disks, n, i, mkfs));
    PoolsNext(disks, n, i, mkfs);
    PartitionStep(pools, broken, disks[..i * n], group, mkfs(group));
    FrontNext(disks, n, i);
  }

  lemma PoolsNext(disks: seq<Device>, n: nat, i: nat, mkfs: Pool -> bool)
    requires i * n + n <= |disks| && (i + 1) * n == i * n + n
    ensures
      var group := Group(disks, n, i);
      && Pools(disks, n, i + 1, mkfs) == Pools(disks, n, i, mkfs) + (if mkfs(group) then [group] else [])
      && Broken(disks, n, i + 1, mkfs) == Broken(disks, n, i, mkfs) + (if mkfs(group) then [] else group)
  {
  }

  ghost predicate Disjoint(a: Pool, b: Pool) {
    forall i, j :: 0 <= i < |a| && 0 <= j < |b| ==> a[i].path != b[j].path
  }

  /** A pool of `n` distinct disks, all free. */
  ghost predicate Good(pool: Pool, disks: seq<Device>, n: nat) {
    |pool| == n && DistinctPaths(pool) && forall i :: 0 <= i < n ==> pool[i] in disks
  }

  lemma GroupsDisjoint(disks: seq<Device>, n: nat, i: nat, pool: Pool)
    requires DistinctPaths(disks) && i * n + n <= |disks|
    requires forall k :: 0 <= k < |pool| ==> pool[k] in disks[..i * n]
    ensures Disjoint(pool, Group(disks, n, i))
  {
    forall k, j | 0 <= k < |pool| && 0 <= j < n ensures pool[k].path != Group(disks, n, i)[j].path {
      var m :| 0 <= m < i * n && disks[m] == pool[k];
      assert Group(disks, n, i)[j] == disks[i * n + j];
    }
  }

  /** The pools are pairwise disjoint groups of exactly `n` of the disks. */
  lemma {:induction false} PoolsAreGood(disks: seq<Device>, n: nat, count: nat, mkfs: Pool -> bool)
    requires count * n <= |disks| && DistinctPaths(disks)
    ensures
      var pools := Pools(disks, n, count, mkfs);
      && |pools| <= count
      && (forall i :: 0 <= i < |pools| ==> Good(pools[i], disks[..count * n], n) && mkfs(pools[i]))
      && (forall i, j :: 0 <= i < j < |pools| ==> Disjoint(pools[i], pools[j]))
    decreases count
  {
    if count > 0 {
      var (group, rest) := (Group(disks, n, count - 1), Pools(disks, n, count - 1, mkfs));
      PoolsAreGood(disks, n, count - 1, mkfs);
      GroupIsGood(disks, n, count - 1);
      forall i | 0 <= i < |rest| ensures Good(rest[i], disks[..count * n], n) && Disjoint(rest[i], group) {
        GroupsDisjoint(disks, n, count - 1, rest[i]);
        assert disks[..(count - 1) * n] <= disks[..count * n];
      }
    }
  }

  lemma GroupIsGood(disks: seq<Device>, n: nat, i: nat)
    requires DistinctPaths(disks) && i * n + n <= |disks|
    ensures Good(Group(disks, n, i), disks[..i * n + n], n)
  {
    forall j | 0 <= j < n ensures Group(disks, n, i)[j] in disks[..i * n + n] {
      assert Group(disks, n, i)[j] == disks[..i * n + n][i * n + j];
    }
  }

  // ---------------------------------------------------------------- the policy

  datatype Profile = Single | Raid1 | Raid10 | OtherProfile

  datatype Policy = Policy(raid: Profile, disks: nat, maxPools: nat)

  datatype Outcome =
    | Created(pools: seq<Pool>, broken: seq<Device>)
    | UnknownProfile
    | WrongNumberOfDisks
    | DividesByZero

  function DiskBase(p: Profile): nat
    requires !p.OtherProfile?
  {
    match p
    case Single => 1
    case Raid1 => 2
    case Raid10 => 4
  }

  /** How many pools to make from `n` disks of a type, `created` pools being made before. */
  function PoolCount(n: nat, policy: Policy, created: nat): (count: nat)
    requires policy.disks > 0
    ensures count * policy.disks <= n
  {
    var possible := n / policy.disks;
    assert possible * policy.disks <= n;
    if policy.maxPools != 0 && policy.maxPools < possible - created
    then CountMonotone(policy.maxPools, possible, policy.disks); policy.maxPools
    else possible
  }

  lemma CountMonotone(a: nat, b: nat, n: nat)
    requires a <= b
    ensures a * n <= b * n
  {
    assert b * n == a * n + (b - a) * n;
  }

  function OfType(devices: seq<Device>, disk: MeasuredType): seq<Device> {
    if devices == [] then []
    else
      var d := devices[|devices| - 1];
      OfType(devices[..|devices| - 1], disk) + if d.disk == disk then [d] else []
  }

  function Free(devices: seq<Device>): seq<Device> {
    if devices == [] then []
    else
      var d := devices[|devices| - 1];
      Free(devices[..|devices| - 1]) + if Used(d) then [] else [d]
  }

  function ReadTime(d: Device): int {
    d.readTime
  }

  function FreeOfType(devices: seq<Device>, disk: MeasuredType): seq<Device> {
    OfType(Sort(Free(devices), ReadTime), disk)
  }

  predicate Applies(policy: Policy) {
    !policy.raid.OtherProfile? && policy.disks > 0 && policy.disks % DiskBase(policy.raid) == 0
  }

  function MakePools(devices: seq<Device>, policy: Policy, mkfs: Pool -> bool): Outcome {
    if policy.raid.OtherProfile? then UnknownProfile
    else if policy.disks % DiskBase(policy.raid) != 0 then WrongNumberOfDisks
    else if policy.disks == 0 then DividesByZero
    else
      var (fast, slow) := (FreeOfType(devices, SSD), FreeOfType(devices, HDD));
      var pools := PoolsFrom(fast, policy, 0, mkfs);
      Created(pools + PoolsFrom(slow, policy, |pools|, mkfs),
              BrokenFrom(fast, policy, 0, mkfs) + BrokenFrom(slow, policy, |pools|, mkfs))
  }

  function PoolsFrom(disks: seq<Device>, policy: Policy, created: nat, mkfs: Pool -> bool): seq<Pool>
    requires policy.disks > 0
  {
    Pools(disks, policy.disks, PoolCount(|disks|, policy, created), mkfs)
  }

  function BrokenFrom(disks: seq<Device>, policy: Policy, created: nat, mkfs: Pool -> bool): seq<Device>
    requires policy.disks > 0
  {
    Broken(disks, policy.disks, PoolCount(|disks|, policy, created), mkfs)
  }

  lemma {:induction false} FreeIsExact(devices: seq<Device>, d: Device)
    ensures multiset(Free(devices))[d] == if Used(d) then 0 else multiset(devices)[d]
    decreases |devices|
  {
    if devices != [] {
      assert devices == devices[..|devices| - 1] + [devices[|devices| - 1]];
      FreeIsExact(devices[..|devices| - 1], d);
    }
  }

  lemma {:induction false} OfTypeIsExact(devices: seq<Device>, disk: MeasuredType, d: Device)
    ensures multiset(OfType(devices, disk))[d] == if d.disk == disk then multiset(devices)[d] else 0
    decreases |devices|
  {
    if devices != [] {
      assert devices == devices[..|devices| - 1] + [devices[|devices| - 1]];
      OfTypeIsExact(devices[..|devices| - 1], disk, d);
    }
  }

  /** The candidates for a pool are exactly the unused devices of the type, each once. */
  lemma FreeOfTypeIsExact(devices: seq<Device>, disk: MeasuredType, d: Device)
    ensures multiset(FreeOfType(devices, disk))[d] == if !Used(d) && d.disk == disk then multiset(devices)[d] else 0
  {
    FreeIsExact(devices, d);
    OfTypeIsExact(Sort(Free(devices), ReadTime), disk, d);
  }

  /** Distinct paths say that devices are counted once, and by path. */
  ghost predicate OncePerPath(m: multiset<Device>) {
    && (forall d :: m[d] <= 1)
    && (forall d, e :: d in m && e in m && d.path == e.path ==> d == e)
  }

  lemma {:induction false} DistinctIffOncePerPath(devices: seq<Device>)
    ensures DistinctPaths(devices) <==> OncePerPath(multiset(devices))
    decreases |devices|
  {
    if devices != [] {
      var (head, rest) := (devices[0], devices[1..]);
      assert devices == [head] + rest;
      DistinctIffOncePerPath(rest);
      if DistinctPaths(devices) {
        DistinctCons(head, rest);
      } else if OncePerPath(multiset(devices)) {
        OnceCons(head, rest);
        assert false;
      }
    }
  }

  lemma DistinctCons(head: Device, rest: seq<Device>)
    requires DistinctPaths([head] + rest) && (DistinctPaths(rest) ==> OncePerPath(multiset(rest)))
    ensures OncePerPath(multiset([head] + rest))
  {
    var all := [head] + rest;
    forall i, j | 0 <= i < j < |rest| ensures rest[i].path != rest[j].path {
      assert rest[i] == all[i + 1] && rest[j] == all[j + 1];
    }
    forall d | d in multiset(rest) ensures d.path != head.path {
      var i :| 0 <= i < |rest| && rest[i] == d;
      assert all[i + 1] == d && all[0] == head;
    }
    assert multiset(all) == multiset{head} + multiset(rest);
    assert multiset(rest)[head] == 0;
  }

  lemma OnceOfPart(part: multiset<Device>, all: multiset<Device>)
    requires OncePerPath(all) && part <= all
    ensures OncePerPath(part)
  {
    forall d ensures part[d] <= 1 {
      assert part[d] <= all[d] <= 1;
    }
  }

  lemma OnceCons(head: Device, rest: seq<Device>)
    requires OncePerPath(multiset([head] + rest)) && (OncePerPath(multiset(rest)) ==> DistinctPaths(rest))
    ensures DistinctPaths([head] + rest)
  {
    var all := multiset([head] + rest);
    assert all == multiset{head} + multiset(rest);
    OnceOfPart(multiset(rest), all);
    forall j | 0 <= j < |rest| ensures rest[j].path != head.path {
      assert rest[j] in multiset(rest);
      assert rest[j] in all && head in all;
      assert rest[j] == head ==> all[head] >= 2;
    }
  }

  lemma FreeOfTypeDistinct(devices: seq<Device>, disk: MeasuredType)
    requires DistinctPaths(devices)
    ensures DistinctPaths(FreeOfType(devices, disk))
    ensures AllOf(FreeOfType(devices, disk), devices, disk)
  {
    var (all, some) := (multiset(devices), multiset(FreeOfType(devices, disk)));
    DistinctIffOncePerPath(devices);
    forall d ensures some[d] <= all[d] {
      FreeOfTypeIsExact(devices, disk, d);
    }
    OnceOfPart(some, all);
    DistinctIffOncePerPath(FreeOfType(devices, disk));
    FreeOfTypeMembers(devices, disk);
  }

  lemma FreeOfTypeMembers(devices: seq<Device>, disk: MeasuredType)
    ensures AllOf(FreeOfType(devices, disk), devices, disk)
  {
    var some := FreeOfType(devices, disk);
    forall i | 0 <= i < |some| ensures some[i] in devices && !Used(some[i]) && some[i].disk == disk {
      FreeOfTypeIsExact(devices, disk, some[i]);
      assert some[i] in multiset(some);
      assert some[i] in multiset(devices);
    }
  }

  /** A pool as the policy wants it: so many of the listed disks, none used, all of one type. */
  ghost predicate Uniform(pool: Pool, devices: seq<Device>, n: nat) {
    |pool| == n && forall i :: 0 <= i < n ==> pool[i] in devices && !Used(pool[i]) && pool[i].disk == pool[0].disk
  }

  ghost predicate Homogeneous(pool: Pool, devices: seq<Device>, n: nat) {
    Uniform(pool, devices, n) && DistinctPaths(pool)
  }

  ghost predicate AllOf(pool: Pool, devices: seq<Device>, disk: MeasuredType) {
    forall i :: 0 <= i < |pool| ==> pool[i] in devices && !Used(pool[i]) && pool[i].disk == disk
  }

  ghost predicate AllHomogeneous(pools: seq<Pool>, devices: seq<Device>, n: nat) {
    && (forall i :: 0 <= i < |pools| ==> Homogeneous(pools[i], devices, n))
    && (forall i, j :: 0 <= i < j < |pools| ==> Disjoint(pools[i], pools[j]))
  }

  ghost predicate AllOfType(pools: seq<Pool>, devices: seq<Device>, disk: MeasuredType) {
    forall i :: 0 <= i < |pools| ==> AllOf(pools[i], devices, disk)
  }

  lemma GoodIsHomogeneous(pool: Pool, disks: seq<Device>, k: nat, devices: seq<Device>, disk: MeasuredType, n: nat)
    requires k <= |disks| && Good(pool, disks[..k], n)
    requires AllOf(disks, devices, disk)
    ensures Homogeneous(pool, devices, n) && AllOf(pool, devices, disk)
  {
    forall i | 0 <= i < n ensures pool[i] in disks {
      assert pool[i] in disks[..k];
    }
  }

  lemma PoolsOfCount(devices: seq<Device>, disk: MeasuredType, n: nat, count: nat, mkfs: Pool -> bool)
    requires DistinctPaths(devices) && count * n <= |FreeOfType(devices, disk)|
    ensures
      var pools := Pools(FreeOfType(devices, disk), n, count, mkfs);
      AllHomogeneous(pools, devices, n) && AllOfType(pools, devices, disk)
  {
    var disks := FreeOfType(devices, disk);
    var pools := Pools(disks, n, count, mkfs);
    FreeOfTypeDistinct(devices, disk);
    PoolsAreGood(disks, n, count, mkfs);
    forall i | 0 <= i < |pools| ensures Homogeneous(pools[i], devices, n) && AllOf(pools[i], devices, disk) {
      GoodIsHomogeneous(pools[i], disks, count * n, devices, disk, n);
    }
  }

  lemma PoolsOfType(devices: seq<Device>, disk: MeasuredType, policy: Policy, created: nat, mkfs: Pool -> bool)
    requires DistinctPaths(devices) && policy.disks > 0
    ensures
      var pools := PoolsFrom(FreeOfType(devices, disk), policy, created, mkfs);
      AllHomogeneous(pools, devices, policy.disks) && AllOfType(pools, devices, disk)
  {
    PoolsOfCount(devices, disk, policy.disks, PoolCount(|FreeOfType(devices, disk)|, policy, created), mkfs);
  }

  lemma TypesDisjoint(devices: seq<Device>, a: Pool, b: Pool)
    requires DistinctPaths(devices) && AllOf(a, devices, SSD) && AllOf(b, devices, HDD)
    ensures Disjoint(a, b)
  {
    forall i, j | 0 <= i < |a| && 0 <= j < |b| ensures a[i].path != b[j].path {
      var k :| 0 <= k < |devices| && devices[k] == a[i];
      var m :| 0 <= m < |devices| && devices[m] == b[j];
    }
  }

  /**
   * Pool creation: whatever disks fail, each new pool has exactly the number of disks the policy asks for, all
   * unused and of one type, so making a pool never finds a disk in use; and the pools are pairwise disjoint when
   * the free devices have distinct paths.
   */
  lemma NewPoolsAreSound(devices: seq<Device>, policy: Policy, mkfs: Pool -> bool)
    ensures MakePools(devices, policy, mkfs).Created? <==> Applies(policy)
    ensures Applies(policy) ==> AllUniform(MakePools(devices, policy, mkfs).pools, devices, policy.disks)
    ensures Applies(policy) && DistinctPaths(Free(devices)) ==>
              AllHomogeneous(MakePools(devices, policy, mkfs).pools, devices, policy.disks)
  {
    if Applies(policy) {
      AppliedPoolsAreUniform(devices, policy, mkfs);
    }
    if Applies(policy) && DistinctPaths(Free(devices)) {
      FreeOfFree(devices);
      AppliedPoolsAreSound(Free(devices), policy, mkfs);
      FreeAreListed(MakePools(devices, policy, mkfs).pools, devices, policy.disks);
    }
  }

  ghost predicate AllUniform(pools: seq<Pool>, devices: seq<Device>, n: nat) {
    forall i :: 0 <= i < |pools| ==> Uniform(pools[i], devices, n)
  }

  lemma {:induction false} PoolsAreUniform(devices: seq<Device>, disk: MeasuredType, disks: seq<Device>, n: nat, count: nat, mkfs: Pool -> bool)
    requires count * n <= |disks| && AllOf(disks, devices, disk)
    ensures AllUniform(Pools(disks, n, count, mkfs), devices, n)
    decreases count
  {
    if count > 0 {
      PoolsAreUniform(devices, disk, disks, n, count - 1, mkfs);
      GroupIsUniform(devices, disk, disks, n, count - 1);
    }
  }

  lemma GroupIsUniform(devices: seq<Device>, disk: MeasuredType, disks: seq<Device>, n: nat, i: nat)
    requires i * n + n <= |disks| && AllOf(disks, devices, disk)
    ensures Uniform(Group(disks, n, i), devices, n)
  {
    forall j | 0 <= j < n ensures Group(disks, n, i)[j] == disks[i * n + j] {
    }
  }

  lemma AppliedPoolsAreUniform(devices: seq<Device>, policy: Policy, mkfs: Pool -> bool)
    requires Applies(policy)
    ensures AllUniform(MakePools(devices, policy, mkfs).pools, devices, policy.disks)
  {
    var fast := PoolsFrom(FreeOfType(devices, SSD), policy, 0, mkfs);
    UniformFrom(devices, SSD, policy, 0, mkfs);
    UniformFrom(devices, HDD, policy, |fast|, mkfs);
  }

  lemma UniformFrom(devices: seq<Device>, disk: MeasuredType, policy: Policy, created: nat, mkfs: Pool -> bool)
    requires policy.disks > 0
    ensures AllUniform(PoolsFrom(FreeOfType(devices, disk), policy, created, mkfs), devices, policy.disks)
  {
    var disks := FreeOfType(devices, disk);
    FreeOfTypeMembers(devices, disk);
    PoolsAreUniform(devices, disk, disks, policy.disks, PoolCount(|disks|, policy, created), mkfs);
  }

  lemma {:induction false} FreeOfFree(devices: seq<Device>)
    ensures Free(Free(devices)) == Free(devices)
    decreases |devices|
  {
    if devices != [] {
      var (front, d) := (devices[..|devices| - 1], devices[|devices| - 1]);
      FreeOfFree(front);
      if Used(d) {
        assert Free(devices) == Free(front);
      } else {
        assert (Free(front) + [d])[..|Free(front)|] == Free(front);
      }
    }
  }

  lemma FreeAreListed(pools: seq<Pool>, devices: seq<Device>, n: nat)
    requires AllHomogeneous(pools, Free(devices), n)
    ensures AllHomogeneous(pools, devices, n)
  {
    forall i | 0 <= i < |pools| ensures Homogeneous(pools[i], devices, n) {
      assert Homogeneous(pools[i], Free(devices), n);
      forall k | 0 <= k < n ensures pools[i][k] in devices {
        FreeIsExact(devices, pools[i][k]);
        assert pools[i][k] in multiset(Free(devices));
        assert pools[i][k] in multiset(devices);
      }
    }
  }

  lemma AppliedPoolsAreSound(devices: seq<Device>, policy: Policy, mkfs: Pool -> bool)
    requires DistinctPaths(devices) && Applies(policy)
    ensures AllHomogeneous(MakePools(devices, policy, mkfs).pools, devices, policy.disks)
  {
    var fast := PoolsFrom(FreeOfType(devices, SSD), policy, 0, mkfs);
    var slow := PoolsFrom(FreeOfType(devices, HDD), policy, |fast|, mkfs);
    PoolsOfType(devices, SSD, policy, 0, mkfs);
    PoolsOfType(devices, HDD, policy, |fast|, mkfs);
    forall i, j | 0 <= i < |fast| && 0 <= j < |slow| ensures Disjoint(fast[i], slow[j]) {
      TypesDisjoint(devices, fast[i], slow[j]);
    }
    HomogeneousJoin(fast, slow, devices, policy.disks);
  }

  lemma HomogeneousJoin(a: seq<Pool>, b: seq<Pool>, devices: seq<Device>, n: nat)
    requires AllHomogeneous(a, devices, n) && AllHomogeneous(b, devices, n)
    requires forall i, j :: 0 <= i < |a| && 0 <= j < |b| ==> Disjoint(a[i], b[j])
    ensures AllHomogeneous(a + b, devices, n)
  {
  }

  // ---------------------------------------------------------------- devices that are listed twice

  /** No path is in two places of the pools. */
  ghost predicate Separate(pools: seq<Pool>) {
    && (forall i :: 0 <= i < |pools| ==> DistinctPaths(pools[i]))
    && (forall i, j :: 0 <= i < j < |pools| ==> Disjoint(pools[i], pools[j]))
  }

  lemma DistinctJoinIff(a: seq<Device>, b: seq<Device>)
    ensures DistinctPaths(a + b) <==> DistinctPaths(a) && DistinctPaths(b) && Disjoint(a, b)
  {
    var all := a + b;
    if DistinctPaths(all) {
      forall i, j | 0 <= i < j < |a| ensures a[i].path != a[j].path {
        assert all[i] == a[i] && all[j] == a[j];
      }
      forall i, j | 0 <= i < j < |b| ensures b[i].path != b[j].path {
        assert all[|a| + i] == b[i] && all[|a| + j] == b[j];
      }
      forall i, j | 0 <= i < |a| && 0 <= j < |b| ensures a[i].path != b[j].path {
        assert all[i] == a[i] && all[|a| + j] == b[j];
      }
    }
  }

  lemma {:induction false} JoinedHolds(pools: seq<Pool>, pool: Pool)
    ensures Disjoint(Joined(pools), pool) <==> forall i :: 0 <= i < |pools| ==> Disjoint(pools[i], pool)
    decreases |pools|
  {
    if pools != [] {
      var rest := pools[1..];
      JoinedHolds(rest, pool);
      DisjointJoinIff(pools[0], Joined(rest), pool);
      if forall i :: 0 <= i < |rest| ==> Disjoint(rest[i], pool) {
        forall i | 0 < i < |pools| ensures Disjoint(pools[i], pool) {
          assert pools[i] == rest[i - 1];
        }
      } else {
        var i :| 0 <= i < |rest| && !Disjoint(rest[i], pool);
        assert pools[i + 1] == rest[i];
      }
    }
  }

  lemma DisjointJoinIff(a: Pool, b: Pool, c: Pool)
    ensures Disjoint(a + b, c) <==> Disjoint(a, c) && Disjoint(b, c)
  {
    var all := a + b;
    if Disjoint(all, c) {
      forall i, j | 0 <= i < |a| && 0 <= j < |c| ensures a[i].path != c[j].path {
        assert all[i] == a[i];
      }
      forall i, j | 0 <= i < |b| && 0 <= j < |c| ensures b[i].path != c[j].path {
        assert all[|a| + i] == b[i];
      }
    }
  }

  /** Pools share no device exactly when the disks they are made of, one after the other, have distinct paths. */
  lemma {:induction false} SeparateIff(pools: seq<Pool>)
    ensures Separate(pools) <==> DistinctPaths(Joined(pools))
    decreases |pools|
  {
    if pools != [] {
      var (front, last) := (pools[..|pools| - 1], pools[|pools| - 1]);
      assert pools == front + [last];
      SeparateIff(front);
      JoinedAppend(front, last);
      JoinedHolds(front, last);
      DistinctJoinIff(Joined(front), last);
      SeparateLast(front, last);
    }
  }

  lemma SeparateLast(front: seq<Pool>, last: Pool)
    ensures Separate(front + [last]) <==>
            Separate(front) && DistinctPaths(last) && forall i :: 0 <= i < |front| ==> Disjoint(front[i], last)
  {
    var pools := front + [last];
    if Separate(pools) {
      forall i | 0 <= i < |front| ensures DistinctPaths(front[i]) && Disjoint(front[i], last) {
        assert pools[i] == front[i] && pools[|front|] == last;
      }
      forall i, j | 0 <= i < j < |front| ensures Disjoint(front[i], front[j]) {
        assert pools[i] == front[i] && pools[j] == front[j];
      }
      assert pools[|front|] == last;
    }
  }

  lemma {:induction false} JoinedAll(disks: seq<Device>, n: nat, count: nat)
    requires count * n <= |disks|
    ensures Joined(Pools(disks, n, count, _ => true)) == disks[..count * n]
    decreases count
  {
    if count > 0 {
      FrontNext(disks, n, count - 1);
      JoinedAll(disks, n, count - 1);
      JoinedAppend(Pools(disks, n, count - 1, _ => true), Group(disks, n, count - 1));
    }
  }

  lemma {:induction false} JoinedJoin(a: seq<Pool>, b: seq<Pool>)
    ensures Joined(a + b) == Joined(a) + Joined(b)
    decreases |a|
  {
    if a == [] {
      assert a + b == b;
    } else {
      assert (a + b)[1..] == a[1..] + b;
      JoinedJoin(a[1..], b);
    }
  }

  /** The disks of a type that are made into pools. */
  function TakenFrom(disks: seq<Device>, policy: Policy, created: nat): seq<Device>
    requires policy.disks > 0
  {
    disks[..PoolCount(|disks|, policy, created) * policy.disks]
  }

  /**
   * A device that the listing shows twice, below two disks, can end up in two pools.  With disks that all
   * work the new pools share no device exactly when the free disks that are taken have distinct paths.
   */
  lemma NewPoolsSeparateIff(devices: seq<Device>, policy: Policy)
    requires Applies(policy)
    ensures
      var (fast, slow) := (FreeOfType(devices, SSD), FreeOfType(devices, HDD));
      var made := |PoolsFrom(fast, policy, 0, _ => true)|;
      Separate(MakePools(devices, policy, _ => true).pools) <==>
      DistinctPaths(TakenFrom(fast, policy, 0) + TakenFrom(slow, policy, made))
  {
    var (fast, slow) := (FreeOfType(devices, SSD), FreeOfType(devices, HDD));
    var pools := PoolsFrom(fast, policy, 0, _ => true);
    JoinedAll(fast, policy.disks, PoolCount(|fast|, policy, 0));
    JoinedAll(slow, policy.disks, PoolCount(|slow|, policy, |pools|));
    JoinedJoin(pools, PoolsFrom(slow, policy, |pools|, _ => true));
    SeparateIff(MakePools(devices, policy, _ => true).pools);
  }

  function PlainDisk(path: string, disk: MeasuredType): Device {
    Device(path, "", "", disk, 0, false, [])
  }

  lemma AllTheSame(s: seq<Device>, d: Device)
    requires multiset(s) == multiset{d, d}
    ensures s == [d] + [d]
  {
    assert |multiset(s)| == 2;
    assert s[0] in multiset(s) && s[1] in multiset(s);
  }

  lemma TheOnlyOne(s: seq<Device>, d: Device)
    requires multiset(s) == multiset{d}
    ensures s == [d]
  {
    assert |multiset(s)| == 1;
    assert s[0] in multiset(s);
  }

  lemma TwoPools(disks: seq<Device>)
    requires |disks| == 2
    ensures Pools(disks, 1, 2, _ => true) == [[disks[0]]] + [[disks[1]]]
  {
    assert Group(disks, 1, 0) == [disks[0]] && Group(disks, 1, 1) == [disks[1]];
    assert Pools(disks, 1, 1, _ => true) == [[disks[0]]];
  }

  /** One array that two disks show is made into two pools. */
  lemma SharedDeviceInTwoPools()
    ensures
      var md := PlainDisk("/dev/md0", SSD);
      var listing := Flatten([Disk("/dev/sda", [md])] + [Disk("/dev/sdb", [md])]);
      var made := MakePools(listing, Policy(Single, 1, 0), _ => true);
      made.Created? && made.pools == [[md]] + [[md]] && !Separate(made.pools)
  {
    var md := PlainDisk("/dev/md0", SSD);
    var listing := Flatten([Disk("/dev/sda", [md])] + [Disk("/dev/sdb", [md])]);
    FlattenTwo(Disk("/dev/sda", [md]), Disk("/dev/sdb", [md]), md);
    FreeTwice(listing, md);
    ListedTwice(md, SSD);
    ListedTwice(md, HDD);
    PoolsOfBoth(listing, md);
    TwiceIsNotSeparate(md);
  }

  function Disk(path: string, children: seq<Device>): Device {
    Device(path, "", "", SSD, 0, false, children)
  }

  lemma FlattenTwo(a: Device, b: Device, md: Device)
    requires a.children == [md] && b.children == [md] && md.children == []
    ensures Flatten([a] + [b]) == [Stripped(a)] + [Stripped(md)] + [Stripped(b)] + [Stripped(md)]
  {
    assert [md][1..] == [] && ([a] + [b])[1..] == [b] && [b][1..] == [];
    assert Flatten([md]) == [Stripped(md)];
    assert Flatten([b]) == [Stripped(b)] + [Stripped(md)];
  }

  /** The disks are in use by their partitions, the array is free and listed twice. */
  lemma FreeTwice(listing: seq<Device>, md: Device)
    requires |listing| == 4 && listing == [listing[0]] + [md] + [listing[2]] + [md] && !Used(md) && Used(listing[0]) && Used(listing[2])
    ensures Free(listing) == [md] + [md] == Free([md] + [md])
  {
    var (a, b) := (listing[0], listing[2]);
    FreeNext([], a);
    FreeNext([] + [a], md);
    FreeNext([] + [a] + [md], b);
    FreeNext([] + [a] + [md] + [b], md);
    assert [] + [a] + [md] + [b] + [md] == listing;
    FreeNext([], md);
    FreeNext([] + [md], md);
    assert [] + [md] + [md] == [md] + [md];
  }

  lemma FreeNext(devices: seq<Device>, d: Device)
    ensures Free(devices + [d]) == Free(devices) + if Used(d) then [] else [d]
  {
    assert (devices + [d])[..|devices|] == devices;
  }

  lemma ListedTwice(d: Device, disk: MeasuredType)
    requires !Used(d)
    ensures FreeOfType([d] + [d], disk) == if disk == d.disk then [d] + [d] else []
  {
    if disk == d.disk {
      BothOfType(d);
    } else {
      NoneOfType(d, disk);
    }
  }

  lemma BothOfType(d: Device)
    requires !Used(d)
    ensures FreeOfType([d] + [d], d.disk) == [d] + [d]
  {
    assert multiset([d] + [d]) == multiset{d, d};
    forall e ensures multiset(FreeOfType([d] + [d], d.disk))[e] == multiset{d, d}[e] {
      FreeOfTypeIsExact([d] + [d], d.disk, e);
    }
    AllTheSame(FreeOfType([d] + [d], d.disk), d);
  }

  lemma NoneOfType(d: Device, disk: MeasuredType)
    requires disk != d.disk
    ensures FreeOfType([d] + [d], disk) == []
  {
    FreeOfTypeMembers([d] + [d], disk);
    if FreeOfType([d] + [d], disk) != [] {
      FirstIsOfType(FreeOfType([d] + [d], disk), d, disk);
    }
  }

  lemma FirstIsOfType(some: seq<Device>, d: Device, disk: MeasuredType)
    requires AllOf(some, [d] + [d], disk) && some != []
    ensures disk == d.disk
  {
    assert some[0] in [d] + [d];
  }

  lemma PoolsOfBoth(listing: seq<Device>, md: Device)
    requires FreeOfType(listing, SSD) == [md] + [md] && FreeOfType(listing, HDD) == []
    ensures
      var made := MakePools(listing, Policy(Single, 1, 0), _ => true);
      made.Created? && made.pools == [[md]] + [[md]]
  {
    TwoPools([md] + [md]);
    assert PoolsFrom([md] + [md], Policy(Single, 1, 0), 0, _ => true) == [[md]] + [[md]];
    assert PoolsFrom([], Policy(Single, 1, 0), 2, _ => true) == [];
  }

  lemma TwiceIsNotSeparate(d: Device)
    ensures !Separate([[d]] + [[d]])
  {
    var pools := [[d]] + [[d]];
    assert pools[0] == [d] && pools[1] == [d];
    assert !Disjoint(pools[0], pools[1]) by { assert [d][0].path == [d][0].path; }
  }

  // ---------------------------------------------------------------- the limit on pools

  lemma {:induction false} AllMade(disks: seq<Device>, n: nat, count: nat)
    requires count * n <= |disks|
    ensures |Pools(disks, n, count, _ => true)| == count
    decreases count
  {
    if count > 0 {
      AllMade(disks, n, count - 1);
    }
  }

  /**
   * The limit of the policy is taken per type of disk.  With disks that all work it bounds the new pools
   * exactly when one type gives no pool, or both together stay within it anyway.
   */
  lemma LimitHoldsIff(devices: seq<Device>, policy: Policy)
    requires policy.maxPools > 0 && Applies(policy)
    ensures
      var (fast, slow) := (|FreeOfType(devices, SSD)| / policy.disks, |FreeOfType(devices, HDD)| / policy.disks);
      |MakePools(devices, policy, _ => true).pools| <= policy.maxPools <==>
      fast == 0 || slow == 0 || fast + slow <= policy.maxPools
  {
    var (ssds, hdds) := (FreeOfType(devices, SSD), FreeOfType(devices, HDD));
    var first := PoolCount(|ssds|, policy, 0);
    AllMade(ssds, policy.disks, first);
    AllMade(hdds, policy.disks, PoolCount(|hdds|, policy, first));
  }

  lemma OneOfType(a: Device, b: Device)
    requires !Used(a) && !Used(b) && a.disk != b.disk
    ensures FreeOfType([a] + [b], a.disk) == [a]
    ensures FreeOfType([b] + [a], a.disk) == [a]
  {
    OneOfTypeIn([a] + [b], a, b);
    OneOfTypeIn([b] + [a], a, b);
  }

  lemma OneOfTypeIn(devices: seq<Device>, a: Device, b: Device)
    requires multiset(devices) == multiset{a, b} && !Used(a) && !Used(b) && a.disk != b.disk
    ensures FreeOfType(devices, a.disk) == [a]
  {
    forall e ensures multiset(FreeOfType(devices, a.disk))[e] == multiset{a}[e] {
      FreeOfTypeIsExact(devices, a.disk, e);
    }
    TheOnlyOne(FreeOfType(devices, a.disk), a);
  }

  /** A limit of one pool, one disk of each type, and two pools. */
  lemma LimitExceeded()
    ensures
      var disks := [PlainDisk("/dev/sda", SSD)] + [PlainDisk("/dev/sdb", HDD)];
      |MakePools(disks, Policy(Single, 1, 1), _ => true).pools| == 2
  {
    var (ssd, hdd) := (PlainDisk("/dev/sda", SSD), PlainDisk("/dev/sdb", HDD));
    OneOfType(ssd, hdd);
    OneOfType(hdd, ssd);
    OneOfEach([ssd] + [hdd]);
  }

  lemma OneOfEach(devices: seq<Device>)
    requires |FreeOfType(devices, SSD)| == 1 && |FreeOfType(devices, HDD)| == 1
    ensures |MakePools(devices, Policy(Single, 1, 1), _ => true).pools| == 2
  {
    OneFrom(FreeOfType(devices, SSD), 0);
    OneFrom(FreeOfType(devices, HDD), 1);
  }

  lemma OneFrom(disks: seq<Device>, created: nat)
    requires |disks| == 1
    ensures |PoolsFrom(disks, Policy(Single, 1, 1), created, _ => true)| == 1
  {
    assert PoolCount(1, Policy(Single, 1, 1), created) == 1;
    AllMade(disks, 1, 1);
  }

  // ---------------------------------------------------------------- the module

  /** The loops of the initialization, over the free disks of one type. */
  method CreatePools(disks: seq<Device>, n: nat, count: nat, mkfs: Pool -> bool)
    returns (pools: seq<Pool>, broken: seq<Device>)
    requires count * n <= |disks|
    ensures pools == Pools(disks, n, count, mkfs) && broken == Broken(disks, n, count, mkfs)
  {
    pools, broken := [], [];
    for i := 0 to count
      invariant i * n <= |disks|
      invariant pools == Pools(disks, n, i, mkfs) && broken == Broken(disks, n, i, mkfs)
    {
      CountMonotone(i + 1, count, n);
      var poolDevices := [];
      for j := 0 to n
        invariant poolDevices == disks[i * n..i * n + j]
      {
        poolDevices := poolDevices + [disks[i * n + j]];
      }
      assert poolDevices == Group(disks, n, i);
      if mkfs(poolDevices) {
        pools := pools + [poolDevices];
      } else {
        broken := broken + poolDevices;
      }
    }
  }

  method FindFree(devices: seq<Device>) returns (free: seq<Device>)
    ensures free == Free(devices)
  {
    free := [];
    for i := 0 to |devices|
      invariant free == Free(devices[..i])
    {
      assert devices[..i + 1][..i] == devices[..i];
      if !Used(devices[i]) {
        free := free + [devices[i]];
      }
    }
    assert devices[..|devices|] == devices;
  }

  method SplitByType(disks: seq<Device>) returns (ssds: seq<Device>, hdds: seq<Device>)
    ensures ssds == OfType(disks, SSD) && hdds == OfType(disks, HDD)
  {
    ssds, hdds := [], [];
    for i := 0 to |disks|
      invariant ssds == OfType(disks[..i], SSD) && hdds == OfType(disks[..i], HDD)
    {
      assert disks[..i + 1][..i] == disks[..i];
      if disks[i].disk == SSD {
        ssds := ssds + [disks[i]];
      } else {
        hdds := hdds + [disks[i]];
      }
    }
    assert disks[..|disks|] == disks;
  }

  method InitializePools(devices: seq<Device>, policy: Policy, mkfs: Pool -> bool) returns (r: Outcome)
    ensures r == MakePools(devices, policy, mkfs)
  {
    var free := FindFree(devices);
    free := Sort(free, ReadTime);
    if policy.raid.OtherProfile? {
      return UnknownProfile;
    }
    if policy.disks % DiskBase(policy.raid) != 0 {
      return WrongNumberOfDisks;
    }
    var ssds, hdds := SplitByType(free);
    if policy.disks == 0 {
      return DividesByZero;
    }
    var pools, broken := CreatePools(ssds, policy.disks, PoolCount(|ssds|, policy, 0), mkfs);
    var more, dead := CreatePools(hdds, policy.disks, PoolCount(|hdds|, policy, |pools|), mkfs);
    return Created(pools + more, broken + dead);
  }
}
