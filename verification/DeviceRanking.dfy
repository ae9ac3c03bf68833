/**
Which disks go into which pool, and how many pools there are
(pkg/storage/storage.go:177-255, pkg/storage/filesystem/device.go:64-68).
*/
module DeviceRanking {
  import opened Primitives
  import opened Sorting
  import opened Devices

  /** A device is in use exactly when it has a label, a file system or anything below it. */
  lemma FreeIff(d: Device)
    ensures Used(d) <==> !(|d.volume| == 0 && |d.fstype| == 0 && |d.children| == 0 && !d.partitioned)
  {
  }

  ghost predicate FastestFirst(disks: seq<Device>) {
    forall a, b :: 0 <= a < b < |disks| ==> disks[a].readTime <= disks[b].readTime
  }

  lemma {:induction false} OfTypeKeepsOrder(devices: seq<Device>, disk: MeasuredType)
    requires FastestFirst(devices)
    ensures FastestFirst(OfType(devices, disk))
    ensures forall d :: d in OfType(devices, disk) ==> d in devices
    decreases |devices|
  {
    if devices != [] {
      var (front, last) := (devices[..|devices| - 1], devices[|devices| - 1]);
      OfTypeKeepsOrder(front, disk);
      forall d | d in OfType(front, disk) ensures d.readTime <= last.readTime {
        var a :| 0 <= a < |front| && front[a] == d;
        assert devices[a].readTime <= devices[|devices| - 1].readTime;
      }
    }
  }

  /** The candidates of a type come fastest first. */
  lemma CandidatesFastestFirst(devices: seq<Device>, disk: MeasuredType)
    ensures FastestFirst(FreeOfType(devices, disk))
  {
    var sorted := Sort(Free(devices), ReadTime);
    forall a, b | 0 <= a < b < |sorted| ensures sorted[a].readTime <= sorted[b].readTime {
      assert ReadTime(sorted[a]) <= ReadTime(sorted[b]);
    }
    OfTypeKeepsOrder(sorted, disk);
  }

  lemma {:induction false} PoolAt(disks: seq<Device>, n: nat, count: nat, i: nat)
    requires i < count && count * n <= |disks|
    ensures |Pools(disks, n, count, _ => true)| == count && i * n + n <= |disks|
    ensures Pools(disks, n, count, _ => true)[i] == disks[i * n..i * n + n]
    decreases count
  {
    TimesNext(count - 1, n);
    AllMade(disks, n, count - 1);
    if i < count - 1 {
      PoolAt(disks, n, count - 1, i);
    }
  }

  /** The number of pools of a type, when `before` pools were made of the other. */
  function Wanted(disks: nat, policy: Policy, before: nat): nat
    requires policy.disks > 0
  {
    var possible := disks / policy.disks;
    if policy.maxPools == 0 || policy.maxPools >= possible - before then possible else policy.maxPools
  }

  /** Each pool takes the next `n` disks. */
  ghost predicate InTurn(pools: seq<Pool>, disks: seq<Device>, n: nat) {
    forall i :: 0 <= i < |pools| ==> i * n + n <= |disks| && pools[i] == disks[i * n..i * n + n]
  }

  lemma MadeInTurn(disks: seq<Device>, policy: Policy, before: nat)
    requires policy.disks > 0
    ensures
      var pools := PoolsFrom(disks, policy, before, _ => true);
      |pools| == Wanted(|disks|, policy, before) && InTurn(pools, disks, policy.disks)
  {
    var count := PoolCount(|disks|, policy, before);
    AllMade(disks, policy.disks, count);
    forall i | 0 <= i < count
      ensures i * policy.disks + policy.disks <= |disks|
      ensures PoolsFrom(disks, policy, before, _ => true)[i] == disks[i * policy.disks..i * policy.disks + policy.disks]
    {
      PoolAt(disks, policy.disks, count, i);
    }
  }

  /**
   * With working disks: as many pools of SSDs, then of HDDs, as there are full groups of free ones, up to a limit
   * that is compared, for HDDs, with what the SSDs leave; each takes the next disks, the fastest first.
   */
  lemma PoolsTakeFastest(devices: seq<Device>, policy: Policy)
    requires Applies(policy)
    ensures
      var (ssds, hdds) := (FreeOfType(devices, SSD), FreeOfType(devices, HDD));
      var fast := Wanted(|ssds|, policy, 0);
      var pools := MakePools(devices, policy, _ => true).pools;
      && |pools| == fast + Wanted(|hdds|, policy, fast)
      && FastestFirst(ssds) && InTurn(pools[..fast], ssds, policy.disks)
      && FastestFirst(hdds) && InTurn(pools[fast..], hdds, policy.disks)
  {
    var (ssds, hdds) := (FreeOfType(devices, SSD), FreeOfType(devices, HDD));
    CandidatesFastestFirst(devices, SSD);
    CandidatesFastestFirst(devices, HDD);
    MadeInTurn(ssds, policy, 0);
    var first := PoolsFrom(ssds, policy, 0, _ => true);
    MadeInTurn(hdds, policy, |first|);
    var second := PoolsFrom(hdds, policy, |first|, _ => true);
    Halves(first, second, MakePools(devices, policy, _ => true).pools);
  }

  lemma Halves(a: seq<Pool>, b: seq<Pool>, both: seq<Pool>)
    requires both == a + b
    ensures both[..|a|] == a && both[|a|..] == b
  {
  }

  /** The outcome of a policy, case by case. */
  lemma PolicyOutcomes(devices: seq<Device>, policy: Policy, mkfs: Pool -> bool)
    ensures
      var o := MakePools(devices, policy, mkfs);
      && (o == UnknownProfile <==> policy.raid == OtherProfile)
      && (o == WrongNumberOfDisks <==>
            || (policy.raid == Raid1 && policy.disks % 2 == 1)
            || (policy.raid == Raid10 && policy.disks % 4 != 0))
      && (o == DividesByZero <==> policy.raid != OtherProfile && policy.disks == 0)
      && (Applies(policy) <==> o.Created?)
  {
  }
}
