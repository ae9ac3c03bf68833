/**
What each kind of workload adds to each of the ten counters, in plain numbers
(pkg/provision/primitives/counters.go:103-144, 233-391).
*/
module CapacityUnits {
  import opened U64
  import opened Primitives
  import opened Counters

  /** The reservation adds this many units, in processors and bytes. */
  ghost predicate AddsUnits(r: Reservation, cru: nat, mru: nat, sru: nat, hru: nat) {
    && Contribution(Cru, r) == cru && Contribution(Mru, r) == mru
    && Contribution(Sru, r) == sru && Contribution(Hru, r) == hru
  }

  /** The reservation is counted once, as a workload of that kind. */
  ghost predicate CountsOnceAs(r: Reservation, meter: Meter) {
    forall m: Meter :: m in {Containers, Volumes, Networks, Zdbs, K8s, Vms} ==>
      Contribution(m, r) == if m == meter then 1 else 0
  }

  /** Space on a disk counts on the meter of its type only. */
  ghost predicate AddsSpace(r: Reservation, disk: DiskType, bytes: nat) {
    match disk
    case SSD => AddsUnits(r, 0, 0, bytes, 0)
    case HDD => AddsUnits(r, 0, 0, 0, bytes)
    case OtherDisk => AddsUnits(r, 0, 0, 0, 0)
  }

  lemma NoWrap(n: nat, unit: nat)
    requires n * unit < LIMIT
    ensures Wrap(n * unit) == n * unit
  {
  }

  /** A volume of `n` GiB takes `n * 2^30` bytes of its type of disk, modulo 2^64, and nothing else. */
  lemma VolumeAdds(r: Reservation)
    requires r.kind == Volume && r.data.volume.Good?
    ensures
      var v := r.data.volume.value;
      && CountsOnceAs(r, Volumes)
      && AddsSpace(r, v.disk, v.size * 1073741824 % 18446744073709551616)
      && (v.size < 17179869184 ==> AddsSpace(r, v.disk, v.size * 1073741824))
  {
  }

  /** And so does a 0-db. */
  lemma ZdbAdds(r: Reservation)
    requires r.kind == Zdb && r.data.zdb.Good?
    ensures
      var z := r.data.zdb.value;
      && CountsOnceAs(r, Zdbs)
      && AddsSpace(r, z.disk, z.size * 1073741824 % 18446744073709551616)
      && (z.size < 17179869184 ==> AddsSpace(r, z.disk, z.size * 1073741824))
  {
  }

  /** A container takes its processors, its memory in MiB and its disk in MiB on its type of disk. */
  lemma ContainerAdds(r: Reservation)
    requires r.kind == Container && r.data.container.Good?
    ensures
      var c := r.data.container.value;
      var (memory, disk) := (c.memory * 1048576 % 18446744073709551616, c.diskSize * 1048576 % 18446744073709551616);
      && CountsOnceAs(r, Containers)
      && AddsUnits(r, c.cpu, memory, if c.disk == SSD then disk else 0, if c.disk == HDD then disk else 0)
      && (c.memory < 17592186044416 ==> memory == c.memory * 1048576)
      && (c.diskSize < 17592186044416 ==> disk == c.diskSize * 1048576)
  {
  }

  // ---------------------------------------------------------------- machines

  /** The machine a reservation describes, of either kind. */
  ghost predicate Describes(r: Reservation, vm: VmSpec) {
    || (r.kind == VirtualMachine && r.data.vm == Good(vm))
    || (r.kind == Kubernetes && r.data.kubernetes == Good(vm))
  }

  /** Memory in bytes with a twentieth on top, but at most one GiB. */
  function WithOverhead(bytes: nat): nat {
    bytes + Min(bytes / 20, 1073741824)
  }

  /** Processors, memory with its overhead and disk, both of them given in GiB. */
  ghost predicate AddsMachine(r: Reservation, processors: nat, memory: nat, disk: nat) {
    && CountsOnceAs(r, if r.kind == Kubernetes then K8s else Vms)
    && AddsUnits(r, processors, WithOverhead(memory * 1073741824), disk * 1073741824, 0)
  }

  lemma OverheadIsTwentieth(bytes: u64)
    requires bytes * 5 < LIMIT
    ensures Add(bytes, Overhead(bytes)) == WithOverhead(bytes)
  {
    assert bytes * 5 / 100 == bytes / 20;
  }

  /** The units of a machine with those numbers, when they stay below 2^64. */
  lemma MachineUnits(r: Reservation, vm: VmSpec, processors: u64, memory: u64, disk: u64)
    requires Describes(r, vm) && memory <= 3435973836 && disk < 17179869184
    requires (processors, memory, disk) ==
      if vm.size == -1 then (vm.customCru, vm.customMru, vm.customSru) else Catalogue(vm.size)
    ensures AddsMachine(r, processors, memory, disk)
  {
    NoWrap(memory, 0x4000_0000);
    NoWrap(disk, 0x4000_0000);
    OverheadIsTwentieth(Gibi(memory));
  }

  /** A machine of a custom size takes what is asked for. */
  lemma CustomMachineAdds(r: Reservation, vm: VmSpec)
    requires Describes(r, vm) && vm.size == -1 && vm.customMru <= 3435973836 && vm.customSru < 17179869184
    ensures AddsMachine(r, vm.customCru, vm.customMru, vm.customSru)
  {
    MachineUnits(r, vm, vm.customCru, vm.customMru, vm.customSru);
  }

  /** The sizes of the catalogue: processors, GiB of memory, GiB of disk; any other size takes nothing. */
  lemma CatalogueMachineAdds(r: Reservation, vm: VmSpec)
    requires Describes(r, vm)
    ensures vm.size == 1 ==> AddsMachine(r, 1, 2, 50)
    ensures vm.size == 2 ==> AddsMachine(r, 2, 4, 100)
    ensures vm.size == 3 ==> AddsMachine(r, 2, 8, 25)
    ensures vm.size == 4 ==> AddsMachine(r, 2, 8, 50)
    ensures vm.size == 5 ==> AddsMachine(r, 2, 8, 200)
    ensures vm.size == 6 ==> AddsMachine(r, 4, 16, 50)
    ensures vm.size == 7 ==> AddsMachine(r, 4, 16, 100)
    ensures vm.size == 8 ==> AddsMachine(r, 4, 16, 400)
    ensures vm.size == 9 ==> AddsMachine(r, 8, 32, 100)
    ensures vm.size == 10 ==> AddsMachine(r, 8, 32, 200)
    ensures vm.size == 11 ==> AddsMachine(r, 8, 32, 800)
    ensures vm.size == 12 ==> AddsMachine(r, 1, 64, 200)
    ensures vm.size == 13 ==> AddsMachine(r, 1, 64, 400)
    ensures vm.size == 14 ==> AddsMachine(r, 1, 64, 800)
    ensures vm.size == 15 ==> AddsMachine(r, 1, 2, 25)
    ensures vm.size == 16 ==> AddsMachine(r, 2, 4, 50)
    ensures vm.size == 17 ==> AddsMachine(r, 4, 8, 50)
    ensures vm.size == 18 ==> AddsMachine(r, 1, 1, 25)
    ensures vm.size != -1 && !(1 <= vm.size <= 18) ==> AddsMachine(r, 0, 0, 0)
  {
    if vm.size != -1 {
      var (processors, memory, disk) := Catalogue(vm.size);
      MachineUnits(r, vm, processors, memory, disk);
    }
  }

  // ---------------------------------------------------------------- the rest

  /** Networks are counted, other kinds are not, and neither takes units. */
  lemma OthersAddNothing(r: Reservation)
    requires r.kind !in {Volume, Zdb, Container, Kubernetes, VirtualMachine}
    ensures AddsUnits(r, 0, 0, 0, 0)
    ensures Contribution(Networks, r) == if r.kind in {Network, NetworkResource} then 1 else 0
    ensures forall m: Meter :: m in {Containers, Volumes, Zdbs, K8s, Vms} ==> Contribution(m, r) == 0
  {
  }

  /** A document that the decoder of its kind rejects is counted as a workload and takes no units. */
  lemma UndecodableAddsNoUnits(r: Reservation)
    ensures UnitsOf(r).Bad? <==>
      || (r.kind == Volume && r.data.volume.Bad?)
      || (r.kind == Zdb && r.data.zdb.Bad?)
      || (r.kind == Container && r.data.container.Bad?)
      || (r.kind == Kubernetes && r.data.kubernetes.Bad?)
      || (r.kind == VirtualMachine && r.data.vm.Bad?)
    ensures UnitsOf(r).Bad? ==> AddsUnits(r, 0, 0, 0, 0)
    ensures r.kind == Volume ==> CountsOnceAs(r, Volumes)
    ensures r.kind == Zdb ==> CountsOnceAs(r, Zdbs)
    ensures r.kind == Container ==> CountsOnceAs(r, Containers)
    ensures r.kind == Kubernetes ==> CountsOnceAs(r, K8s)
    ensures r.kind == VirtualMachine ==> CountsOnceAs(r, Vms)
  {
  }

  /** What the counters read after an addition below the wrap and after a removal, counter by counter. */
  lemma CountersMoveBy(t: Tally, r: Reservation, m: Meter)
    ensures Increased(t, r).At(m) == (t.At(m) + Contribution(m, r)) % 18446744073709551616
    ensures Decreased(t, r).At(m) == if Contribution(m, r) <= t.At(m) then t.At(m) - Contribution(m, r) else 0
  {
    IncreasedAt(t, r, m);
    DecreasedAt(t, r, m);
  }
}
