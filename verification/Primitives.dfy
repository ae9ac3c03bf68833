/**
Reservations and the resource units they stand for
(pkg/provision/reservation.go, pkg/provision/primitives/counters.go).

A reservation carries its workload as a raw JSON document.  The document is
represented by its bytes together with what each of the decoders makes of it,
so that the same document can be read under two different reservation kinds,
and so that a document a decoder rejects is still a reservation.
*/
module Primitives {
  import opened U64

  type Id = string

  datatype DiskType = SSD | HDD | OtherDisk

  datatype Kind =
    | Container | Volume | Network | NetworkResource | Zdb
    | Debug | Kubernetes | PublicIP | VirtualMachine | UnknownKind(name: string)

  datatype Decoded<+T> = Bad | Good(value: T)

  datatype VolumeSpec = VolumeSpec(size: u64, disk: DiskType)
  datatype ContainerSpec = ContainerSpec(cpu: u64, memory: u64, disk: DiskType, diskSize: u64)
  datatype ZdbSpec = ZdbSpec(size: u64, disk: DiskType)
  /** `custom*` are the custom sizes after their conversion to uint64. */
  datatype VmSpec = VmSpec(size: int, customCru: u64, customMru: u64, customSru: u64)

  datatype Payload = Payload(
    raw: string,
    volume: Decoded<VolumeSpec>,
    container: Decoded<ContainerSpec>,
    zdb: Decoded<ZdbSpec>,
    kubernetes: Decoded<VmSpec>,
    vm: Decoded<VmSpec>,
    network: Decoded<string>)

  datatype ResultState = StateError | StateOk | StateDeleted

  datatype Reservation = Reservation(
    id: Id,
    user: string,
    kind: Kind,
    data: Payload,
    created: int,
    duration: int,
    toDelete: bool,
    reference: Id,
    state: ResultState)
  {
    predicate Expired(now: int) {
      now > created + duration
    }

    /** `created == 0` is the zero time. */
    predicate Valid(now: int) {
      duration > 0 && created != 0 && !Expired(now)
    }
  }

  datatype Units = Units(cru: u64, mru: u64, sru: u64, hru: u64)

  const NO_UNITS := Units(0, 0, 0, 0)

  function DiskUnits(disk: DiskType, bytes: u64): Units {
    match disk
    case SSD => Units(0, 0, bytes, 0)
    case HDD => Units(0, 0, 0, bytes)
    case OtherDisk => NO_UNITS
  }

  function ContainerUnits(c: ContainerSpec): Units {
    DiskUnits(c.disk, Mebi(c.diskSize)).(cru := c.cpu, mru := Mebi(c.memory))
  }

  /** Catalogue sizes: processors, memory in GiB, disk in GiB. */
  function Catalogue(size: int): (u64, u64, u64) {
    match size
    case 1 => (1, 2, 50)
    case 2 => (2, 4, 100)
    case 3 => (2, 8, 25)
    case 4 => (2, 8, 50)
    case 5 => (2, 8, 200)
    case 6 => (4, 16, 50)
    case 7 => (4, 16, 100)
    case 8 => (4, 16, 400)
    case 9 => (8, 32, 100)
    case 10 => (8, 32, 200)
    case 11 => (8, 32, 800)
    case 12 => (1, 64, 200)
    case 13 => (1, 64, 400)
    case 14 => (1, 64, 800)
    case 15 => (1, 2, 25)
    case 16 => (2, 4, 50)
    case 17 => (4, 8, 50)
    case 18 => (1, 1, 25)
    case _ => (0, 0, 0)
  }

  /** Five percent of the memory on top, at most one GiB. */
  function Overhead(mru: u64): u64 {
    Min(Wrap(mru * 5) / 100, GIB)
  }

  function VmUnits(vm: VmSpec): Units {
    var (cru, mru, sru) :=
      if vm.size == -1 then (vm.customCru, vm.customMru, vm.customSru) else Catalogue(vm.size);
    var bytes := Gibi(mru);
    Units(cru, Add(bytes, Overhead(bytes)), Gibi(sru), 0)
  }

  /** The units a reservation asks for; `Bad` when its document does not decode. */
  function UnitsOf(r: Reservation): Decoded<Units> {
    match r.kind
    case Volume =>
      if r.data.volume.Good?
      then Good(DiskUnits(r.data.volume.value.disk, Gibi(r.data.volume.value.size))) else Bad
    case Container =>
      if r.data.container.Good? then Good(ContainerUnits(r.data.container.value)) else Bad
    case Zdb =>
      if r.data.zdb.Good?
      then Good(DiskUnits(r.data.zdb.value.disk, Gibi(r.data.zdb.value.size))) else Bad
    case Kubernetes =>
      if r.data.kubernetes.Good? then Good(VmUnits(r.data.kubernetes.value)) else Bad
    case VirtualMachine =>
      if r.data.vm.Good? then Good(VmUnits(r.data.vm.value)) else Bad
    case _ => Good(NO_UNITS)
  }

  /** The ten capacity counters. */
  datatype Meter =
    | Containers | Volumes | Networks | Zdbs | K8s | Vms
    | Sru | Hru | Mru | Cru

  /** The units that are accounted: none when the document does not decode. */
  function AccountedUnits(r: Reservation): (u: Units)
    ensures u.mru != 0 ==> r.kind in {Container, Kubernetes, VirtualMachine}
  {
    if UnitsOf(r).Good? then UnitsOf(r).value else NO_UNITS
  }

  function Counted(yes: bool): u64 {
    if yes then 1 else 0
  }

  /** What one reservation adds to one counter. */
  function Contribution(m: Meter, r: Reservation): u64 {
    match m
    case Containers => Counted(r.kind == Container)
    case Volumes => Counted(r.kind == Volume)
    case Networks => Counted(r.kind == Network || r.kind == NetworkResource)
    case Zdbs => Counted(r.kind == Zdb)
    case K8s => Counted(r.kind == Kubernetes)
    case Vms => Counted(r.kind == VirtualMachine)
    case Sru => AccountedUnits(r).sru
    case Hru => AccountedUnits(r).hru
    case Mru => AccountedUnits(r).mru
    case Cru => AccountedUnits(r).cru
  }

  lemma SameWorkloadSameContribution(m: Meter, a: Reservation, b: Reservation)
    requires a.kind == b.kind && a.data == b.data
    ensures Contribution(m, a) == Contribution(m, b)
  {
  }
}
