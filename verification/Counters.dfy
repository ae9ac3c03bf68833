/**
The capacity counters of the provision daemon
(pkg/provision/primitives/counters.go:57-188).
*/
module Counters {
  import opened U64
  import opened Primitives

  /** A reading of the ten counters. */
  datatype Tally = Tally(
    containers: u64, volumes: u64, networks: u64, zdbs: u64, k8s: u64, vms: u64,
    sru: u64, hru: u64, mru: u64, cru: u64)
  {
    function At(m: Meter): u64 {
      match m
      case Containers => containers
      case Volumes => volumes
      case Networks => networks
      case Zdbs => zdbs
      case K8s => k8s
      case Vms => vms
      case Sru => sru
      case Hru => hru
      case Mru => mru
      case Cru => cru
    }
  }

  const ZERO := Tally(0, 0, 0, 0, 0, 0, 0, 0, 0, 0)

  /** The workload counters raised by one for the kind, the unit counters by the units, modulo 2^64. */
  function Increased(t: Tally, r: Reservation): Tally {
    Reserved(CountedUp(t, r.kind), AccountedUnits(r))
  }

  /** The same counters lowered, each stopping at zero. */
  function Decreased(t: Tally, r: Reservation): Tally {
    Released(CountedDown(t, r.kind), AccountedUnits(r))
  }

  function CountedUp(t: Tally, kind: Kind): Tally {
    match kind
    case Volume => t.(volumes := Add(t.volumes, 1))
    case Container => t.(containers := Add(t.containers, 1))
    case Zdb => t.(zdbs := Add(t.zdbs, 1))
    case Kubernetes => t.(k8s := Add(t.k8s, 1))
    case VirtualMachine => t.(vms := Add(t.vms, 1))
    case Network => t.(networks := Add(t.networks, 1))
    case NetworkResource => t.(networks := Add(t.networks, 1))
    case _ => t
  }

  function CountedDown(t: Tally, kind: Kind): Tally {
    match kind
    case Volume => t.(volumes := Monus(t.volumes, 1))
    case Container => t.(containers := Monus(t.containers, 1))
    case Zdb => t.(zdbs := Monus(t.zdbs, 1))
    case Kubernetes => t.(k8s := Monus(t.k8s, 1))
    case VirtualMachine => t.(vms := Monus(t.vms, 1))
    case Network => t.(networks := Monus(t.networks, 1))
    case NetworkResource => t.(networks := Monus(t.networks, 1))
    case _ => t
  }

  function Reserved(t: Tally, u: Units): Tally {
    t.(cru := Add(t.cru, u.cru), mru := Add(t.mru, u.mru),
       sru := Add(t.sru, u.sru), hru := Add(t.hru, u.hru))
  }

  function Released(t: Tally, u: Units): Tally {
    t.(cru := Monus(t.cru, u.cru), mru := Monus(t.mru, u.mru),
       sru := Monus(t.sru, u.sru), hru := Monus(t.hru, u.hru))
  }

  /** Every counter goes up by exactly what the reservation contributes to it. */
  lemma IncreasedAt(t: Tally, r: Reservation, m: Meter)
    ensures Increased(t, r).At(m) == Add(t.At(m), Contribution(m, r))
  {
  }

  /** Every counter goes down by exactly what the reservation contributes to it. */
  lemma DecreasedAt(t: Tally, r: Reservation, m: Meter)
    ensures Decreased(t, r).At(m) == Monus(t.At(m), Contribution(m, r))
  {
  }

  class Counters {
    var containers: u64
    var volumes: u64
    var networks: u64
    var zdbs: u64
    var k8s: u64
    var vms: u64
    var sru: u64
    var hru: u64
    var mru: u64
    var cru: u64

    constructor ()
      ensures Reading() == ZERO
    {
      containers, volumes, networks, zdbs, k8s, vms := 0, 0, 0, 0, 0, 0;
      sru, hru, mru, cru := 0, 0, 0, 0;
    }

    function Reading(): Tally
      reads this
    {
      Tally(containers, volumes, networks, zdbs, k8s, vms, sru, hru, mru, cru)
    }

    method Reserve(u: Units)
      modifies this`cru, this`mru, this`sru, this`hru
      ensures Reading() == Reserved(old(Reading()), u)
    {
      cru := Add(cru, u.cru);
      mru := Add(mru, u.mru);
      sru := Add(sru, u.sru);
      hru := Add(hru, u.hru);
    }

    method Release(u: Units)
      modifies this`cru, this`mru, this`sru, this`hru
      ensures Reading() == Released(old(Reading()), u)
    {
      cru := Monus(cru, u.cru);
      mru := Monus(mru, u.mru);
      sru := Monus(sru, u.sru);
      hru := Monus(hru, u.hru);
    }

    method CountUp(kind: Kind)
      modifies this`containers, this`volumes, this`networks, this`zdbs, this`k8s, this`vms
      ensures Reading() == CountedUp(old(Reading()), kind)
    {
      match kind {
      case Volume => volumes := Add(volumes, 1);
      case Container => containers := Add(containers, 1);
      case Zdb => zdbs := Add(zdbs, 1);
      case Kubernetes => k8s := Add(k8s, 1);
      case VirtualMachine => vms := Add(vms, 1);
      case Network => networks := Add(networks, 1);
      case NetworkResource => networks := Add(networks, 1);
      case _ =>
      }
    }

    method Increment(r: Reservation) returns (ok: bool)
      modifies this
      ensures Reading() == Increased(old(Reading()), r)
      ensures ok <==> UnitsOf(r).Good?
    {
      CountUp(r.kind);
      ok := UnitsOf(r).Good?;
      if ok { Reserve(UnitsOf(r).value); }
    }

    method CountDown(kind: Kind)
      modifies this`containers, this`volumes, this`networks, this`zdbs, this`k8s, this`vms
      ensures Reading() == CountedDown(old(Reading()), kind)
    {
      match kind {
      case Volume => volumes := Monus(volumes, 1);
      case Container => containers := Monus(containers, 1);
      case Zdb => zdbs := Monus(zdbs, 1);
      case Kubernetes => k8s := Monus(k8s, 1);
      case VirtualMachine => vms := Monus(vms, 1);
      case Network => networks := Monus(networks, 1);
      case NetworkResource => networks := Monus(networks, 1);
      case _ =>
      }
    }

    method Decrement(r: Reservation) returns (ok: bool)
      modifies this
      ensures Reading() == Decreased(old(Reading()), r)
      ensures ok <==> UnitsOf(r).Good?
    {
      CountDown(r.kind);
      ok := UnitsOf(r).Good?;
      if ok { Release(UnitsOf(r).value); }
    }

    /** The memory a reservation asks for has to fit the memory that is still usable. */
    method CheckMemoryRequirements(r: Reservation, usable: u64) returns (ok: bool)
      ensures ok <==> MemoryFits(r, usable)
    {
      var requested := NO_UNITS;
      if r.kind in {Container, Kubernetes, VirtualMachine} {
        var u := UnitsOf(r);
        if u.Bad? { return false; }
        requested := u.value;
      }
      if requested.mru != 0 {
        if requested.mru > usable { return false; }
      }
      return true;
    }
  }

  /** Memory workloads must decode, and what a reservation adds to the memory counter must be usable. */
  predicate MemoryFits(r: Reservation, usable: u64) {
    && (r.kind in {Container, Kubernetes, VirtualMachine} ==> UnitsOf(r).Good?)
    && Contribution(Mru, r) <= usable
  }
}
