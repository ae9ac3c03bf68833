/**
How much memory a node keeps for itself and how much it may hand out
(pkg/provision/engine.go:26-30, 82-155).

The amounts are whole numbers here; ten percent rounded up to a GiB is a
division rounded up.
*/
module NodeMemory {
  import opened U64

  datatype MemStats = MemStats(total: u64, available: u64)

  /** The total rounded down to a whole GiB. */
  function Rounded(total: u64): u64 {
    total - total % GIB
  }

  /** Ten percent of the rounded total, at least 2 GiB, rounded up to a whole GiB. */
  function ReservedFor(total: u64): u64 {
    var tenfold := Max(Rounded(total), 20 * GIB);
    (tenfold + 10 * GIB - 1) / (10 * GIB) * GIB
  }

  /** What is left for workloads; nothing when the node is smaller than its own reserve. */
  function Budget(total: u64): u64 {
    Monus(Rounded(total), ReservedFor(total))
  }

  /** The usable memory: unsigned arithmetic on the rounded total, the reserve and the memory counter. */
  function Usable(m: MemStats, reserved: u64, mru: u64): u64 {
    var total := Sub(Rounded(m.total), reserved);
    var available := Monus(m.available, reserved);
    Min(Monus(total, mru), available)
  }

  lemma ReserveInGib(total: u64)
    ensures Rounded(total) == total / GIB * GIB
    ensures ReservedFor(total) == Max(2, (total / GIB + 9) / 10) * GIB
  {
    var k := total / GIB;
    assert Rounded(total) == k * GIB;
    if k >= 20 {
      assert (k * GIB + 10 * GIB - 1) / (10 * GIB) == (k + 9) / 10;
    }
  }

  /** The reserve fits the rounded total exactly on nodes of at least 2 GiB. */
  lemma ReserveFitsIffTwoGib(total: u64)
    ensures ReservedFor(total) <= Rounded(total) <==> total >= 2 * GIB
  {
    ReserveInGib(total);
  }

  /** Below 2 GiB the subtraction of the reserve wraps: the computed total is close to 2^64. */
  lemma TotalWrapsBelowTwoGib(total: u64)
    requires total < 2 * GIB
    ensures Sub(Rounded(total), ReservedFor(total)) >= LIMIT - 2 * GIB
  {
    ReserveInGib(total);
  }

  /**
   * Memory that passes the check keeps the counter within the budget: on any node of 2 GiB or more
   * whatever the kernel reports as available, and on a smaller node because available memory
   * never exceeds the total, so nothing is usable there.
   */
  lemma UsableStaysInBudget(m: MemStats, mru: u64, request: u64)
    requires mru <= Budget(m.total)
    requires m.available <= m.total
    requires request <= Usable(m, ReservedFor(m.total), mru)
    ensures mru + request <= Budget(m.total)
  {
    ReserveFitsIffTwoGib(m.total);
    ReserveInGib(m.total);
    if m.total < 2 * GIB {
      assert Monus(m.available, ReservedFor(m.total)) == 0;
    }
  }

  /**
   * What is usable, exactly: with a counter within the budget, a request passes if and only if it keeps the counter
   * there and, unless it is zero, the memory that is available exceeds the reserve by as much.
   */
  lemma UsableIff(m: MemStats, mru: u64, request: u64)
    requires m.total >= 2 * GIB && mru <= Budget(m.total)
    ensures request <= Usable(m, ReservedFor(m.total), mru) <==>
      && mru + request <= Budget(m.total)
      && (request == 0 || ReservedFor(m.total) + request <= m.available)
  {
    ReserveFitsIffTwoGib(m.total);
  }
}
