/**
Unsigned 64-bit arithmetic as the daemons use it: addition and multiplication
wrap around, and counters subtract with a floor at zero.
*/
module U64 {

  const LIMIT: nat := 0x1_0000_0000_0000_0000

  type u64 = n: nat | n < LIMIT

  const GIB: u64 := 0x4000_0000

  function Wrap(n: nat): u64 {
    n % LIMIT
  }

  function Add(a: u64, b: u64): u64 {
    if a + b < LIMIT then a + b else a + b - LIMIT
  }

  /** The product of a uint64 and 1024 * 1024. */
  function Mebi(n: u64): u64 {
    Wrap(n * 0x10_0000)
  }

  /** The product of a uint64 and 1024 * 1024 * 1024. */
  function Gibi(n: u64): u64 {
    Wrap(n * 0x4000_0000)
  }

  /** The subtraction of two uint64 values: it wraps when the result would be negative. */
  function Sub(a: u64, b: u64): u64 {
    if b <= a then a - b else LIMIT + a - b
  }

  /** Subtraction that stops at zero. */
  function Monus(a: u64, b: u64): u64 {
    if b <= a then a - b else 0
  }

  function Min(a: nat, b: nat): nat {
    if a <= b then a else b
  }

  function Max(a: nat, b: nat): nat {
    if a <= b then b else a
  }

  lemma AddWrap(a: nat, b: u64)
    ensures Add(Wrap(a), b) == Wrap(a + b)
  {
  }

  lemma AddWrapBoth(a: nat, b: nat)
    ensures Add(Wrap(a), Wrap(b)) == Wrap(a + b)
  {
  }
}
