/**
  Shared vocabulary of the model: an optional value, and the debugger's
  target address type CORE_ADDR (also used for ULONGEST values), a 64-bit
  unsigned integer whose arithmetic wraps modulo 2^64.
 */
module Common {

  datatype Option<+T> = None | Some(value: T)

  /** Number of distinct 64-bit addresses. */
  const ADDR_SPACE: int := 0x1_0000_0000_0000_0000

  /** CORE_ADDR: an unsigned 64-bit target address. */
  type CoreAddr = x: int | 0 <= x < ADDR_SPACE

  /** `~(CORE_ADDR) 0`, the largest address. */
  const MAX_ADDR: CoreAddr := ADDR_SPACE - 1

  /** Unsigned 64-bit `a + b`: exact unless it carries out, then reduced by 2^64. */
  function Add(a: CoreAddr, b: CoreAddr): (r: CoreAddr)
    ensures a + b < ADDR_SPACE ==> r == a + b
    ensures a + b >= ADDR_SPACE ==> r == a + b - ADDR_SPACE
  {
    (a + b) % ADDR_SPACE
  }

  /** Unsigned 64-bit `a - b`: exact unless it borrows, then raised by 2^64. */
  function Sub(a: CoreAddr, b: CoreAddr): (r: CoreAddr)
    ensures a >= b ==> r == a - b
    ensures a < b ==> r == a - b + ADDR_SPACE
  {
    (a - b) % ADDR_SPACE
  }

  /** Moving `b` by the wrapped difference `a - b` lands on `a`, whatever wrapped. */
  lemma AddSubInverse(a: CoreAddr, b: CoreAddr)
    ensures Add(b, Sub(a, b)) == a
  {
  }

  /** The wrapped difference recovers what was added, whatever wrapped. */
  lemma SubAddInverse(b: CoreAddr, d: CoreAddr)
    ensures Sub(Add(b, d), b) == d
  {
  }
}
