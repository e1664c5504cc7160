/** Result and option types shared by the whole model. */
module Wrappers {

  datatype Option<+T> = None | Some(value: T)

  datatype Result<+T, +E> = Ok(value: T) | Err(error: E)
}

/** Go's 64-bit and 32-bit signed integers inside Dafny's unbounded `int`. */
module Words {

  const MIN_INT64: int := -0x8000_0000_0000_0000
  const MAX_INT64: int := 0x7FFF_FFFF_FFFF_FFFF
  const MAX_INT32: int := 0x7FFF_FFFF
  const TWO_64: int := 0x1_0000_0000_0000_0000

  type Byte = n: nat | n < 256

  predicate IsInt64(n: int) {
    MIN_INT64 <= n <= MAX_INT64
  }

  /** Two's-complement wrap-around of 64-bit addition and subtraction. */
  function Wrap64(n: int): (r: int)
    ensures IsInt64(r)
    ensures IsInt64(n) ==> r == n
  {
    (n - MIN_INT64) % TWO_64 + MIN_INT64
  }

  /** Wrapping loses nothing within one full cycle of the counter. */
  lemma Wrap64Injective(m: int, n: int)
    requires 0 <= n - m < TWO_64
    requires Wrap64(m) == Wrap64(n)
    ensures m == n
  {
  }
}
