/** Machine-level value types shared by the loader and the emulator: Go's
    `byte`, Go's `int16` with its two's-complement wrap-around, and the
    optional and failure-carrying results that stand for Go's `(T, error)`
    pairs. */
module Base {

  /** Go's `byte`: an unsigned eight-bit value.  Go's byte arithmetic wraps
      modulo 256; here every such wrap is written out with `% 0x100`. */
  type Byte = x: int | 0 <= x < 0x100

  /** Go's `int16`. */
  newtype Int16 = x: int | -0x8000 <= x < 0x8000

  /** The int16 that Go's arithmetic yields for the mathematical value `x`:
      the unique value in [-32768, 32767] congruent to `x` modulo 2^16. */
  function Wrap16(x: int): (r: Int16)
    ensures r as int % 0x1_0000 == x % 0x1_0000
    ensures -0x8000 <= x < 0x8000 ==> r as int == x
    ensures x % 0x1_0000 < 0x8000 ==> r as int == x % 0x1_0000
    ensures x % 0x1_0000 >= 0x8000 ==> r as int == x % 0x1_0000 - 0x1_0000
  {
    var m := x % 0x1_0000;
    if m < 0x8000 then m as Int16 else (m - 0x1_0000) as Int16
  }

  /** `p + 1` on a Go int16: the largest value steps to the smallest. */
  function Inc16(p: Int16): Int16 {
    if p == 0x7FFF then -0x8000 else p + 1
  }

  /** Stepping an int16 by one is Go's wrapping addition of one. */
  lemma Inc16Wraps(p: Int16)
    ensures Inc16(p) == Wrap16(p as int + 1)
  {
  }

  datatype Option<+T> = None | Some(value: T)

  datatype Result<+T, +E> = Ok(value: T) | Err(error: E)
}
