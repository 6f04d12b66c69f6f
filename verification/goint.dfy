/**
 Go's fixed-width integer behaviour, written out over unbounded `int`:
 the two's-complement conversions `int16(x)`, `int32(x)`, the 64-bit
 wrap-around of `int` addition, and `/`, which truncates toward zero
 (Dafny's own `/` is Euclidean).
 */
module GoInt {

  const Half16: int := 0x8000
  const Half32: int := 0x8000_0000
  const Half64: int := 0x8000_0000_0000_0000

  /** The signed value of the low bits of `x`, for a width whose range is [-half, half). */
  function ToSigned(x: int, half: int): (r: int)
    requires half > 0
    ensures -half <= r < half
  {
    var u := x % (2 * half);
    if u >= half then u - 2 * half else u
  }

  /** Go's `int16(x)`: keeps the low 16 bits, read as two's complement. */
  function Int16(x: int): (r: int)
    ensures -Half16 <= r < Half16
    ensures -Half16 <= x < Half16 ==> r == x
  {
    ToSigned(x, Half16)
  }

  /** Go's `int32(x)`: keeps the low 32 bits, read as two's complement. */
  function Int32(x: int): (r: int)
    ensures -Half32 <= r < Half32
    ensures -Half32 <= x < Half32 ==> r == x
  {
    ToSigned(x, Half32)
  }

  /** Go's 64-bit `int`, the result of `+` on two `int` samples. */
  function Int64(x: int): (r: int)
    ensures -Half64 <= r < Half64
    ensures -Half64 <= x < Half64 ==> r == x
  {
    ToSigned(x, Half64)
  }

  /** `int16(x)` keeps the low 16 bits: the difference is a multiple of 2^16. */
  lemma KeepsLow16(x: int)
    ensures (x - Int16(x)) % 0x1_0000 == 0
  {
    assert x == (x / 0x1_0000) * 0x1_0000 + x % 0x1_0000;
  }

  /** `int32(x)` keeps the low 32 bits: the difference is a multiple of 2^32. */
  lemma KeepsLow32(x: int)
    ensures (x - Int32(x)) % 0x1_0000_0000 == 0
  {
    assert x == (x / 0x1_0000_0000) * 0x1_0000_0000 + x % 0x1_0000_0000;
  }

  /** The 64-bit wrap keeps the low 64 bits: the difference is a multiple of 2^64. */
  lemma KeepsLow64(x: int)
    ensures (x - Int64(x)) % 0x1_0000_0000_0000_0000 == 0
  {
    assert x == (x / 0x1_0000_0000_0000_0000) * 0x1_0000_0000_0000_0000 + x % 0x1_0000_0000_0000_0000;
  }

  /** Adding a whole 16-bit period does not change `int16(x)`. */
  lemma Int16Periodic(x: int, k: int)
    ensures Int16(x + k * 0x1_0000) == Int16(x)
  {
    assert (x + k * 0x1_0000) % 0x1_0000 == x % 0x1_0000;
  }

  /** Go's `a / b` for a positive divisor: the quotient truncated toward zero. */
  function Quot(a: int, b: int): (q: int)
    requires b > 0
    ensures a >= 0 ==> 0 <= a - q * b < b
    ensures a < 0 ==> -b < a - q * b <= 0
  {
    if a >= 0 then a / b else -((-a) / b)
  }

  /** `time.Duration.Milliseconds`: nanoseconds divided by 1e6, truncated toward zero. */
  function Milliseconds(ns: int): (ms: int)
    ensures ns >= 0 ==> ms * 1_000_000 <= ns < ms * 1_000_000 + 1_000_000
    ensures ns < 0 ==> ms * 1_000_000 - 1_000_000 < ns <= ms * 1_000_000
  {
    Quot(ns, 1_000_000)
  }

  /** Truncation differs from Dafny's Euclidean division on negative operands. */
  lemma QuotTruncatesTowardZero()
    ensures Quot(-3, 2) == -1 && -3 / 2 == -2
    ensures Quot(-1, 2) == 0 && Quot(7, 2) == 3
  {
  }
}
