/**
 * Go's fixed-width integer arithmetic, written out over Dafny's unbounded `int`:
 * the `int64` range, two's-complement wrap-around of `+` and `*`, the
 * truncating `/` and `%` of Go (Dafny's own are Euclidean), and the
 * nanosecond units of Go's `time.Duration`.
 */
module GoInt {

  const MinInt64: int := -0x8000_0000_0000_0000
  const MaxInt64: int := 0x7FFF_FFFF_FFFF_FFFF
  const TwoTo64: int := 0x1_0000_0000_0000_0000

  type Int64 = x: int | -0x8000_0000_0000_0000 <= x <= 0x7FFF_FFFF_FFFF_FFFF

  /** `time.Second` and `time.Hour`: a Go `time.Duration` counts nanoseconds. */
  const NanosPerSecond: int := 1_000_000_000
  const NanosPerHour: int := 3_600_000_000_000

  predicate InInt64(x: int) {
    MinInt64 <= x <= MaxInt64
  }

  /** The int64 that a Go `+` or `*` yields for the mathematical value `x`. */
  function Wrap64(x: int): (r: Int64)
    ensures InInt64(x) ==> r == x
  {
    (x - MinInt64) % TwoTo64 + MinInt64
  }

  /** Go's integer division: truncates toward zero. */
  function Quo(a: int, b: int): (q: int)
    requires b > 0
    ensures a >= 0 ==> q == a / b
    ensures a <= 0 ==> q <= 0
  {
    if a >= 0 then a / b else -((-a) / b)
  }

  /** Go's remainder: has the sign of the dividend, and `a == Quo(a, b) * b + Rem(a, b)`. */
  function Rem(a: int, b: int): (r: int)
    requires b > 0
    ensures a == Quo(a, b) * b + r
    ensures a >= 0 ==> 0 <= r < b && r == a % b
    ensures a < 0 ==> -b < r <= 0
  {
    if a >= 0 then a % b else -((-a) % b)
  }
}
