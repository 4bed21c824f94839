/**
 * Go `time.Duration` values: signed 64-bit nanosecond counts whose
 * multiplication wraps around.
 */
module Durations {
  const Second: int := 1_000_000_000
  const Minute: int := 60 * Second
  const Hour: int := 60 * Minute
  const Day: int := 24 * Hour

  const Two63: int := 0x8000_0000_0000_0000
  const Two64: int := 0x1_0000_0000_0000_0000

  predicate InInt64(x: int) {
    -Two63 <= x < Two63
  }

  /** Two's-complement wrap-around to int64. */
  function Wrap64(x: int): (r: int)
    ensures InInt64(r)
    ensures (r - x) % Two64 == 0
    ensures InInt64(x) ==> r == x
  {
    (x + Two63) % Two64 - Two63
  }

  /** Wrapping ignores whole multiples of 2^64. */
  lemma {:induction false} WrapShift(x: int, k: int)
    ensures Wrap64(x + k * Two64) == Wrap64(x)
  {
    var y := x + Two63;
    var q, r := y / Two64, y % Two64;
    assert y + k * Two64 == (q + k) * Two64 + r;
    ModOfMultiple(q + k, r);
  }

  /** The remainder of q·2^64 + r, for r in range, is r. */
  lemma ModOfMultiple(q: int, r: int)
    requires 0 <= r < Two64
    ensures (q * Two64 + r) % Two64 == r
  {
  }

  /** Wrapping an intermediate product does not change the wrapped result. */
  lemma {:induction false} WrapMul(a: int, b: int)
    ensures Wrap64(Wrap64(a) * b) == Wrap64(a * b)
  {
    var k := (a + Two63) / Two64;
    assert Wrap64(a) == a - k * Two64;
    assert Wrap64(a) * b == a * b + (-k * b) * Two64;
    WrapShift(a * b, -k * b);
  }
}
