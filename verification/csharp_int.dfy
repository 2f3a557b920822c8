/** The parts of C#'s integer semantics the widget relies on: `Math.Abs`, the
    truncating remainder operator `%`, and 32-bit two's-complement wrap-around
    of unchecked `int` arithmetic. Dafny's own `%` is Euclidean, so the C#
    operator is written out here. */
module CSharpInt {

  const Int32Min: int := -0x8000_0000
  const Int32Max: int := 0x7fff_ffff

  predicate IsInt32(x: int) {
    Int32Min <= x <= Int32Max
  }

  /** `Math.Abs` on mathematical integers. */
  function Abs(x: int): (r: int)
    ensures 0 <= r
    ensures r == x || r == -x
  {
    if x < 0 then -x else x
  }

  /** C#'s `x % y`: the remainder of division truncated toward zero, so it
      takes the sign of the dividend, is smaller than the divisor in size,
      and differs from `x` by a multiple of `y`. */
  function Remainder(x: int, y: int): (r: int)
    requires y != 0
    ensures 0 <= x ==> 0 <= r < Abs(y)
    ensures x < 0 ==> -Abs(y) < r <= 0
    ensures (x - r) % Abs(y) == 0
  {
    var m := Abs(y);
    if 0 <= x then
      assert (x - x % m) % m == 0 by {
        DivModUnique(x - x % m, m, x / m, 0);
      }
      x % m
    else
      assert (x + (-x) % m) % m == 0 by {
        DivModUnique(x + (-x) % m, m, -((-x) / m), 0);
      }
      -((-x) % m)
  }

  /** Unchecked 32-bit `int` arithmetic: the value congruent to `x` modulo
      2^32 that lies in the `int` range. */
  function Wrap32(x: int): (r: int)
    ensures IsInt32(r)
    ensures IsInt32(x) ==> r == x
    ensures (x - r) % 0x1_0000_0000 == 0
  {
    (x - Int32Min) % 0x1_0000_0000 + Int32Min
  }

  lemma MulAtLeastDivisor(d: int, n: int)
    requires 1 <= d && 0 < n
    ensures n <= d * n
  {
  }

  /** Euclidean division is unique: any quotient and in-range remainder that
      rebuild `x` are the ones Dafny's `/` and `%` give. */
  lemma DivModUnique(x: int, n: int, q: int, r: int)
    requires 0 < n && 0 <= r < n && x == q * n + r
    ensures x % n == r && x / n == q
  {
    var q', r' := x / n, x % n;
    assert (q - q') * n == r' - r;
    if q - q' >= 1 {
      MulAtLeastDivisor(q - q', n);
    } else if q' - q >= 1 {
      MulAtLeastDivisor(q' - q, n);
    }
  }

  /** Adding a multiple of the modulus does not change a Euclidean remainder. */
  lemma ModAddMultiple(x: int, k: int, n: int)
    requires 0 < n
    ensures (x + k * n) % n == x % n
  {
    assert x + k * n == (x / n + k) * n + x % n;
    DivModUnique(x + k * n, n, x / n + k, x % n);
  }

  /** Shifting a remainder and reducing again is reducing the shifted value. */
  lemma ModOfShiftedRemainder(x: int, d: int, n: int)
    requires 0 < n
    ensures (x % n + d) % n == (x + d) % n
  {
    assert x + d == (x % n + d) + (x / n) * n;
    ModAddMultiple(x % n + d, x / n, n);
  }
}
