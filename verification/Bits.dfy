/** Shifts, OR and AND on integers of unbounded width in two's complement, as BigInt has them. */
module Bits {

  function Pow2(k: nat): (p: nat)
    ensures p > 0
  {
    if k == 0 then 1 else 2 * Pow2(k - 1)
  }

  function Abs(x: int): nat {
    if x < 0 then -x else x
  }

  function ShiftLeft(x: int, k: nat): int {
    x * Pow2(k)
  }

  function Or(x: int, y: int): int
    decreases Abs(x) + Abs(y)
  {
    if x == 0 then y
    else if y == 0 then x
    else if x == -1 || y == -1 then -1
    else 2 * Or(x / 2, y / 2) + if x % 2 == 1 || y % 2 == 1 then 1 else 0
  }

  function And(x: int, y: int): int
    decreases Abs(x) + Abs(y)
  {
    if x == 0 || y == 0 then 0
    else if x == -1 then y
    else if y == -1 then x
    else 2 * And(x / 2, y / 2) + if x % 2 == 1 && y % 2 == 1 then 1 else 0
  }

  lemma HalfShift(high: int, k: nat)
    requires k > 0
    ensures ShiftLeft(high, k) == 2 * ShiftLeft(high, k - 1)
  {
  }

  /** Bits placed above `k` do not meet bits below it: OR is addition. */
  lemma {:induction false} OrShifted(high: int, low: nat, k: nat)
    requires low < Pow2(k)
    ensures Or(ShiftLeft(high, k), low) == ShiftLeft(high, k) + low
  {
    if k > 0 {
      HalfShift(high, k);
      OrShifted(high, low / 2, k - 1);
    }
  }

  lemma HalvesOfRemainder(x: int, m: nat)
    requires m > 0
    ensures x % (2 * m) == 2 * (x / 2 % m) + x % 2
  {
    var q, r := x / 2 / m, x / 2 % m;
    assert x == (2 * m) * q + (2 * r + x % 2);
    DivModUnique(x, 2 * m, q, 2 * r + x % 2);
  }

  lemma DivModUnique(x: int, m: nat, q: int, r: int)
    requires m > 0 && x == m * q + r && 0 <= r < m
    ensures x / m == q && x % m == r
  {
    var q', r' := x / m, x % m;
    assert x == m * q' + r';
    assert m * (q - q') == r' - r;
    if q < q' {
      MulLe(m, q - q', -1);
    } else if q > q' {
      MulLe(m, 1, q - q');
    }
  }

  lemma MulLe(m: int, a: int, b: int)
    requires m >= 0 && a <= b
    ensures m * a <= m * b
  {
  }

  /** Masking with k ones keeps the remainder modulo 2^k. */
  lemma {:induction false} AndMask(x: int, k: nat)
    ensures And(x, Pow2(k) - 1) == x % Pow2(k)
    decreases k
  {
    var mask := Pow2(k) - 1;
    if k > 0 {
      var half := Pow2(k - 1);
      assert mask / 2 == half - 1 && mask % 2 == 1;
      AndMask(x / 2, k - 1);
      HalvesOfRemainder(x, half);
      if x == 0 {
        assert And(x, mask) == 0;
      } else if x == -1 {
        DivModUnique(-1, Pow2(k), -1, mask);
      } else {
        assert And(x, mask) == 2 * And(x / 2, mask / 2) + if x % 2 == 1 then 1 else 0;
      }
    }
  }
}
