/**
 * Java integer arithmetic that differs from Dafny's: `/` truncates toward
 * zero, and a cast `(int)` of a double drops the fraction the same way.
 */
module JavaMath {
  function Abs(x: int): nat
  {
    if x < 0 then -x else x
  }

  /** Java's `a / b` for a positive divisor: the quotient truncated toward zero. */
  function Quot(a: int, b: int): (q: int)
    requires b > 0
    ensures Abs(q) == Abs(a) / b
    ensures q == 0 || (q < 0 <==> a < 0)
  {
    if a >= 0 then a / b else -((-a) / b)
  }

  /** `(int)(x * (num / den))` for a factor whose double product rounds to the exact quotient. */
  function Scaled(x: int, num: nat, den: int): (y: int)
    requires den > 0
    ensures num <= den ==> Abs(y) <= Abs(x)
    ensures y == 0 || (y < 0 <==> x < 0)
  {
    var y := Quot(x * num, den);
    if num <= den then
      ProductBelow(x, num, den);
      DivMonotone(Abs(x * num), Abs(x) * den, den);
      assert Abs(x) * den / den == Abs(x);
      y
    else y
  }

  lemma ProductBelow(x: int, num: nat, den: int)
    requires 0 <= num <= den
    ensures Abs(x * num) <= Abs(x) * den
  {
    if x >= 0 {
      assert x * num <= x * den;
    } else {
      assert (-x) * num <= (-x) * den;
      assert Abs(x * num) == (-x) * num;
    }
  }

  lemma DivMonotone(a: nat, b: nat, d: int)
    requires d > 0 && a <= b
    ensures a / d <= b / d
  {
    var qa, qb := a / d, b / d;
    assert a == qa * d + a % d && b == qb * d + b % d;
    if qa > qb {
      MulMonotone(qb + 1, qa, d);
      assert false;
    }
  }

  lemma {:induction false} MulMonotone(x: int, y: int, d: nat)
    requires x <= y
    ensures x * d <= y * d
  {
    if d > 0 {
      MulMonotone(x, y, d - 1);
      assert x * d == x * (d - 1) + x && y * d == y * (d - 1) + y;
    }
  }

  /** A sum of n values each in lo..hi (lo >= 0) has its truncated mean in lo..hi. */
  lemma QuotBetween(t: int, n: int, lo: nat, hi: int)
    requires n > 0 && n * lo <= t <= n * hi
    ensures lo <= Quot(t, n) <= hi
  {
    assert t >= 0 && hi >= lo;
    DivMonotone(n * lo, t, n);
    DivMonotone(t, n * hi, n);
    assert n * lo / n == lo && n * hi / n == hi;
  }
}
