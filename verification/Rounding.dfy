/** Decimal.quantize with ROUND_HALF_UP on exact fractions: nearest integer, ties away from zero. */
module Rounding {
  function Abs(n: int): nat {
    if n < 0 then -n else n
  }

  function HalfUpPos(n: int, d: int): int
    requires d > 0
  {
    if n >= 0 then (2 * n + d) / (2 * d) else -((-2 * n + d) / (2 * d))
  }

  function HalfUp(n: int, d: int): int
    requires d != 0
  {
    if d < 0 then HalfUpPos(-n, -d) else HalfUpPos(n, d)
  }

  // p, a multiple of d, is as near to n as any; halfway, it is the one further from zero.
  predicate Nearest(n: int, d: int, p: int) {
    2 * Abs(n - p) <= d && (2 * Abs(n - p) == d ==> Abs(p) > Abs(n))
  }

  // r is the integer nearest to n/d; halfway, it is the one further from zero.
  predicate RoundsTo(n: int, d: int, r: int) {
    Nearest(n, Abs(d), r * d)
  }

  lemma DivBounds(a: nat, b: int)
    requires b > 0
    ensures a / b * b <= a < a / b * b + b
  {
  }

  lemma HalfUpPosRounds(n: int, d: int)
    requires d > 0
    ensures RoundsTo(n, d, HalfUpPos(n, d))
  {
    var q := (2 * Abs(n) + d) / (2 * d);
    DivBounds(2 * Abs(n) + d, 2 * d);
    assert q * (2 * d) == 2 * (q * d);
    assert (-q) * d == -(q * d);
  }

  lemma MulAtLeast(k: int, c: int, d: int)
    requires k >= c && d > 0
    ensures k * d >= c * d
  {
  }

  lemma NearestOrder(n: int, m: int, d: int, p: int, q: int)
    requires d > 0 && n <= m && Nearest(n, d, p) && Nearest(m, d, q)
    ensures p <= q + d
    ensures p == q + d ==> -d < q < 0
  {
  }

  // Two multiples of d, the first at most one step above the second and then straddling zero, are in order.
  lemma MultiplesInOrder(d: int, r: int, s: int)
    requires d > 0 && r * d <= s * d + d
    requires r * d == s * d + d ==> -d < s * d < 0
    ensures r <= s
  {
    if r > s {
      MulAtLeast(r, s + 1, d);
      assert (s + 1) * d == s * d + d;
      if s >= 0 {
        MulAtLeast(s, 0, d);
      } else {
        MulAtLeast(-1, s, d);
      }
    }
  }

  lemma RoundsToNegated(n: int, d: int, r: int)
    requires RoundsTo(n, d, r)
    ensures RoundsTo(-n, -d, r)
  {
    assert r * (-d) == -(r * d);
  }

  lemma RoundsToUnique(n: int, d: int, r: int, s: int)
    requires d > 0 && RoundsTo(n, d, r) && RoundsTo(n, d, s)
    ensures r == s
  {
    NearestOrder(n, n, d, r * d, s * d);
    NearestOrder(n, n, d, s * d, r * d);
    MultiplesInOrder(d, r, s);
    MultiplesInOrder(d, s, r);
  }

  // HalfUp is the one integer that rounds n/d.
  lemma HalfUpSpec(n: int, d: int, r: int)
    requires d != 0
    ensures r == HalfUp(n, d) <==> RoundsTo(n, d, r)
  {
    var (m, e) := if d > 0 then (n, d) else (-n, -d);
    HalfUpPosRounds(m, e);
    if d < 0 {
      RoundsToNegated(m, e, HalfUpPos(m, e));
    }
    if RoundsTo(n, d, r) {
      if d < 0 {
        RoundsToNegated(n, d, r);
      }
      RoundsToUnique(m, e, r, HalfUpPos(m, e));
    }
  }

  lemma HalfUpMonotone(n: int, m: int, d: int)
    requires d > 0 && n <= m
    ensures HalfUp(n, d) <= HalfUp(m, d)
  {
    var r, s := HalfUp(n, d), HalfUp(m, d);
    HalfUpSpec(n, d, r);
    HalfUpSpec(m, d, s);
    NearestOrder(n, m, d, r * d, s * d);
    MultiplesInOrder(d, r, s);
  }

  lemma HalfUpOfMultiple(n: int, d: int)
    requires d > 0
    ensures HalfUp(n * d, d) == n
  {
    HalfUpSpec(n * d, d, n);
  }
}
