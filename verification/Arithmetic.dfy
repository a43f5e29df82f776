/** Sums, and quotients of integers rounded down or up. */
module Arithmetic {

  predicate AllPositive(values: seq<int>) {
    forall i | 0 <= i < |values| :: values[i] > 0
  }

  function Sum(values: seq<int>): int {
    if values == [] then 0 else Sum(values[..|values| - 1]) + values[|values| - 1]
  }

  /** `q` is n / d rounded down. */
  predicate IsFloor(q: int, n: int, d: int) {
    q * d <= n < q * d + d
  }

  /** `q` is n / d rounded up. */
  predicate IsCeiling(q: int, n: int, d: int) {
    n <= q * d < n + d
  }

  lemma FactorKeepsOrder(a: int, b: int, d: int)
    requires d >= 0
    ensures a <= b ==> a * d <= b * d
  {
    if a <= b {
      assert b * d == a * d + (b - a) * d;
    }
  }

  lemma QuotientIsFloor(n: int, d: int)
    requires d > 0
    ensures IsFloor(n / d, n, d)
  {
    assert n == n / d * d + n % d;
  }

  lemma FloorIsUnique(p: int, q: int, n: int, d: int)
    requires d > 0 && IsFloor(p, n, d) && IsFloor(q, n, d)
    ensures p == q
  {
    FactorKeepsOrder(p + 1, q, d);
    FactorKeepsOrder(q + 1, p, d);
    assert (p + 1) * d == p * d + d && (q + 1) * d == q * d + d;
  }

  lemma RemainderIs(n: int, q: int, d: int, r: int)
    requires 0 <= r < d && n == q * d + r
    ensures n / d == q && n % d == r
  {
    QuotientIsFloor(n, d);
    FloorIsUnique(n / d, q, n, d);
    assert n == n / d * d + n % d;
  }

  lemma QuotientMonotone(n: int, m: int, d: int)
    requires d > 0 && n <= m
    ensures n / d <= m / d
  {
    QuotientIsFloor(n, d);
    QuotientIsFloor(m, d);
    FactorKeepsOrder(m / d + 1, n / d, d);
    assert (m / d + 1) * d == m / d * d + d;
  }
}
