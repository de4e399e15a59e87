/** Quotients and remainders named, so that proofs about them stay linear. */
module Division {

  lemma DivisionOf(a: nat, n: nat) returns (q: nat, r: nat)
    requires 1 <= n
    ensures r < n && a == q * n + r && q == a / n && r == a % n
  {
    q, r := a / n, a % n;
  }

  lemma TimesMonotone(a: nat, b: nat, n: nat)
    requires a <= b
    ensures a * n <= b * n
  {
  }

  lemma QuotientsOrdered(n: nat, q: nat, r: nat, p: nat, t: nat)
    requires r < n && t < n && q * n + r <= p * n + t
    ensures q <= p
  {
    assert (p + 1) * n == p * n + n;
    if p + 1 <= q {
      TimesMonotone(p + 1, q, n);
    }
  }

  lemma DivisionIs(a: nat, n: nat, q: nat, r: nat)
    requires r < n && a == q * n + r
    ensures a / n == q && a % n == r
  {
    var p, t := DivisionOf(a, n);
    QuotientsOrdered(n, q, r, p, t);
    QuotientsOrdered(n, p, t, q, r);
  }

  lemma QuotientsNearby(a: nat, b: nat, n: nat)
    requires 1 <= n && a < b + n
    ensures a / n <= b / n + 1
  {
    var q, r := DivisionOf(a, n);
    var p, t := DivisionOf(b, n);
    assert (p + 1) * n + t == b + n;
    QuotientsOrdered(n, q, r, p + 1, t);
  }

  lemma QuotientShift(a: nat, n: nat)
    requires 1 <= n
    ensures (a + n) / n == a / n + 1
  {
    var q, r := DivisionOf(a, n);
    assert (q + 1) * n == q * n + n;
    DivisionIs(a + n, n, q + 1, r);
  }

  lemma ModOfMod(k: nat, n: nat, limit: nat)
    requires 1 <= n && 1 <= limit && limit % n == 0
    ensures k % limit % n == k % n
  {
    var a, b := DivisionOf(k, limit);
    var c, z := DivisionOf(limit, n);
    var d, r := DivisionOf(b, n);
    Combine(a, c, d, n, r, k, limit, b);
    DivisionIs(k, n, a * c + d, r);
  }

  lemma Combine(a: nat, c: nat, d: nat, n: nat, r: nat, k: nat, limit: nat, b: nat)
    requires limit == c * n && b == d * n + r && k == a * limit + b
    ensures k == (a * c + d) * n + r
  {
    assert a * limit == a * c * n;
    assert (a * c + d) * n == a * c * n + d * n;
  }

  lemma QuotientOfQuotient(a: nat, m: nat, n: nat)
    requires 1 <= m && 1 <= n && 1 <= m * n
    ensures a / m / n == a / (m * n)
  {
    var q, r := DivisionOf(a, m);
    var p, t := DivisionOf(q, n);
    Nested(a, m, n, q, r, p, t);
    DivisionIs(a, m * n, p, t * m + r);
  }

  lemma Nested(a: nat, m: nat, n: nat, q: nat, r: nat, p: nat, t: nat)
    requires a == q * m + r && q == p * n + t && r < m && t < n
    ensures a == p * (m * n) + (t * m + r) && t * m + r < m * n
  {
    assert q * m == p * n * m + t * m;
    assert p * n * m == p * (m * n);
    TimesMonotone(t + 1, n, m);
    assert (t + 1) * m == t * m + m;
  }
}
