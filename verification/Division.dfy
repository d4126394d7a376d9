/** Quotients and remainders. */
module Division {

  lemma {:induction false} MoreTimes(a: nat, b: nat, n: nat)
    requires a < b
    ensures a * n + n <= b * n
    decreases b - a
  {
    if a + 1 < b {
      MoreTimes(a + 1, b, n);
      assert (a + 1) * n == a * n + n;
    }
  }

  /** Quotient and remainder are determined by their sum. */
  lemma QuotientAndRemainder(m: nat, n: nat, q: nat, r: nat)
    requires m == q * n + r && r < n
    ensures m / n == q && m % n == r
  {
    var q', r' := m / n, m % n;
    assert m == q' * n + r';
    if q' < q {
      MoreTimes(q', q, n);
    }
    if q < q' {
      MoreTimes(q, q', n);
    }
  }

  /** What is added to a multiple of m, up to m, is the remainder. */
  lemma RemainderOfSum(multiple: nat, rest: nat, m: nat)
    requires 0 < m && multiple % m == 0 && rest < m
    ensures (multiple + rest) % m == rest && (multiple + m) % m == 0
  {
    var q := multiple / m;
    assert multiple == q * m;
    QuotientAndRemainder(multiple + rest, m, q, rest);
    assert multiple + m == (q + 1) * m;
    QuotientAndRemainder(multiple + m, m, q + 1, 0);
  }
}
