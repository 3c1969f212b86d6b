/** Quotients and remainders. */
module Division {
  lemma Multiple(d: int, n: int)
    requires 0 <= n
    ensures 1 <= d ==> n <= d * n
    ensures d <= -1 ==> d * n <= 0 - n
  {
    if 1 <= d {
      assert 0 <= (d - 1) * n;
    } else if d <= -1 {
      assert 0 <= (-d - 1) * n;
    }
  }

  lemma Difference(a: int, b: int, n: int)
    ensures (a - b) * n == a * n - b * n
  {
  }

  lemma DivMod(a: int, n: int)
    requires 0 < n
    ensures a == (a / n) * n + a % n && 0 <= a % n < n
  {
  }

  /** Quotient and remainder are determined. */
  lemma Quotient(a: int, n: int, q: int, r: int)
    requires 0 <= r < n && a == q * n + r
    ensures a / n == q && a % n == r
  {
    DivMod(a, n);
    Difference(a / n, q, n);
    Multiple(a / n - q, n);
  }

  lemma NextRemainder(m: nat, n: nat)
    requires 0 < n
    ensures (m + 1) % n == if m % n + 1 < n then m % n + 1 else 0
  {
    var q, r := m / n, m % n;
    DivMod(m, n);
    Difference(q + 1, q, n);
    if r + 1 < n {
      Quotient(m + 1, n, q, r + 1);
    } else {
      Quotient(m + 1, n, q + 1, 0);
    }
  }
}
