/** Division and remainder by a positive number, rounding down. */
module Division {

  lemma Distribute(p: int, q: int, n: int)
    ensures (p - q) * n == p * n - q * n
    ensures (p + q) * n == p * n + q * n
  {
  }

  lemma AtLeastOne(x: int, n: int)
    requires x >= 1 && n >= 0
    ensures x * n >= n
  {
  }

  /** Quotient and remainder are unique. */
  lemma Unique(p: int, q: int, t: int, r: int, n: int)
    requires 0 <= t < n && 0 <= r < n && p * n + t == q * n + r
    ensures p == q && t == r
  {
    Distribute(p, q, n);
    Distribute(q, p, n);
    if p > q {
      AtLeastOne(p - q, n);
    } else if p < q {
      AtLeastOne(q - p, n);
    }
  }

  lemma QuotientIs(x: int, n: int, q: int, r: int)
    requires 0 <= r < n && x == q * n + r
    ensures x / n == q && x % n == r
  {
    assert x == x / n * n + x % n;
    Unique(x / n, q, x % n, r, n);
  }

  lemma FloorShift(x: int, k: int, n: int)
    requires n > 0
    ensures (x + k * n) / n == x / n + k
  {
    var q, r := x / n, x % n;
    assert x == q * n + r;
    Distribute(q, k, n);
    QuotientIs(x + k * n, n, q + k, r);
  }

  lemma FloorMonotone(x: int, y: int, n: int)
    requires n > 0 && x <= y
    ensures x / n <= y / n
  {
    var p, q := x / n, y / n;
    assert x == p * n + x % n && y == q * n + y % n;
    Distribute(p, q, n);
    if p > q { AtLeastOne(p - q, n); }
  }

  lemma DivModZero(n: int)
    requires n > 0
    ensures 0 / n == 0 && 0 % n == 0
  {
    QuotientIs(0, n, 0, 0);
  }

  /** Counting up by one. */
  lemma DivModNext(a: int, n: int)
    requires n > 0
    ensures if a % n + 1 < n then (a + 1) / n == a / n && (a + 1) % n == a % n + 1
            else (a + 1) / n == a / n + 1 && (a + 1) % n == 0
  {
    var q, r := a / n, a % n;
    assert a == q * n + r;
    if r + 1 < n {
      QuotientIs(a + 1, n, q, r + 1);
    } else {
      Distribute(q, 1, n);
      QuotientIs(a + 1, n, q + 1, 0);
    }
  }
}
