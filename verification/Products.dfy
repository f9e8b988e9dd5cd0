/** Multiplication and division by a variable, in steps small enough to follow. */
module Products {

  function Times(a: int, c: int): int {
    a * c
  }

  lemma Distribute(a: int, b: int, c: int)
    ensures Times(a + b, c) == Times(a, c) + Times(b, c)
  {
  }

  lemma Successor(a: int, c: int)
    ensures Times(a + 1, c) == Times(a, c) + c && Times(0, c) == 0
  {
  }

  lemma Monotone(a: int, b: int, c: int)
    requires a <= b && c >= 0
    ensures Times(a, c) <= Times(b, c)
  {
  }

  lemma Division(m: int, n: int)
    requires n > 0
    ensures m == Times(m / n, n) + m % n && 0 <= m % n < n
  {
  }

  /** Quotient and remainder are the only numbers that do this. */
  lemma QuotientIs(m: int, n: int, q: int, r: int)
    requires n > 0 && m == Times(q, n) + r && 0 <= r < n
    ensures m / n == q && m % n == r
  {
    hide Times;
    Division(m, n);
    var a := m / n;
    if a > q {
      Distribute(a - q, q, n);
      Monotone(1, a - q, n);
      Successor(0, n);
    } else if a < q {
      Distribute(q - a, a, n);
      Monotone(1, q - a, n);
      Successor(0, n);
    }
  }

  lemma NextRemainder(m: nat, n: nat)
    requires n > 0
    ensures m % n + 1 < n ==> (m + 1) % n == m % n + 1 && (m + 1) / n == m / n
    ensures m % n + 1 == n ==> (m + 1) % n == 0 && (m + 1) / n == m / n + 1
  {
    hide Times;
    Division(m, n);
    Successor(m / n, n);
    if m % n + 1 == n {
      QuotientIs(m + 1, n, m / n + 1, 0);
    } else {
      QuotientIs(m + 1, n, m / n, m % n + 1);
    }
  }

  lemma RemainderOfSum(a: int, b: int, n: int)
    requires n > 0
    ensures (a % n + b) % n == (a + b) % n
  {
    hide Times;
    Division(a, n);
    Division(a % n + b, n);
    Distribute(a / n, (a % n + b) / n, n);
    QuotientIs(a + b, n, a / n + (a % n + b) / n, (a % n + b) % n);
  }
}
