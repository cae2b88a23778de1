/** Products of two unknowns by repeated addition, kept away from the solver's arithmetic. */
module Products {
  /** a * n */
  function Times(a: nat, n: nat): nat {
    if a == 0 then 0 else Times(a - 1, n) + n
  }

  lemma {:induction false} TimesIs(a: nat, n: nat)
    ensures Times(a, n) == a * n
    decreases a
  {
    if a > 0 {
      TimesIs(a - 1, n);
      assert a * n == (a - 1) * n + n;
    }
  }

  lemma {:induction false} Monotone(a: nat, b: nat, n: nat)
    requires a <= b
    ensures Times(a, n) <= Times(b, n)
    decreases b
  {
    if a < b {
      Monotone(a, b - 1, n);
    }
  }

  lemma Distribute(a: nat, b: nat, d: nat)
    ensures Times(a + b, d) == Times(a, d) + Times(b, d)
    ensures Times(d, a + b) == Times(a, d) + Times(b, d)
    ensures Times(b, d + 1) == Times(b, d) + b
  {
    hide Times;
    TimesIs(a + b, d);
    TimesIs(d, a + b);
    TimesIs(a, d);
    TimesIs(b, d);
    TimesIs(b, d + 1);
    Laws(a, b, d);
  }

  lemma Laws(a: int, b: int, d: int)
    ensures (a + b) * d == a * d + b * d
    ensures d * (a + b) == a * d + b * d
    ensures b * (d + 1) == b * d + b
  {
  }

  /** Quotient and remainder. */
  lemma Divide(count: nat, n: nat)
    requires n > 0
    ensures count % n < n && count / n >= 0 && count == Times(count / n, n) + count % n
  {
    TimesIs(count / n, n);
  }
}
