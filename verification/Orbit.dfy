/** Repeating a step on bytes: when the powers of the step reach every byte but zero. */
module Orbit {
  function Repeat(f: bv8 -> bv8, n: nat, x: bv8): bv8 {
    if n == 0 then x else f(Repeat(f, n - 1, x))
  }

  ghost predicate OneToOne(f: bv8 -> bv8) {
    forall x, y :: f(x) == f(y) ==> x == y
  }

  ghost predicate Period(f: bv8 -> bv8, n: nat) {
    Repeat(f, n, 1) == 1
  }

  lemma {:induction false} RepeatAdd(f: bv8 -> bv8, m: nat, n: nat, x: bv8)
    ensures Repeat(f, m + n, x) == Repeat(f, m, Repeat(f, n, x))
  {
    if m > 0 {
      RepeatAdd(f, m - 1, n, x);
    }
  }

  lemma {:induction false} RepeatInjective(f: bv8 -> bv8, n: nat, x: bv8, y: bv8)
    requires OneToOne(f) && Repeat(f, n, x) == Repeat(f, n, y)
    ensures x == y
  {
    if n > 0 {
      RepeatInjective(f, n - 1, x, y);
    }
  }

  lemma {:induction false} RepeatZero(f: bv8 -> bv8, n: nat)
    requires f(0) == 0
    ensures Repeat(f, n, 0) == 0
  {
    if n > 0 {
      RepeatZero(f, n - 1);
    }
  }

  lemma {:induction false} MultipleOfPeriod(f: bv8 -> bv8, d: nat, m: nat)
    requires Period(f, d)
    ensures Period(f, m * d)
  {
    if m > 0 {
      MultipleOfPeriod(f, d, m - 1);
      assert m * d == (m - 1) * d + d;
      RepeatAdd(f, (m - 1) * d, d, 1);
    }
  }

  /** Euclid's algorithm on two periods yields a common divisor that is a period. */
  lemma {:induction false} CommonPeriod(f: bv8 -> bv8, k: nat, n: nat) returns (d: nat, p: nat, q: nat)
    requires 0 < k && Period(f, k) && Period(f, n)
    ensures 0 < d && d * p == k && d * q == n && Period(f, d)
    decreases k + n, k
  {
    if n == 0 {
      d, p, q := k, 1, 0;
    } else if n < k {
      d, q, p := CommonPeriod(f, n, k);
    } else {
      assert Period(f, n - k) by { RepeatAdd(f, n - k, k, 1); }
      d, p, q := CommonPeriod(f, k, n - k);
      assert d * (q + p) == d * q + d * p;
      q := q + p;
    }
  }

  lemma ProductMonotone(a: nat, b: nat, c: nat)
    ensures a <= b ==> a * c <= b * c
  {
  }

  lemma SmallFactor(d: nat, q: nat)
    requires d * q == 255 && d != 255
    ensures d in {1, 3, 5, 15, 17, 51, 85}
  {
    if q <= 15 {
      assert q in {0, 1, 2, 3, 4, 5, 6, 7, 8, 9, 10, 11, 12, 13, 14, 15};
    } else {
      ProductMonotone(16, d, q);
      assert d in {0, 1, 2, 3, 4, 5, 6, 7, 8, 9, 10, 11, 12, 13, 14, 15};
    }
  }

  /** 255 is a period and none of its greatest proper divisors is. */
  ghost predicate Generates(f: bv8 -> bv8) {
    OneToOne(f) && f(0) == 0 && Period(f, 255) && !Period(f, 15) && !Period(f, 51) && !Period(f, 85)
  }

  /** The first return to 1 is after 255 steps. */
  lemma Primitive(f: bv8 -> bv8, k: nat)
    requires Generates(f) && 0 < k < 255
    ensures !Period(f, k)
  {
    hide Repeat;
    if Period(f, k) {
      var d, p, q := CommonPeriod(f, k, 255);
      ProductMonotone(1, p, d);
      SmallFactor(d, q);
      if d in {1, 3, 5, 15} {
        MultipleOfPeriod(f, d, 15 / d);
      } else if d in {17, 51} {
        MultipleOfPeriod(f, d, 51 / d);
      }
    }
  }

  lemma LaterDiffers(f: bv8 -> bv8, i: nat, j: nat)
    requires Generates(f) && i < j < 255
    ensures Repeat(f, i, 1) != Repeat(f, j, 1)
  {
    hide Repeat, OneToOne;
    if Repeat(f, i, 1) == Repeat(f, j, 1) {
      RepeatAdd(f, i, j - i, 1);
      RepeatInjective(f, i, 1, Repeat(f, j - i, 1));
      Primitive(f, j - i);
    }
  }

  lemma RepeatsDiffer(f: bv8 -> bv8, i: nat, j: nat)
    requires Generates(f) && i < 255 && j < 255 && Repeat(f, i, 1) == Repeat(f, j, 1)
    ensures i == j
  {
    hide Repeat, Generates;
    if i < j {
      LaterDiffers(f, i, j);
    } else if j < i {
      LaterDiffers(f, j, i);
    }
  }

  lemma NeverZero(f: bv8 -> bv8, n: nat)
    requires Generates(f)
    ensures Repeat(f, n, 1) != 0
  {
    hide Repeat;
    RepeatZero(f, n);
    if Repeat(f, n, 1) == 0 {
      RepeatInjective(f, n, 0, 1);
    }
  }

  lemma ComesRound(f: bv8 -> bv8, n: nat)
    requires Generates(f)
    ensures Repeat(f, n + 255, 1) == Repeat(f, n, 1)
  {
    hide Repeat;
    RepeatAdd(f, n, 255, 1);
  }

  // ----- every nonzero byte is reached (pigeonhole) -----

  ghost function Reached(f: bv8 -> bv8, n: nat): set<int> {
    set i | 0 <= i < n :: Repeat(f, i, 1) as int
  }

  lemma {:induction false} ReachedSize(f: bv8 -> bv8, n: nat)
    requires Generates(f) && n <= 255
    ensures |Reached(f, n)| == n
  {
    hide Repeat, Generates;
    if n > 0 {
      ReachedSize(f, n - 1);
      assert Repeat(f, n - 1, 1) as int !in Reached(f, n - 1) by {
        forall i | 0 <= i < n - 1 ensures Repeat(f, i, 1) as int != Repeat(f, n - 1, 1) as int {
          if Repeat(f, i, 1) == Repeat(f, n - 1, 1) {
            RepeatsDiffer(f, i, n - 1);
          }
        }
      }
      assert Reached(f, n) == Reached(f, n - 1) + {Repeat(f, n - 1, 1) as int};
    }
  }

  lemma {:induction false} RangeSize(n: nat) returns (range: set<int>)
    ensures forall v :: v in range <==> 1 <= v <= n
    ensures |range| == n
  {
    if n == 0 {
      range := {};
    } else {
      var smaller := RangeSize(n - 1);
      range := smaller + {n};
    }
  }

  lemma EqualBySize(a: set<int>, b: set<int>)
    requires a <= b && |a| == |b|
    ensures a == b
  {
    assert b == a + (b - a);
    assert |b| == |a| + |b - a|;
  }

  lemma EveryByte(f: bv8 -> bv8, a: bv8)
    requires Generates(f) && a != 0
    ensures exists n :: 0 <= n < 255 && Repeat(f, n, 1) == a
  {
    hide Repeat, Generates;
    ReachedSize(f, 255);
    var nonzero := RangeSize(255);
    forall v | v in Reached(f, 255) ensures v in nonzero {
      var i :| 0 <= i < 255 && v == Repeat(f, i, 1) as int;
      NeverZero(f, i);
    }
    EqualBySize(Reached(f, 255), nonzero);
    assert a as int in Reached(f, 255);
    var n :| 0 <= n < 255 && a as int == Repeat(f, n, 1) as int;
    assert Repeat(f, n, 1) == a;
  }
}
