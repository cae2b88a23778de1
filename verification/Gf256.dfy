/** The field GF(256) used by the Reed-Solomon coder (qrcode/rsecc.c): bytes are
    polynomials over GF(2) reduced modulo x^8 + x^4 + x^3 + x^2 + 1 (0x11d).
    Multiplication by the primitive element alpha = x is a shift and a conditional
    subtraction; every other product is a repetition of that step, which keeps all
    proofs linear. */
module Gf256 {
  import opened Orbit

  /** Addition and subtraction. */
  function Add(x: bv8, y: bv8): bv8 {
    x ^ y
  }

  function Gate(bit: bv8, v: bv8): bv8 {
    if bit != 0 then v else 0
  }

  /** alpha * b: shift, then reduce by the field polynomial if the top bit fell out. */
  function Xtime(b: bv8): bv8 {
    Add(b << 1, Gate(b & 0x80, 0x1d))
  }

  /** alpha^n * x */
  function Times(n: nat, x: bv8): bv8 {
    if n == 0 then x else Xtime(Times(n - 1, x))
  }

  /** alpha^n */
  function Power(n: nat): bv8 {
    Times(n, 1)
  }

  /** Schoolbook multiplication: the sum of alpha^k * a over the bits k set in b. */
  function Mul(a: bv8, b: bv8): bv8 {
    var a1 := Xtime(a); var a2 := Xtime(a1); var a3 := Xtime(a2); var a4 := Xtime(a3);
    var a5 := Xtime(a4); var a6 := Xtime(a5); var a7 := Xtime(a6);
    Add(Add(Add(Add(Add(Add(Add(Gate(b & 1, a), Gate(b & 2, a1)), Gate(b & 4, a2)), Gate(b & 8, a3)),
      Gate(b & 16, a4)), Gate(b & 32, a5)), Gate(b & 64, a6)), Gate(b & 128, a7))
  }

  // ----- addition -----

  lemma AddLaws(x: bv8, y: bv8, z: bv8)
    ensures Add(x, y) == Add(y, x)
    ensures Add(Add(x, y), z) == Add(x, Add(y, z))
    ensures Add(x, 0) == x && Add(0, x) == x && Add(x, x) == 0
    ensures Add(x, y) == 0 ==> x == y
  {
  }

  lemma AddSwap(a: bv8, b: bv8, c: bv8, d: bv8)
    ensures Add(Add(a, b), Add(c, d)) == Add(Add(a, c), Add(b, d))
  {
    hide Add;
    AddLaws(a, b, Add(c, d));
    AddLaws(b, c, d);
    AddLaws(c, b, d);
    AddLaws(a, c, Add(b, d));
  }

  // ----- repeated doubling is linear, additive in the exponent and injective -----

  lemma ShiftAdd(x: bv8, y: bv8)
    ensures Add(x, y) << 1 == Add(x << 1, y << 1)
  {
  }

  lemma ReductionAdd(x: bv8, y: bv8)
    ensures Gate(Add(x, y) & 0x80, 0x1d) == Add(Gate(x & 0x80, 0x1d), Gate(y & 0x80, 0x1d))
  {
  }

  lemma XtimeAdd(x: bv8, y: bv8)
    ensures Xtime(Add(x, y)) == Add(Xtime(x), Xtime(y))
  {
    hide Add, Gate;
    ShiftAdd(x, y);
    ReductionAdd(x, y);
    AddSwap(x << 1, y << 1, Gate(x & 0x80, 0x1d), Gate(y & 0x80, 0x1d));
  }

  lemma XtimeInjective(x: bv8, y: bv8)
    requires Xtime(x) == Xtime(y)
    ensures x == y
  {
  }

  lemma {:induction false} TimesLinear(n: nat, x: bv8, y: bv8)
    ensures Times(n, Add(x, y)) == Add(Times(n, x), Times(n, y))
  {
    hide Xtime, Add;
    if n > 0 {
      TimesLinear(n - 1, x, y);
      XtimeAdd(Times(n - 1, x), Times(n - 1, y));
    }
  }

  lemma {:induction false} TimesZero(n: nat)
    ensures Times(n, 0) == 0
  {
    if n > 0 {
      TimesZero(n - 1);
    }
  }

  lemma {:induction false} TimesAdd(m: nat, n: nat, x: bv8)
    ensures Times(m + n, x) == Times(m, Times(n, x))
  {
    hide Xtime;
    if m > 0 {
      TimesAdd(m - 1, n, x);
    }
  }

  lemma {:induction false} TimesInjective(n: nat, x: bv8, y: bv8)
    requires Times(n, x) == Times(n, y)
    ensures x == y
  {
    hide Xtime;
    if n > 0 {
      XtimeInjective(Times(n - 1, x), Times(n - 1, y));
      TimesInjective(n - 1, x, y);
    }
  }

  lemma TimesSwap(m: nat, n: nat, x: bv8)
    ensures Times(m, Times(n, x)) == Times(n, Times(m, x))
  {
    hide Times;
    TimesAdd(m, n, x);
    TimesAdd(n, m, x);
  }

  // ----- alpha^n * v is the product of alpha^n and v -----

  lemma TimesGate(n: nat, bit: bv8, v: bv8)
    ensures Times(n, Gate(bit, v)) == Gate(bit, Times(n, v))
  {
    hide Times;
    TimesZero(n);
  }

  lemma BitsOf(v: bv8)
    ensures v == Add(Add(Add(Add(Add(Add(Add(Gate(v & 1, 1), Gate(v & 2, 2)), Gate(v & 4, 4)), Gate(v & 8, 8)),
                   Gate(v & 16, 16)), Gate(v & 32, 32)), Gate(v & 64, 64)), Gate(v & 128, 128))
  {
  }

  lemma TimesXtime(n: nat, v: bv8)
    ensures Times(n, Xtime(v)) == Xtime(Times(n, v))
  {
    hide Xtime;
    TimesSwap(n, 1, v);
    assert forall z {:trigger Times(1, z)} :: Times(1, z) == Xtime(Times(0, z));
  }

  lemma TimesBits(n: nat)
    ensures Times(n, 2) == Xtime(Times(n, 1)) && Times(n, 4) == Xtime(Times(n, 2))
    ensures Times(n, 8) == Xtime(Times(n, 4)) && Times(n, 16) == Xtime(Times(n, 8))
    ensures Times(n, 32) == Xtime(Times(n, 16)) && Times(n, 64) == Xtime(Times(n, 32))
    ensures Times(n, 128) == Xtime(Times(n, 64))
  {
    hide Times;
    TimesXtime(n, 1); TimesXtime(n, 2); TimesXtime(n, 4); TimesXtime(n, 8);
    TimesXtime(n, 16); TimesXtime(n, 32); TimesXtime(n, 64);
  }

  lemma TimesIsMul(n: nat, v: bv8)
    ensures Times(n, v) == Mul(Power(n), v)
  {
    hide Xtime, Add, Times, Gate;
    var s1 := Gate(v & 1, 1);
    var s2 := Add(s1, Gate(v & 2, 2));
    var s3 := Add(s2, Gate(v & 4, 4));
    var s4 := Add(s3, Gate(v & 8, 8));
    var s5 := Add(s4, Gate(v & 16, 16));
    var s6 := Add(s5, Gate(v & 32, 32));
    var s7 := Add(s6, Gate(v & 64, 64));
    BitsOf(v);
    TimesBits(n);
    TimesGate(n, v & 1, 1);
    TimesLinear(n, s1, Gate(v & 2, 2)); TimesGate(n, v & 2, 2);
    TimesLinear(n, s2, Gate(v & 4, 4)); TimesGate(n, v & 4, 4);
    TimesLinear(n, s3, Gate(v & 8, 8)); TimesGate(n, v & 8, 8);
    TimesLinear(n, s4, Gate(v & 16, 16)); TimesGate(n, v & 16, 16);
    TimesLinear(n, s5, Gate(v & 32, 32)); TimesGate(n, v & 32, 32);
    TimesLinear(n, s6, Gate(v & 64, 64)); TimesGate(n, v & 64, 64);
    TimesLinear(n, s7, Gate(v & 128, 128)); TimesGate(n, v & 128, 128);
  }

  // ----- alpha has order exactly 255 -----

  lemma PowerSum(m: nat, n: nat)
    ensures Power(m + n) == Mul(Power(m), Power(n))
  {
    hide Times, Mul;
    TimesAdd(m, n, 1);
    TimesIsMul(m, Power(n));
  }

  lemma PowerSumOf(m: nat, n: nat, p: bv8, q: bv8, r: bv8)
    requires Power(m) == p && Power(n) == q && Mul(p, q) == r
    ensures Power(m + n) == r
  {
    hide Times, Mul;
    PowerSum(m, n);
  }

  lemma KeyPowers()
    ensures Power(15) == 0x26 && Power(51) == 0x0a && Power(85) == 0xd6 && Power(255) == 1
  {
    hide Times;
    assert Power(1) == 2 by { PowerOne(); }
    PowerSumOf(1, 1, 2, 2, 4);
    PowerSumOf(1, 2, 2, 4, 8);
    PowerSumOf(2, 2, 4, 4, 0x10);
    PowerSumOf(4, 4, 0x10, 0x10, 0x1d);
    PowerSumOf(8, 8, 0x1d, 0x1d, 0x4c);
    PowerSumOf(3, 4, 8, 0x10, 0x80);
    PowerSumOf(7, 8, 0x80, 0x1d, 0x26);
    PowerSumOf(1, 16, 2, 0x4c, 0x98);
    PowerSumOf(17, 17, 0x98, 0x98, 0x4e);
    PowerSumOf(34, 17, 0x4e, 0x98, 0x0a);
    PowerSumOf(34, 51, 0x4e, 0x0a, 0xd6);
    PowerSumOf(85, 85, 0xd6, 0xd6, 0xd7);
    PowerSumOf(170, 85, 0xd7, 0xd6, 1);
  }

  lemma PowerOne()
    ensures Power(0) == 1 && Power(1) == 2
  {
    assert Times(1, 1) == Xtime(Times(0, 1));
  }

  lemma Cycle(x: bv8)
    ensures Times(255, x) == x
  {
    hide Times;
    KeyPowers();
    TimesIsMul(255, x);
    assert Mul(1, x) == x by { MulOneLeft(x); }
  }

  lemma MulOneLeft(x: bv8)
    ensures Mul(1, x) == x
  {
    BitsOf(x);
  }

  lemma {:induction false} TimesRepeats(n: nat, x: bv8)
    ensures Times(n, x) == Repeat(Xtime, n, x)
  {
    hide Xtime;
    if n > 0 {
      TimesRepeats(n - 1, x);
    }
  }

  /** alpha is primitive: no smaller positive power of it is 1. */
  lemma AlphaGenerates()
    ensures Generates(Xtime)
  {
    hide Times, Repeat;
    KeyPowers();
    forall x, y | Xtime(x) == Xtime(y) ensures x == y {
      XtimeInjective(x, y);
    }
    assert Xtime(0) == 0;
    TimesRepeats(15, 1);
    TimesRepeats(51, 1);
    TimesRepeats(85, 1);
    TimesRepeats(255, 1);
  }

  lemma PowerInjective(i: nat, j: nat)
    requires i < 255 && j < 255 && Power(i) == Power(j)
    ensures i == j
  {
    hide Times, Repeat, Xtime;
    AlphaGenerates();
    TimesRepeats(i, 1);
    TimesRepeats(j, 1);
    RepeatsDiffer(Xtime, i, j);
  }

  lemma PowerNonzero(n: nat)
    ensures Power(n) != 0
  {
    hide Times, Repeat, Xtime;
    AlphaGenerates();
    TimesRepeats(n, 1);
    NeverZero(Xtime, n);
  }

  lemma LogExists(a: bv8)
    requires a != 0
    ensures exists n :: 0 <= n < 255 && Power(n) == a
  {
    hide Times, Repeat, Xtime;
    AlphaGenerates();
    EveryByte(Xtime, a);
    var n :| 0 <= n < 255 && Repeat(Xtime, n, 1) == a;
    TimesRepeats(n, 1);
    assert Power(n) == a;
  }

  /** The discrete logarithm. */
  ghost function Log(a: bv8): (n: nat)
    requires a != 0
    ensures n < 255 && Power(n) == a
  {
    LogExists(a);
    var n :| 0 <= n < 255 && Power(n) == a;
    n
  }

  // ----- field laws -----

  lemma MulZero(a: bv8)
    ensures Mul(a, 0) == 0 && Mul(0, a) == 0
  {
    assert Xtime(0) == 0;
  }

  lemma MulPower(n: nat, b: bv8)
    ensures Mul(Power(n), b) == Times(n, b)
  {
    hide Times, Mul;
    TimesIsMul(n, b);
  }

  lemma MulCommutes(a: bv8, b: bv8)
    ensures Mul(a, b) == Mul(b, a)
  {
    hide Times, Mul;
    MulZero(a);
    MulZero(b);
    if a != 0 && b != 0 {
      MulPower(Log(a), b);
      MulPower(Log(b), a);
      TimesSwap(Log(a), Log(b), 1);
    }
  }

  lemma MulAdd(a: bv8, b: bv8, c: bv8)
    ensures Mul(a, Add(b, c)) == Add(Mul(a, b), Mul(a, c))
    ensures Mul(Add(b, c), a) == Add(Mul(b, a), Mul(c, a))
  {
    hide Times, Mul, Add;
    MulCommutes(a, Add(b, c));
    MulCommutes(a, b);
    MulCommutes(a, c);
    if a == 0 {
      MulZero(b);
      MulZero(c);
      MulZero(Add(b, c));
      AddLaws(0, 0, 0);
    } else {
      MulPower(Log(a), b);
      MulPower(Log(a), c);
      MulPower(Log(a), Add(b, c));
      TimesLinear(Log(a), b, c);
    }
  }

  lemma MulAssociates(a: bv8, b: bv8, c: bv8)
    ensures Mul(Mul(a, b), c) == Mul(a, Mul(b, c))
  {
    hide Times, Mul;
    if a == 0 || b == 0 {
      MulZero(b);
      MulZero(c);
      MulZero(a);
      MulZero(Mul(b, c));
    } else {
      MulPower(Log(a), b);
      TimesAdd(Log(a), Log(b), 1);
      MulPower(Log(a) + Log(b), c);
      TimesAdd(Log(a), Log(b), c);
      MulPower(Log(b), c);
      MulPower(Log(a), Mul(b, c));
    }
  }

  lemma NoZeroDivisors(a: bv8, b: bv8)
    requires Mul(a, b) == 0
    ensures a == 0 || b == 0
  {
    hide Times, Mul;
    if a != 0 {
      MulPower(Log(a), b);
      TimesZero(Log(a));
      TimesInjective(Log(a), b, 0);
    }
  }
}
