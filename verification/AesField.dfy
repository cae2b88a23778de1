/** The field of AES, bytes modulo x^8 + x^4 + x^3 + x + 1, seen through the powers of the
    generator 3, and the substitution built on inverses in it (section 5.1.1 of FIPS-197). */
module AesField {
  import opened Gf256
  import opened Orbit
  import opened Aes

  /** 3^n */
  function Power3(n: nat): bv8 {
    Repeat(Mul3, n, 1)
  }

  // ----- products -----

  /** The product in the field: the sum of x^k * y over the bits k set in c. */
  function Product(c: bv8, y: bv8): bv8 {
    var y1 := Double(y); var y2 := Double(y1); var y3 := Double(y2); var y4 := Double(y3);
    var y5 := Double(y4); var y6 := Double(y5); var y7 := Double(y6);
    Terms(c, y, y1, y2, y3, y4, y5, y6, y7)
  }

  function Terms(c: bv8, y: bv8, y1: bv8, y2: bv8, y3: bv8, y4: bv8, y5: bv8, y6: bv8, y7: bv8): bv8 {
    Add(Add(Add(Add(Add(Add(Add(Gate(c & 1, y), Gate(c & 2, y1)), Gate(c & 4, y2)), Gate(c & 8, y3)),
      Gate(c & 16, y4)), Gate(c & 32, y5)), Gate(c & 64, y6)), Gate(c & 128, y7))
  }

  lemma DoubleGate(bit: bv8, v: bv8)
    ensures Double(Gate(bit, v)) == Gate(bit, Double(v))
  {
  }

  lemma ProductDouble(c: bv8, y: bv8)
    ensures Product(c, Double(y)) == Double(Product(c, y))
  {
    hide Double, Add, Gate;
    var y1 := Double(y); var y2 := Double(y1); var y3 := Double(y2); var y4 := Double(y3);
    var y5 := Double(y4); var y6 := Double(y5); var y7 := Double(y6);
    var s0 := Gate(c & 1, y);
    var s1 := Add(s0, Gate(c & 2, y1)); var s2 := Add(s1, Gate(c & 4, y2)); var s3 := Add(s2, Gate(c & 8, y3));
    var s4 := Add(s3, Gate(c & 16, y4)); var s5 := Add(s4, Gate(c & 32, y5)); var s6 := Add(s5, Gate(c & 64, y6));
    DoubleGate(c & 1, y);
    DoubleLinear(s0, Gate(c & 2, y1)); DoubleGate(c & 2, y1);
    DoubleLinear(s1, Gate(c & 4, y2)); DoubleGate(c & 4, y2);
    DoubleLinear(s2, Gate(c & 8, y3)); DoubleGate(c & 8, y3);
    DoubleLinear(s3, Gate(c & 16, y4)); DoubleGate(c & 16, y4);
    DoubleLinear(s4, Gate(c & 32, y5)); DoubleGate(c & 32, y5);
    DoubleLinear(s5, Gate(c & 64, y6)); DoubleGate(c & 64, y6);
    DoubleLinear(s6, Gate(c & 128, y7)); DoubleGate(c & 128, y7);
  }

  lemma GateAdd(bit: bv8, x: bv8, y: bv8)
    ensures Gate(bit, Add(x, y)) == Add(Gate(bit, x), Gate(bit, y))
  {
  }

  /** One more term on both sides of a sum. */
  lemma MoreTerms(r: bv8, s: bv8, t: bv8, bit: bv8, x: bv8, y: bv8)
    requires r == Add(s, t)
    ensures Add(r, Gate(bit, Add(x, y))) == Add(Add(s, Gate(bit, x)), Add(t, Gate(bit, y)))
  {
    hide Add, Gate;
    GateAdd(bit, x, y);
    AddSwap(s, t, Gate(bit, x), Gate(bit, y));
  }

  lemma ProductAdd(c: bv8, x: bv8, y: bv8)
    ensures Product(c, Add(x, y)) == Add(Product(c, x), Product(c, y))
  {
    hide Double, Add, Gate;
    var x1 := Double(x); var x2 := Double(x1); var x3 := Double(x2); var x4 := Double(x3);
    var x5 := Double(x4); var x6 := Double(x5); var x7 := Double(x6);
    var y1 := Double(y); var y2 := Double(y1); var y3 := Double(y2); var y4 := Double(y3);
    var y5 := Double(y4); var y6 := Double(y5); var y7 := Double(y6);
    DoubleLinear(x, y); DoubleLinear(x1, y1); DoubleLinear(x2, y2); DoubleLinear(x3, y3);
    DoubleLinear(x4, y4); DoubleLinear(x5, y5); DoubleLinear(x6, y6);
    var s0 := Gate(c & 1, x); var t0 := Gate(c & 1, y); var r0 := Gate(c & 1, Add(x, y));
    GateAdd(c & 1, x, y);
    var s1 := Add(s0, Gate(c & 2, x1)); var t1 := Add(t0, Gate(c & 2, y1)); var r1 := Add(r0, Gate(c & 2, Add(x1, y1)));
    MoreTerms(r0, s0, t0, c & 2, x1, y1);
    var s2 := Add(s1, Gate(c & 4, x2)); var t2 := Add(t1, Gate(c & 4, y2)); var r2 := Add(r1, Gate(c & 4, Add(x2, y2)));
    MoreTerms(r1, s1, t1, c & 4, x2, y2);
    var s3 := Add(s2, Gate(c & 8, x3)); var t3 := Add(t2, Gate(c & 8, y3)); var r3 := Add(r2, Gate(c & 8, Add(x3, y3)));
    MoreTerms(r2, s2, t2, c & 8, x3, y3);
    var s4 := Add(s3, Gate(c & 16, x4)); var t4 := Add(t3, Gate(c & 16, y4)); var r4 := Add(r3, Gate(c & 16, Add(x4, y4)));
    MoreTerms(r3, s3, t3, c & 16, x4, y4);
    var s5 := Add(s4, Gate(c & 32, x5)); var t5 := Add(t4, Gate(c & 32, y5)); var r5 := Add(r4, Gate(c & 32, Add(x5, y5)));
    MoreTerms(r4, s4, t4, c & 32, x5, y5);
    var s6 := Add(s5, Gate(c & 64, x6)); var t6 := Add(t5, Gate(c & 64, y6)); var r6 := Add(r5, Gate(c & 64, Add(x6, y6)));
    MoreTerms(r5, s5, t5, c & 64, x6, y6);
    MoreTerms(r6, s6, t6, c & 128, x7, y7);
  }

  lemma {:induction false} ProductRepeated(c: bv8, n: nat, x: bv8)
    ensures Product(c, Repeat(Mul3, n, x)) == Repeat(Mul3, n, Product(c, x))
  {
    hide Product, Add, Double;
    if n > 0 {
      ProductRepeated(c, n - 1, x);
      var y := Repeat(Mul3, n - 1, x);
      ProductAdd(c, Double(y), y);
      ProductDouble(c, y);
    }
  }

  lemma ProductOne(c: bv8)
    ensures Product(c, 1) == c
  {
    assert Double(1) == 2 && Double(2) == 4 && Double(4) == 8 && Double(8) == 16 && Double(16) == 32
        && Double(32) == 64 && Double(64) == 128;
    hide Double;
    BitsOf(c);
  }

  /** Products are sums of logarithms, which is what MUL uses. */
  lemma ProductOfPowers(i: nat, j: nat)
    ensures Product(Power3(i), Power3(j)) == Power3(i + j)
  {
    hide Product, Repeat, Mul3;
    ProductRepeated(Power3(i), j, 1);
    ProductOne(Power3(i));
    RepeatAdd(Mul3, j, i, 1);
  }

  // ----- 3 generates the field -----

  lemma PowerSum3(m: nat, n: nat, p: bv8, q: bv8, r: bv8)
    requires Power3(m) == p && Power3(n) == q && Product(p, q) == r
    ensures Power3(m + n) == r
  {
    hide Product, Repeat;
    ProductOfPowers(m, n);
  }

  lemma PowerOne3()
    ensures Power3(0) == 1 && Power3(1) == 3
  {
    assert Repeat(Mul3, 1, 1) == Mul3(Repeat(Mul3, 0, 1));
  }

  lemma KeyPowers3()
    ensures Power3(15) == 0x35 && Power3(51) == 0x0c && Power3(85) == 0xbd && Power3(255) == 1
  {
    hide Power3, Repeat, Mul3;
    PowerOne3();
    PowerSum3(1, 1, 0x3, 0x3, 0x5);
    PowerSum3(1, 2, 0x3, 0x5, 0xf);
    PowerSum3(2, 2, 0x5, 0x5, 0x11);
    PowerSum3(3, 4, 0xf, 0x11, 0xff);
    PowerSum3(1, 7, 0x3, 0xff, 0x1a);
    PowerSum3(7, 8, 0xff, 0x1a, 0x35);
    PowerSum3(1, 15, 0x3, 0x35, 0x5f);
    PowerSum3(1, 16, 0x3, 0x5f, 0xe1);
    PowerSum3(16, 17, 0x5f, 0xe1, 0x34);
    PowerSum3(1, 33, 0x3, 0x34, 0x5c);
    PowerSum3(34, 17, 0x5c, 0xe1, 0xc);
    PowerSum3(34, 51, 0x5c, 0xc, 0xbd);
    PowerSum3(85, 85, 0xbd, 0xbd, 0xbc);
    PowerSum3(170, 85, 0xbc, 0xbd, 0x1);
  }

  lemma Mul3Injective(x: bv8, y: bv8)
    requires Mul3(x) == Mul3(y)
    ensures x == y
  {
  }

  /** 3 generates the field: its powers are all the bytes but zero. */
  lemma ThreeGenerates()
    ensures Generates(Mul3)
  {
    KeyPowers3();
    forall x, y | Mul3(x) == Mul3(y) ensures x == y {
      Mul3Injective(x, y);
    }
    assert Mul3(0) == 0;
    hide Repeat;
  }

  lemma {:induction false} PowersRepeat(n: nat, m: nat)
    ensures Power3(n + m * 255) == Power3(n)
  {
    hide Repeat, Mul3, Generates;
    ThreeGenerates();
    if m > 0 {
      PowersRepeat(n, m - 1);
      ComesRound(Mul3, n + (m - 1) * 255);
      assert n + (m - 1) * 255 + 255 == n + m * 255;
    }
  }

  lemma Modulo255(n: nat)
    ensures Power3(n % 255) == Power3(n)
  {
    hide Repeat, Mul3;
    PowersRepeat(n % 255, n / 255);
  }

  /** The constants of the inverse mix. */
  lemma ConstantProducts(y: bv8)
    ensures Product(9, y) == Mul9(y) && Product(11, y) == Mul11(y)
    ensures Product(13, y) == Mul13(y) && Product(14, y) == Mul14(y)
  {
    hide Double, Add, Mul9, Mul11, Mul13, Mul14, Terms;
    NormalForms(y);
    var y1 := Double(y); var y2 := Double(y1); var y3 := Double(y2);
    var y4 := Double(y3); var y5 := Double(y4); var y6 := Double(y5); var y7 := Double(y6);
    ConstantTerms(y, y1, y2, y3, y4, y5, y6, y7);
  }

  lemma ConstantTerms(y: bv8, y1: bv8, y2: bv8, y3: bv8, y4: bv8, y5: bv8, y6: bv8, y7: bv8)
    ensures Terms(9, y, y1, y2, y3, y4, y5, y6, y7) == Add(y3, y)
    ensures Terms(11, y, y1, y2, y3, y4, y5, y6, y7) == Add(y3, Add(y1, y))
    ensures Terms(13, y, y1, y2, y3, y4, y5, y6, y7) == Add(y3, Add(y2, y))
    ensures Terms(14, y, y1, y2, y3, y4, y5, y6, y7) == Add(y3, Add(y2, y1))
  {
    hide Add;
    AddLaws(y, 0, 0); AddLaws(y1, 0, 0); AddLaws(0, y1, y2);
    AddLaws(Add(y, y3), 0, 0); AddLaws(y, y3, 0);
    AddLaws(y, y1, 0); AddLaws(Add(y, y1), y3, 0); AddLaws(Add(Add(y, y1), y3), 0, 0); AddLaws(Add(y, y1), 0, 0);
    AddLaws(y, y2, 0); AddLaws(Add(y, y2), y3, 0); AddLaws(Add(Add(y, y2), y3), 0, 0);
    AddLaws(y1, y2, 0); AddLaws(Add(y1, y2), y3, 0); AddLaws(Add(Add(y1, y2), y3), 0, 0);
  }

  // ----- the substitution -----

  /** The affine map as the source computes it: the byte and its four rotations. */
  function Rotl1(y: bv8): bv8 {
    (y << 1) | (y >> 7)
  }

  function Affine(x: bv8): bv8 {
    var y1 := Rotl1(x); var y2 := Rotl1(y1); var y3 := Rotl1(y2); var y4 := Rotl1(y3);
    Add(Add(Add(Add(x, y1), y2), y3), Add(y4, 0x63))
  }

  lemma AffineInjective(x: bv8, y: bv8)
    requires Affine(x) == Affine(y)
    ensures x == y
  {
  }

  /** y is the inverse of x in the field, or both are zero. */
  predicate Inverted(x: bv8, y: bv8) {
    if x == 0 then y == 0 else Product(x, y) == 1
  }

  lemma InvertedByLog(n: nat)
    requires n <= 255
    ensures Inverted(Power3(n), Power3(255 - n))
  {
    hide Product, Repeat, Mul3;
    KeyPowers3();
    ThreeGenerates();
    NeverZero(Mul3, n);
    ProductOfPowers(n, 255 - n);
  }

  lemma PowerFor(x: bv8) returns (n: nat)
    requires x != 0
    ensures n < 255 && Power3(n) == x
  {
    hide Repeat, Mul3, Generates;
    ThreeGenerates();
    EveryByte(Mul3, x);
    n :| n < 255 && Repeat(Mul3, n, 1) == x;
  }

  lemma ProductByZero(x: bv8, y: bv8)
    requires x == 0 || y == 0
    ensures Product(x, y) == 0
  {
    assert Double(0) == 0;
  }

  lemma ProductCommutes(x: bv8, y: bv8)
    requires x != 0 && y != 0
    ensures Product(x, y) == Product(y, x)
  {
    hide Product, Power3;
    var i := PowerFor(x);
    var j := PowerFor(y);
    ProductOfPowers(i, j);
    ProductOfPowers(j, i);
  }

  lemma InverseUnique(x: bv8, y: bv8, z: bv8)
    requires Inverted(x, y) && Inverted(x, z)
    ensures y == z
  {
    hide Product, Repeat, Mul3;
    if x != 0 {
      ProductByZero(x, 0);
      var i := PowerFor(x);
      var j := PowerFor(y);
      var k := PowerFor(z);
      ProductOfPowers(i, j);
      ProductOfPowers(i, k);
      RepeatAdd(Mul3, i, j, 1);
      RepeatAdd(Mul3, i, k, 1);
      ThreeGenerates();
      RepeatInjective(Mul3, i, y, z);
    }
  }

  lemma InvertedBack(x: bv8, y: bv8)
    requires Inverted(x, y)
    ensures Inverted(y, x)
  {
    hide Product;
    ProductByZero(x, 0);
    if x != 0 && y != 0 {
      ProductCommutes(x, y);
    }
  }

  /** The S-box of FIPS-197. */
  ghost function SubByte(x: bv8): (s: bv8)
    ensures exists y :: Inverted(x, y) && s == Affine(y)
  {
    hide Product;
    InverseExists(x);
    var y :| Inverted(x, y);
    Affine(y)
  }

  lemma InverseExists(x: bv8)
    ensures exists y :: Inverted(x, y)
  {
    hide Product, Power3;
    if x == 0 {
      assert Inverted(0, 0);
    } else {
      var n := PowerFor(x);
      InvertedByLog(n);
    }
  }

  lemma SubByteIs(x: bv8, y: bv8)
    requires Inverted(x, y)
    ensures SubByte(x) == Affine(y)
  {
    hide Product, Affine, Inverted;
    var z :| Inverted(x, z) && SubByte(x) == Affine(z);
    InverseUnique(x, y, z);
  }

  /** No two bytes are substituted by the same one. */
  lemma SubByteInjective(x: bv8, y: bv8)
    requires SubByte(x) == SubByte(y)
    ensures x == y
  {
    hide Product, Affine, Inverted;
    var u :| Inverted(x, u) && SubByte(x) == Affine(u);
    var v :| Inverted(y, v) && SubByte(y) == Affine(v);
    AffineInjective(u, v);
    InvertedBack(x, u);
    InvertedBack(y, u);
    InverseUnique(u, x, y);
  }

  /** Entries of figure 7 of FIPS-197. */
  lemma SubByteEntries()
    ensures SubByte(0) == 0x63 && SubByte(1) == 0x7c && SubByte(0x53) == 0xed
  {
    hide Inverted, Affine;
    InversePairs();
    SubByteIs(0, 0);
    SubByteIs(1, 1);
    SubByteIs(0x53, 0xca);
    AffineEntries();
  }

  lemma InversePairs()
    ensures Inverted(0, 0) && Inverted(1, 1) && Inverted(0x53, 0xca)
  {
  }

  lemma AffineEntries()
    ensures Affine(0) == 0x63 && Affine(1) == 0x7c && Affine(0xca) == 0xed
  {
  }
}
