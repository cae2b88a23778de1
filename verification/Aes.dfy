/** The AES block cipher of FIPS-197: the rounds of section 5.1, the inverse cipher of
    section 5.3, and the equivalent inverse cipher of section 5.3.5. The S-box is any
    bijection on bytes. */
module Aes {
  import opened F = Gf256

  // ----- bytes: GF(2^8) modulo x^8 + x^4 + x^3 + x + 1 -----

  function Double(x: bv8): bv8 {
    Add(x << 1, Gate(x & 0x80, 0x1b))
  }

  function Mul3(x: bv8): bv8 { Add(Double(x), x) }
  function Mul9(x: bv8): bv8 { Add(Double(Double(Double(x))), x) }
  function Mul11(x: bv8): bv8 { Add(Double(Mul5(x)), x) }
  function Mul13(x: bv8): bv8 { Add(Double(Double(Mul3(x))), x) }
  function Mul14(x: bv8): bv8 { Double(Add(Double(Mul3(x)), x)) }
  function Mul5(x: bv8): bv8 { Add(Double(Double(x)), x) }

  lemma ReductionOfSum(x: bv8, y: bv8)
    ensures Gate(Add(x, y) & 0x80, 0x1b) == Add(Gate(x & 0x80, 0x1b), Gate(y & 0x80, 0x1b))
  {
  }

  lemma DoubleLinear(x: bv8, y: bv8)
    ensures Double(Add(x, y)) == Add(Double(x), Double(y))
  {
    hide Add, Gate;
    ShiftAdd(x, y);
    ReductionOfSum(x, y);
    AddSwap(x << 1, y << 1, Gate(x & 0x80, 0x1b), Gate(y & 0x80, 0x1b));
  }

  /** x + f(x) is linear if f is. */
  lemma PlusSelf(x: bv8, y: bv8, u: bv8, v: bv8)
    ensures Add(Add(u, v), Add(x, y)) == Add(Add(u, x), Add(v, y))
  {
    hide Add;
    AddSwap(u, v, x, y);
  }

  lemma MulsLinear(x: bv8, y: bv8)
    ensures Mul3(Add(x, y)) == Add(Mul3(x), Mul3(y)) && Mul9(Add(x, y)) == Add(Mul9(x), Mul9(y))
    ensures Mul11(Add(x, y)) == Add(Mul11(x), Mul11(y)) && Mul13(Add(x, y)) == Add(Mul13(x), Mul13(y))
    ensures Mul14(Add(x, y)) == Add(Mul14(x), Mul14(y))
  {
    hide Double, Add;
    DoubleLinear(x, y);
    DoubleLinear(Double(x), Double(y));
    DoubleLinear(Double(Double(x)), Double(Double(y)));
    PlusSelf(x, y, Double(x), Double(y));
    PlusSelf(x, y, Double(Double(Double(x))), Double(Double(Double(y))));
    PlusSelf(x, y, Double(Double(x)), Double(Double(y)));
    DoubleLinear(Mul5(x), Mul5(y));
    PlusSelf(x, y, Double(Mul5(x)), Double(Mul5(y)));
    DoubleLinear(Mul3(x), Mul3(y));
    DoubleLinear(Double(Mul3(x)), Double(Mul3(y)));
    PlusSelf(x, y, Double(Double(Mul3(x))), Double(Double(Mul3(y))));
    PlusSelf(x, y, Double(Mul3(x)), Double(Mul3(y)));
    DoubleLinear(Add(Double(Mul3(x)), x), Add(Double(Mul3(y)), y));
  }

  function Sum(a: bv8, b: bv8, c: bv8, d: bv8): bv8 {
    Add(Add(a, b), Add(c, d))
  }

  /** Products as sums of doublings. */
  lemma NormalForms(x: bv8)
    ensures
      var x1 := Double(x); var x2 := Double(x1); var x3 := Double(x2);
      && Mul9(x) == Add(x3, x) && Mul11(x) == Add(x3, Add(x1, x))
      && Mul13(x) == Add(x3, Add(x2, x)) && Mul14(x) == Add(x3, Add(x2, x1))
  {
    hide Double, Add;
    var x1 := Double(x); var x2 := Double(x1); var x3 := Double(x2);
    DoubleLinear(x2, x);
    DoubleLinear(x1, x);
    DoubleLinear(x2, x1);
    DoubleLinear(Add(x2, x1), x);
    AddLaws(x3, x1, x);
    AddLaws(x3, x2, x);
    AddLaws(x3, x2, x1);
  }

  /** The products of the two mixing matrices, one byte at a time. */
  lemma MixProducts(x: bv8)
    ensures Sum(Mul14(Double(x)), Mul11(x), Mul13(x), Mul9(Mul3(x))) == x
    ensures Sum(Mul14(Mul3(x)), Mul11(Double(x)), Mul13(x), Mul9(x)) == 0
    ensures Sum(Mul14(x), Mul11(Mul3(x)), Mul13(Double(x)), Mul9(x)) == 0
    ensures Sum(Mul14(x), Mul11(x), Mul13(Mul3(x)), Mul9(Double(x))) == 0
  {
    hide Double, Add, Mul9, Mul11, Mul13, Mul14, Sum;
    var x1 := Double(x); var x2 := Double(x1); var x3 := Double(x2); var x4 := Double(x3);
    NormalForms(x);
    NormalForms(x1);
    MulsLinear(x1, x);
    Cancel1(x, x1, x2, x3, x4);
    Cancel2(x, x1, x2, x3, x4);
    Cancel3(x, x1, x2, x3, x4);
    Cancel4(x, x1, x2, x3, x4);
  }

  lemma Cancel1(x: bv8, x1: bv8, x2: bv8, x3: bv8, x4: bv8)
    ensures Sum(Add(x4, Add(x3, x2)), Add(x3, Add(x1, x)), Add(x3, Add(x2, x)), Add(Add(x4, x1), Add(x3, x))) == x
  {
  }

  lemma Cancel2(x: bv8, x1: bv8, x2: bv8, x3: bv8, x4: bv8)
    ensures Sum(Add(Add(x4, Add(x3, x2)), Add(x3, Add(x2, x1))), Add(x4, Add(x2, x1)), Add(x3, Add(x2, x)), Add(x3, x)) == 0
  {
    hide Add;
    Cancel2Left(x1, x2, x3, x4);
    Cancel2Right(x, x2, x3);
    AddLaws(x2, 0, 0);
  }

  lemma Cancel2Left(x1: bv8, x2: bv8, x3: bv8, x4: bv8)
    ensures Add(Add(Add(x4, Add(x3, x2)), Add(x3, Add(x2, x1))), Add(x4, Add(x2, x1))) == x2
  {
    hide Add;
    AddLaws(x3, x2, x1);
    Telescope(x4, Add(x3, x2), x1);
    AddLaws(x4, x1, 0);
    Telescope(x1, x4, Add(x2, x1));
    AddLaws(x2, x1, 0);
    AddLaws(x1, Add(x2, x1), 0);
    CancelByte(x2, x1);
  }

  lemma Telescope(a: bv8, y: bv8, b: bv8)
    ensures Add(Add(a, y), Add(y, b)) == Add(a, b)
  {
  }

  lemma Cancel2Right(x: bv8, x2: bv8, x3: bv8)
    ensures Add(Add(x3, Add(x2, x)), Add(x3, x)) == x2
  {
  }

  lemma Cancel3(x: bv8, x1: bv8, x2: bv8, x3: bv8, x4: bv8)
    ensures Sum(Add(x3, Add(x2, x1)), Add(Add(x4, Add(x2, x1)), Add(x3, Add(x1, x))), Add(x4, Add(x3, x1)), Add(x3, x)) == 0
  {
    hide Add;
    Cancel3Left(x, x1, x2, x3, x4);
    Cancel3Right(x, x1, x3, x4);
    AddLaws(Add(x4, Add(x1, x)), 0, 0);
  }

  lemma Cancel3Left(x: bv8, x1: bv8, x2: bv8, x3: bv8, x4: bv8)
    ensures Add(Add(x3, Add(x2, x1)), Add(Add(x4, Add(x2, x1)), Add(x3, Add(x1, x)))) == Add(x4, Add(x1, x))
  {
    var y := Add(x2, x1);
    assert Add(Add(x3, y), Add(Add(x4, y), Add(x3, Add(x1, x)))) == Add(x4, Add(x1, x));
  }

  lemma Cancel3Right(x: bv8, x1: bv8, x3: bv8, x4: bv8)
    ensures Add(Add(x4, Add(x3, x1)), Add(x3, x)) == Add(x4, Add(x1, x))
  {
  }

  lemma Cancel4(x: bv8, x1: bv8, x2: bv8, x3: bv8, x4: bv8)
    ensures Sum(Add(x3, Add(x2, x1)), Add(x3, Add(x1, x)), Add(Add(x4, Add(x3, x1)), Add(x3, Add(x2, x))), Add(x4, x1)) == 0
  {
  }

  // ----- columns -----

  /** A column of the state, or a word of the key schedule. */
  datatype Word = Word(b0: bv8, b1: bv8, b2: bv8, b3: bv8)

  function XorW(a: Word, b: Word): Word {
    Word(Add(a.b0, b.b0), Add(a.b1, b.b1), Add(a.b2, b.b2), Add(a.b3, b.b3))
  }

  /** One row of MixColumns; the other rows are rotations of it. */
  function MixByte(a: bv8, b: bv8, c: bv8, d: bv8): bv8 {
    Sum(Double(a), Mul3(b), c, d)
  }

  function InvMixByte(a: bv8, b: bv8, c: bv8, d: bv8): bv8 {
    Sum(Mul14(a), Mul11(b), Mul13(c), Mul9(d))
  }

  function MixW(w: Word): Word {
    Word(MixByte(w.b0, w.b1, w.b2, w.b3), MixByte(w.b1, w.b2, w.b3, w.b0),
         MixByte(w.b2, w.b3, w.b0, w.b1), MixByte(w.b3, w.b0, w.b1, w.b2))
  }

  function InvMixW(w: Word): Word {
    Word(InvMixByte(w.b0, w.b1, w.b2, w.b3), InvMixByte(w.b1, w.b2, w.b3, w.b0),
         InvMixByte(w.b2, w.b3, w.b0, w.b1), InvMixByte(w.b3, w.b0, w.b1, w.b2))
  }

  lemma MulSum(a: bv8, b: bv8, c: bv8, d: bv8)
    ensures Mul14(Sum(a, b, c, d)) == Sum(Mul14(a), Mul14(b), Mul14(c), Mul14(d))
    ensures Mul11(Sum(a, b, c, d)) == Sum(Mul11(a), Mul11(b), Mul11(c), Mul11(d))
    ensures Mul13(Sum(a, b, c, d)) == Sum(Mul13(a), Mul13(b), Mul13(c), Mul13(d))
    ensures Mul9(Sum(a, b, c, d)) == Sum(Mul9(a), Mul9(b), Mul9(c), Mul9(d))
  {
    hide Mul9, Mul11, Mul13, Mul14, Add;
    MulsLinear(a, b);
    MulsLinear(c, d);
    MulsLinear(Add(a, b), Add(c, d));
  }

  lemma UnmixByte(a: bv8, b: bv8, c: bv8, d: bv8)
    ensures InvMixByte(MixByte(a, b, c, d), MixByte(b, c, d, a), MixByte(c, d, a, b), MixByte(d, a, b, c)) == a
  {
    hide Mul3, Mul9, Mul11, Mul13, Mul14, Double, Sum;
    MulSum(Double(a), Mul3(b), c, d);
    MulSum(Double(b), Mul3(c), d, a);
    MulSum(Double(c), Mul3(d), a, b);
    MulSum(Double(d), Mul3(a), b, c);
    MixProducts(a);
    MixProducts(b);
    MixProducts(c);
    MixProducts(d);
    Rotations(Mul11(a), Mul11(Double(b)), Mul11(Mul3(c)), Mul11(d));
    Rotations(Mul13(a), Mul13(b), Mul13(Double(c)), Mul13(Mul3(d)));
    Rotations(Mul9(Mul3(a)), Mul9(b), Mul9(c), Mul9(Double(d)));
    Transpose(Mul14(Double(a)), Mul14(Mul3(b)), Mul14(c), Mul14(d),
              Mul11(a), Mul11(Double(b)), Mul11(Mul3(c)), Mul11(d),
              Mul13(a), Mul13(b), Mul13(Double(c)), Mul13(Mul3(d)),
              Mul9(Mul3(a)), Mul9(b), Mul9(c), Mul9(Double(d)));
    OnlyFirst(a);
  }

  lemma OnlyFirst(a: bv8)
    ensures Sum(a, 0, 0, 0) == a
  {
  }

  lemma Rotations(a: bv8, b: bv8, c: bv8, d: bv8)
    ensures Sum(b, c, d, a) == Sum(a, b, c, d) && Sum(c, d, a, b) == Sum(a, b, c, d) && Sum(d, a, b, c) == Sum(a, b, c, d)
  {
    hide Add;
    AddSwap(a, b, c, d);
    AddSwap(b, c, d, a);
    AddSwap(d, a, b, c);
    AddLaws(a, c, 0);
    AddLaws(b, d, 0);
    AddLaws(Add(a, c), Add(b, d), 0);
    AddLaws(Add(a, b), Add(c, d), 0);
  }

  lemma Transpose(a0: bv8, a1: bv8, a2: bv8, a3: bv8, b0: bv8, b1: bv8, b2: bv8, b3: bv8,
                  c0: bv8, c1: bv8, c2: bv8, c3: bv8, d0: bv8, d1: bv8, d2: bv8, d3: bv8)
    ensures Sum(Sum(a0, a1, a2, a3), Sum(b0, b1, b2, b3), Sum(c0, c1, c2, c3), Sum(d0, d1, d2, d3)) ==
            Sum(Sum(a0, b0, c0, d0), Sum(a1, b1, c1, d1), Sum(a2, b2, c2, d2), Sum(a3, b3, c3, d3))
  {
    hide Sum;
    SumSwap(a0, a1, a2, a3, b0, b1, b2, b3);
    SumSwap(c0, c1, c2, c3, d0, d1, d2, d3);
    SumSwap(Add(a0, b0), Add(a1, b1), Add(a2, b2), Add(a3, b3), Add(c0, d0), Add(c1, d1), Add(c2, d2), Add(c3, d3));
    SumOf(Sum(a0, a1, a2, a3), Sum(b0, b1, b2, b3), Sum(c0, c1, c2, c3), Sum(d0, d1, d2, d3));
    SumOf(a0, b0, c0, d0);
    SumOf(a1, b1, c1, d1);
    SumOf(a2, b2, c2, d2);
    SumOf(a3, b3, c3, d3);
    hide Add;
  }

  lemma SumOf(a: bv8, b: bv8, c: bv8, d: bv8)
    ensures Sum(a, b, c, d) == Add(Add(a, b), Add(c, d))
  {
  }

  lemma SumSwap(a0: bv8, a1: bv8, a2: bv8, a3: bv8, b0: bv8, b1: bv8, b2: bv8, b3: bv8)
    ensures Add(Sum(a0, a1, a2, a3), Sum(b0, b1, b2, b3)) == Sum(Add(a0, b0), Add(a1, b1), Add(a2, b2), Add(a3, b3))
  {
    hide Add;
    AddSwap(Add(a0, a1), Add(a2, a3), Add(b0, b1), Add(b2, b3));
    AddSwap(a0, a1, b0, b1);
    AddSwap(a2, a3, b2, b3);
  }

  lemma Unmix(w: Word)
    ensures InvMixW(MixW(w)) == w
  {
    hide MixByte, InvMixByte;
    UnmixByte(w.b0, w.b1, w.b2, w.b3);
    UnmixByte(w.b1, w.b2, w.b3, w.b0);
    UnmixByte(w.b2, w.b3, w.b0, w.b1);
    UnmixByte(w.b3, w.b0, w.b1, w.b2);
  }

  lemma UnmixLinear(a: Word, b: Word)
    ensures InvMixW(XorW(a, b)) == XorW(InvMixW(a), InvMixW(b))
  {
    hide InvMixByte, Add;
    InvMixByteLinear(a.b0, a.b1, a.b2, a.b3, b.b0, b.b1, b.b2, b.b3);
    InvMixByteLinear(a.b1, a.b2, a.b3, a.b0, b.b1, b.b2, b.b3, b.b0);
    InvMixByteLinear(a.b2, a.b3, a.b0, a.b1, b.b2, b.b3, b.b0, b.b1);
    InvMixByteLinear(a.b3, a.b0, a.b1, a.b2, b.b3, b.b0, b.b1, b.b2);
  }

  lemma InvMixByteLinear(a0: bv8, a1: bv8, a2: bv8, a3: bv8, b0: bv8, b1: bv8, b2: bv8, b3: bv8)
    ensures InvMixByte(Add(a0, b0), Add(a1, b1), Add(a2, b2), Add(a3, b3)) ==
            Add(InvMixByte(a0, a1, a2, a3), InvMixByte(b0, b1, b2, b3))
  {
    hide Add, Sum, Mul9, Mul11, Mul13, Mul14;
    MulsLinear(a0, b0);
    MulsLinear(a1, b1);
    MulsLinear(a2, b2);
    MulsLinear(a3, b3);
    SumSwap(Mul14(a0), Mul11(a1), Mul13(a2), Mul9(a3), Mul14(b0), Mul11(b1), Mul13(b2), Mul9(b3));
  }

  lemma XorTwice(a: Word, b: Word)
    ensures XorW(XorW(a, b), b) == a
  {
    hide Add;
    CancelByte(a.b0, b.b0);
    CancelByte(a.b1, b.b1);
    CancelByte(a.b2, b.b2);
    CancelByte(a.b3, b.b3);
  }

  lemma CancelByte(x: bv8, y: bv8)
    ensures Add(Add(x, y), y) == x
  {
    AddLaws(x, y, y);
  }

  // ----- S-boxes -----

  /** A table of 256 bytes. */
  type Box = s: seq<bv8> | |s| == 256 witness seq(256, i => 0)

  function At(box: Box, x: bv8): bv8 {
    box[x as int]
  }

  /** rev takes back what fwd does. */
  ghost predicate Inverse(fwd: Box, rev: Box) {
    forall x: bv8 {:trigger At(fwd, x)} :: At(rev, At(fwd, x)) == x
  }

  // ----- the state: four columns -----

  datatype State = State(c0: Word, c1: Word, c2: Word, c3: Word)

  /** AddRoundKey */
  function XorS(a: State, b: State): State {
    State(XorW(a.c0, b.c0), XorW(a.c1, b.c1), XorW(a.c2, b.c2), XorW(a.c3, b.c3))
  }

  function SubW(box: Box, w: Word): Word {
    Word(At(box, w.b0), At(box, w.b1), At(box, w.b2), At(box, w.b3))
  }

  /** SubBytes, and InvSubBytes with the other box. */
  function SubS(box: Box, s: State): State {
    State(SubW(box, s.c0), SubW(box, s.c1), SubW(box, s.c2), SubW(box, s.c3))
  }

  /** ShiftRows: row r moves r columns to the left. */
  function ShiftRows(s: State): State {
    State(Word(s.c0.b0, s.c1.b1, s.c2.b2, s.c3.b3), Word(s.c1.b0, s.c2.b1, s.c3.b2, s.c0.b3),
          Word(s.c2.b0, s.c3.b1, s.c0.b2, s.c1.b3), Word(s.c3.b0, s.c0.b1, s.c1.b2, s.c2.b3))
  }

  function InvShiftRows(s: State): State {
    State(Word(s.c0.b0, s.c3.b1, s.c2.b2, s.c1.b3), Word(s.c1.b0, s.c0.b1, s.c3.b2, s.c2.b3),
          Word(s.c2.b0, s.c1.b1, s.c0.b2, s.c3.b3), Word(s.c3.b0, s.c2.b1, s.c1.b2, s.c0.b3))
  }

  function MixS(s: State): State {
    State(MixW(s.c0), MixW(s.c1), MixW(s.c2), MixW(s.c3))
  }

  function InvMixS(s: State): State {
    State(InvMixW(s.c0), InvMixW(s.c1), InvMixW(s.c2), InvMixW(s.c3))
  }

  // ----- the cipher -----

  /** The state after round r of n, of which the last does not mix (section 5.1). */
  function Rounds(fwd: Box, keys: seq<State>, s: State, r: nat): State
    requires r < |keys|
  {
    if r == 0 then XorS(s, keys[0])
    else XorS(MixS(ShiftRows(SubS(fwd, Rounds(fwd, keys, s, r - 1)))), keys[r])
  }

  /** Cipher, with one round key more than rounds. */
  function Cipher(fwd: Box, keys: seq<State>, s: State): State
    requires |keys| >= 2
  {
    var n := |keys| - 1;
    XorS(ShiftRows(SubS(fwd, Rounds(fwd, keys, s, n - 1))), keys[n])
  }

  /** The state of InvCipher after it has undone rounds n, ..., r (section 5.3). */
  function InvRounds(rev: Box, keys: seq<State>, s: State, r: nat): State
    requires 1 <= r < |keys|
    decreases |keys| - r
  {
    if r == |keys| - 1 then SubS(rev, InvShiftRows(XorS(s, keys[r])))
    else SubS(rev, InvShiftRows(InvMixS(XorS(InvRounds(rev, keys, s, r + 1), keys[r]))))
  }

  function InvCipher(rev: Box, keys: seq<State>, s: State): State
    requires |keys| >= 2
  {
    XorS(InvRounds(rev, keys, s, 1), keys[0])
  }

  // ----- the inverse cipher undoes the cipher -----

  lemma StepBack(fwd: Box, rev: Box, s: State)
    requires Inverse(fwd, rev)
    ensures SubS(rev, InvShiftRows(ShiftRows(SubS(fwd, s)))) == s
  {
    hide At;
  }

  lemma XorSTwice(a: State, b: State)
    ensures XorS(XorS(a, b), b) == a
  {
    hide XorW;
    XorTwice(a.c0, b.c0);
    XorTwice(a.c1, b.c1);
    XorTwice(a.c2, b.c2);
    XorTwice(a.c3, b.c3);
  }

  lemma UnmixS(s: State)
    ensures InvMixS(MixS(s)) == s
  {
    hide InvMixW, MixW;
    Unmix(s.c0);
    Unmix(s.c1);
    Unmix(s.c2);
    Unmix(s.c3);
  }

  /** After undoing rounds n, ..., r the state is the one after round r - 1. */
  lemma {:induction false} InvRoundsBack(fwd: Box, rev: Box, keys: seq<State>, s: State, r: nat)
    requires Inverse(fwd, rev) && 1 <= r < |keys|
    ensures InvRounds(rev, keys, Cipher(fwd, keys, s), r) == Rounds(fwd, keys, s, r - 1)
    decreases |keys| - r
  {
    hide Inverse, XorS, MixS, InvMixS, SubS, ShiftRows, InvShiftRows;
    var before := Rounds(fwd, keys, s, r - 1);
    StepBack(fwd, rev, before);
    var shifted := ShiftRows(SubS(fwd, before));
    if r == |keys| - 1 {
      XorSTwice(shifted, keys[r]);
    } else {
      InvRoundsBack(fwd, rev, keys, s, r + 1);
      XorSTwice(MixS(shifted), keys[r]);
      UnmixS(shifted);
    }
  }

  /** InvCipher undoes Cipher, for any number of rounds and any round keys. */
  lemma CipherUndone(fwd: Box, rev: Box, keys: seq<State>, s: State)
    requires Inverse(fwd, rev) && |keys| >= 2
    ensures InvCipher(rev, keys, Cipher(fwd, keys, s)) == s
  {
    hide Inverse, XorS, Cipher;
    InvRoundsBack(fwd, rev, keys, s, 1);
    XorSTwice(s, keys[0]);
  }

  // ----- the equivalent inverse cipher -----

  /** The decryption key schedule: the round keys backwards, all but the outer ones unmixed. */
  function InverseKeys(keys: seq<State>): (r: seq<State>)
    requires |keys| >= 2
    ensures |r| == |keys|
  {
    seq(|keys|, i requires 0 <= i < |keys| =>
      if i == 0 || i == |keys| - 1 then keys[|keys| - 1 - i] else InvMixS(keys[|keys| - 1 - i]))
  }

  /** Its rounds have the shape of the cipher's. */
  function EqRounds(rev: Box, keys: seq<State>, s: State, r: nat): State
    requires r < |keys|
  {
    if r == 0 then XorS(s, keys[0])
    else XorS(InvMixS(InvShiftRows(SubS(rev, EqRounds(rev, keys, s, r - 1)))), keys[r])
  }

  function EqInvCipher(rev: Box, keys: seq<State>, s: State): State
    requires |keys| >= 2
  {
    var n := |keys| - 1;
    XorS(InvShiftRows(SubS(rev, EqRounds(rev, keys, s, n - 1))), keys[n])
  }

  lemma SubThenShift(box: Box, s: State)
    ensures InvShiftRows(SubS(box, s)) == SubS(box, InvShiftRows(s))
  {
    hide At;
  }

  lemma UnmixSLinear(a: State, b: State)
    ensures InvMixS(XorS(a, b)) == XorS(InvMixS(a), InvMixS(b))
  {
    hide XorW, InvMixW;
    UnmixLinear(a.c0, b.c0);
    UnmixLinear(a.c1, b.c1);
    UnmixLinear(a.c2, b.c2);
    UnmixLinear(a.c3, b.c3);
  }

  /** Round r of the one is round n - r of the other, a step further. */
  lemma {:induction false} EqRoundsAre(rev: Box, keys: seq<State>, s: State, r: nat)
    requires |keys| >= 2 && r < |keys| - 1
    ensures InvShiftRows(SubS(rev, EqRounds(rev, InverseKeys(keys), s, r))) == InvRounds(rev, keys, s, |keys| - 1 - r)
    decreases r
  {
    hide XorS, InvMixS, SubS, InvShiftRows;
    var e := EqRounds(rev, InverseKeys(keys), s, r);
    SubThenShift(rev, e);
    if r > 0 {
      EqRoundsAre(rev, keys, s, r - 1);
      UnmixSLinear(InvRounds(rev, keys, s, |keys| - r), keys[|keys| - 1 - r]);
    }
  }

  lemma Equivalent(rev: Box, keys: seq<State>, s: State)
    requires |keys| >= 2
    ensures EqInvCipher(rev, InverseKeys(keys), s) == InvCipher(rev, keys, s)
  {
    hide XorS, InvMixS, SubS, InvShiftRows, EqRounds, InvRounds;
    EqRoundsAre(rev, keys, s, |keys| - 2);
  }

  // ----- the key schedule (section 5.2) -----

  /** Rcon[j] for j >= 1, and 0x8d for j == 0. */
  function Rcon(j: nat): bv8 {
    if j == 0 then 0x8d else if j == 1 then 1 else Double(Rcon(j - 1))
  }

  function RotW(w: Word): Word {
    Word(w.b1, w.b2, w.b3, w.b0)
  }

  /** What is added to the word nk places back to give word i of the schedule. */
  function KeyTemp(fwd: Box, nk: nat, i: nat, last: Word): Word
    requires nk > 0
  {
    if i % nk == 0 then XorW(SubW(fwd, RotW(last)), Word(Rcon(i / nk), 0, 0, 0))
    else if nk > 6 && i % nk == 4 then SubW(fwd, last)
    else last
  }

  /** Word i of the schedule of a key of nk words. */
  function KeyWord(fwd: Box, key: seq<Word>, i: nat): Word
    requires |key| > 0
  {
    if i < |key| then key[i] else XorW(KeyWord(fwd, key, i - |key|), KeyTemp(fwd, |key|, i, KeyWord(fwd, key, i - 1)))
  }

  function RoundKey(fwd: Box, key: seq<Word>, r: nat): State
    requires |key| > 0
  {
    State(KeyWord(fwd, key, 4 * r), KeyWord(fwd, key, 4 * r + 1), KeyWord(fwd, key, 4 * r + 2), KeyWord(fwd, key, 4 * r + 3))
  }

  /** The round keys for a key of nk words: nk + 6 rounds. */
  function KeySchedule(fwd: Box, key: seq<Word>): (r: seq<State>)
    requires |key| > 0
    ensures |r| == |key| + 7
  {
    seq(|key| + 7, r requires r >= 0 => RoundKey(fwd, key, r))
  }

  // ----- blocks of 16 bytes -----

  type Block = b: seq<bv8> | |b| == 16 witness seq(16, i => 0)

  function WordAt(b: seq<bv8>, i: nat): Word
    requires i + 4 <= |b|
  {
    Word(b[i], b[i + 1], b[i + 2], b[i + 3])
  }

  function WordsOf(key: seq<bv8>): seq<Word> {
    seq(|key| / 4, i requires 0 <= i < |key| / 4 => WordAt(key, 4 * i))
  }

  function ToState(b: Block): State {
    State(WordAt(b, 0), WordAt(b, 4), WordAt(b, 8), WordAt(b, 12))
  }

  function Bytes(w: Word): seq<bv8> {
    [w.b0, w.b1, w.b2, w.b3]
  }

  function FromState(s: State): Block {
    Bytes(s.c0) + Bytes(s.c1) + Bytes(s.c2) + Bytes(s.c3)
  }

  lemma Blocks(b: Block, s: State)
    ensures FromState(ToState(b)) == b && ToState(FromState(s)) == s
  {
  }

  function EncryptBlock(fwd: Box, keys: seq<State>, b: Block): Block
    requires |keys| >= 2
  {
    FromState(Cipher(fwd, keys, ToState(b)))
  }

  function DecryptBlock(rev: Box, keys: seq<State>, b: Block): Block
    requires |keys| >= 2
  {
    FromState(InvCipher(rev, keys, ToState(b)))
  }

  lemma BlockUndone(fwd: Box, rev: Box, keys: seq<State>, b: Block)
    requires Inverse(fwd, rev) && |keys| >= 2
    ensures DecryptBlock(rev, keys, EncryptBlock(fwd, keys, b)) == b
  {
    hide Inverse, Cipher, InvCipher, FromState, ToState;
    Blocks(b, Cipher(fwd, keys, ToState(b)));
    CipherUndone(fwd, rev, keys, ToState(b));
  }
}
