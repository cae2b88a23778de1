/** The tables of AES (common/crypto/polaraes.c:301-440). An uint32_t is its four bytes,
    lowest first, so a shift by 8 moves bytes and a mask of 0xff picks one. */
module PolarTables {
  import opened Gf256
  import opened Orbit
  import opened Aes
  import opened AesField

  /** ROTL8 */
  function Rotl8(w: Word): Word {
    Word(w.b3, w.b0, w.b1, w.b2)
  }

  /** The entry of FTk for a byte x of the S-box: column k of the mixing matrix times x. */
  function ForwardEntry(k: nat, x: bv8): Word {
    if k == 0 then Word(Double(x), x, x, Mul3(x)) else Rotl8(ForwardEntry(k - 1, x))
  }

  function ReverseEntry(k: nat, x: bv8): Word {
    if k == 0 then Word(Mul14(x), Mul9(x), Mul13(x), Mul11(x)) else Rotl8(ReverseEntry(k - 1, x))
  }

  lemma ForwardEntries(x: bv8)
    ensures ForwardEntry(0, x) == Word(Double(x), x, x, Mul3(x))
    ensures ForwardEntry(1, x) == Word(Mul3(x), Double(x), x, x)
    ensures ForwardEntry(2, x) == Word(x, Mul3(x), Double(x), x)
    ensures ForwardEntry(3, x) == Word(x, x, Mul3(x), Double(x))
  {
    assert ForwardEntry(2, x) == Rotl8(ForwardEntry(1, x));
  }

  lemma ReverseEntries(x: bv8)
    ensures ReverseEntry(0, x) == Word(Mul14(x), Mul9(x), Mul13(x), Mul11(x))
    ensures ReverseEntry(1, x) == Word(Mul11(x), Mul14(x), Mul9(x), Mul13(x))
    ensures ReverseEntry(2, x) == Word(Mul13(x), Mul11(x), Mul14(x), Mul9(x))
    ensures ReverseEntry(3, x) == Word(Mul9(x), Mul13(x), Mul11(x), Mul14(x))
  {
    assert ReverseEntry(2, x) == Rotl8(ReverseEntry(1, x));
  }

  function Xor4(k: Word, a: Word, b: Word, c: Word, d: Word): Word {
    XorW(XorW(XorW(XorW(k, a), b), c), d)
  }

  lemma FiveTerms(k: bv8, a: bv8, b: bv8, c: bv8, d: bv8)
    ensures Add(Add(Add(Add(k, a), b), c), d) == Add(Sum(a, b, c, d), k)
  {
    hide Add;
    AddLaws(k, a, b);
    AddLaws(k, Add(a, b), c);
    AddLaws(k, Add(Add(a, b), c), d);
    AddLaws(Add(a, b), c, d);
    AddLaws(k, Sum(a, b, c, d), 0);
  }

  /** Four table look-ups mix a column. */
  lemma ForwardMixes(k: Word, a: bv8, b: bv8, c: bv8, d: bv8)
    ensures Xor4(k, ForwardEntry(0, a), ForwardEntry(1, b), ForwardEntry(2, c), ForwardEntry(3, d)) ==
            XorW(MixW(Word(a, b, c, d)), k)
  {
    hide Add, Double, Mul3, Sum, ForwardEntry;
    ForwardEntries(a);
    ForwardEntries(b);
    ForwardEntries(c);
    ForwardEntries(d);
    FiveTerms(k.b0, Double(a), Mul3(b), c, d);
    FiveTerms(k.b1, a, Double(b), Mul3(c), d);
    FiveTerms(k.b2, a, b, Double(c), Mul3(d));
    FiveTerms(k.b3, Mul3(a), b, c, Double(d));
    Rotations(a, Double(b), Mul3(c), d);
    Rotations(a, b, Double(c), Mul3(d));
    Rotations(Mul3(a), b, c, Double(d));
  }

  lemma ReverseMixes(k: Word, a: bv8, b: bv8, c: bv8, d: bv8)
    ensures Xor4(k, ReverseEntry(0, a), ReverseEntry(1, b), ReverseEntry(2, c), ReverseEntry(3, d)) ==
            XorW(InvMixW(Word(a, b, c, d)), k)
  {
    hide Add, Mul9, Mul11, Mul13, Mul14, Sum, ReverseEntry;
    ReverseEntries(a);
    ReverseEntries(b);
    ReverseEntries(c);
    ReverseEntries(d);
    FiveTerms(k.b0, Mul14(a), Mul11(b), Mul13(c), Mul9(d));
    FiveTerms(k.b1, Mul9(a), Mul14(b), Mul11(c), Mul13(d));
    FiveTerms(k.b2, Mul13(a), Mul9(b), Mul14(c), Mul11(d));
    FiveTerms(k.b3, Mul11(a), Mul13(b), Mul9(c), Mul14(d));
    Rotations(Mul9(a), Mul14(b), Mul11(c), Mul13(d));
    Rotations(Mul13(a), Mul9(b), Mul14(c), Mul11(d));
    Rotations(Mul11(a), Mul13(b), Mul9(c), Mul14(d));
  }

  // ----- the tables -----

  /** The static tables; FT[k, i] is FTk[i], and RCON holds the low byte of each constant. */
  class Tables {
    const FSb: array<bv8>
    const RSb: array<bv8>
    const FT: array2<Word>
    const RT: array2<Word>
    const RCON: array<bv8>

    ghost predicate Shape() {
      && FSb != RSb && FSb != RCON && RSb != RCON && FT != RT
      && FSb.Length == 256 && RSb.Length == 256 && RCON.Length == 10
      && FT.Length0 == 4 && FT.Length1 == 256 && RT.Length0 == 4 && RT.Length1 == 256
    }

    /** The S-boxes are inverse to each other, and the other tables follow from them. */
    ghost predicate Ready()
      reads FSb, RSb, FT, RT, RCON
    {
      && Shape() && Inverse(FSb[..], RSb[..])
      && (forall k: nat, i: nat {:trigger FT[k, i]} :: k < 4 && i < 256 ==> FT[k, i] == ForwardEntry(k, FSb[i]))
      && (forall k: nat, i: nat {:trigger RT[k, i]} :: k < 4 && i < 256 ==> RT[k, i] == ReverseEntry(k, RSb[i]))
      && (forall i: nat {:trigger RCON[i]} :: i < 10 ==> RCON[i] == Rcon(i + 1))
    }

    function S(x: bv8): (r: bv8)
      requires Shape()
      reads FSb
      ensures r == At(FSb[..], x)
    {
      FSb[x as int]
    }

    function R(x: bv8): (r: bv8)
      requires Shape()
      reads RSb
      ensures r == At(RSb[..], x)
    {
      RSb[x as int]
    }

    /** One of the four lines of AES_FROUND. */
    function ForwardWord(k: Word, a: Word, b: Word, c: Word, d: Word): (r: Word)
      requires Ready()
      reads FSb, RSb, FT, RT, RCON
      ensures r == XorW(MixW(Word(S(a.b0), S(b.b1), S(c.b2), S(d.b3))), k)
    {
      ForwardMixes(k, S(a.b0), S(b.b1), S(c.b2), S(d.b3));
      Xor4(k, FT[0, a.b0 as int], FT[1, b.b1 as int], FT[2, c.b2 as int], FT[3, d.b3 as int])
    }

    /** One of the four lines of AES_RROUND. */
    function ReverseWord(k: Word, a: Word, b: Word, c: Word, d: Word): (r: Word)
      requires Ready()
      reads FSb, RSb, FT, RT, RCON
      ensures r == XorW(InvMixW(Word(R(a.b0), R(b.b1), R(c.b2), R(d.b3))), k)
    {
      ReverseMixes(k, R(a.b0), R(b.b1), R(c.b2), R(d.b3));
      Xor4(k, RT[0, a.b0 as int], RT[1, b.b1 as int], RT[2, c.b2 as int], RT[3, d.b3 as int])
    }

    /** A line of the last round of encryption. */
    function LastForward(k: Word, a: Word, b: Word, c: Word, d: Word): (r: Word)
      requires Ready()
      reads FSb, RSb, FT, RT, RCON
      ensures r == XorW(Word(S(a.b0), S(b.b1), S(c.b2), S(d.b3)), k)
    {
      XorWCommutes(k, Word(S(a.b0), S(b.b1), S(c.b2), S(d.b3)));
      XorW(k, Word(S(a.b0), S(b.b1), S(c.b2), S(d.b3)))
    }

    function LastReverse(k: Word, a: Word, b: Word, c: Word, d: Word): (r: Word)
      requires Ready()
      reads FSb, RSb, FT, RT, RCON
      ensures r == XorW(Word(R(a.b0), R(b.b1), R(c.b2), R(d.b3)), k)
    {
      XorWCommutes(k, Word(R(a.b0), R(b.b1), R(c.b2), R(d.b3)));
      XorW(k, Word(R(a.b0), R(b.b1), R(c.b2), R(d.b3)))
    }

    /** A word of the decryption key schedule: the reverse tables applied to FSb. */
    function Unmixed(w: Word): (r: Word)
      requires Ready()
      reads FSb, RSb, FT, RT, RCON
      ensures r == InvMixW(w)
    {
      var z := Word(0, 0, 0, 0);
      ReverseMixes(z, R(S(w.b0)), R(S(w.b1)), R(S(w.b2)), R(S(w.b3)));
      Undone(w);
      ZeroWord(RT[0, S(w.b0) as int]);
      ZeroWord(InvMixW(w));
      XorW(XorW(XorW(RT[0, S(w.b0) as int], RT[1, S(w.b1) as int]), RT[2, S(w.b2) as int]), RT[3, S(w.b3) as int])
    }

    lemma Undone(w: Word)
      requires Ready()
      ensures Word(R(S(w.b0)), R(S(w.b1)), R(S(w.b2)), R(S(w.b3))) == w
    {
      hide At;
    }

    /** The tables before aes_gen_tables. */
    constructor ()
      ensures Shape() && fresh(FSb) && fresh(RSb) && fresh(FT) && fresh(RT) && fresh(RCON)
    {
      FSb, RSb, RCON := new bv8[256], new bv8[256], new bv8[10];
      FT, RT := new Word[4, 256], new Word[4, 256];
    }

    /** aes_gen_tables. */
    method GenTables()
      requires Shape()
      modifies FSb, RSb, FT, RT, RCON
      ensures Ready()
      ensures forall x: bv8 {:trigger S(x)} :: S(x) == SubByte(x)
    {
      var pow, log := GenLogs();
      GenConstants();
      GenBoxes(pow, log);
      GenRounds(pow, log);
    }

    /** The pow and log tables. log[1] is 255 in the end, and log[0] is never set. */
    method GenLogs() returns (pow: array<bv8>, log: array<nat>)
      ensures fresh(pow) && fresh(log) && pow.Length == 256 && log.Length == 256 && Logs(pow[..], log[..])
    {
      hide Repeat, Mul3, Power3, Logs, LogsBelow, Double, Add;
      pow, log := new bv8[256], new nat[256];
      var x: bv8 := 1;
      PowerOne3();
      LogsBegin(pow[..], log[..]);
      for i: nat := 0 to 256
        invariant x == Power3(i) && LogsBelow(pow[..], log[..], i)
      {
        LogsStep(pow[..], log[..], i);
        pow[i] := x;
        log[x as int] := i;
        x := Add(x, Double(x));
        NextPower(i);
      }
      LogsComplete(pow[..], log[..]);
    }

    /** The round constants. */
    method GenConstants()
      requires Shape()
      modifies RCON
      ensures forall i: nat {:trigger RCON[i]} :: i < 10 ==> RCON[i] == Rcon(i + 1)
    {
      hide Double;
      var x: bv8 := 1;
      for i := 0 to 10
        invariant x == Rcon(i + 1)
        invariant forall k: nat {:trigger RCON[k]} :: k < i ==> RCON[k] == Rcon(k + 1)
      {
        RCON[i] := x;
        x := Double(x);
      }
    }

    /** The forward and reverse S-boxes. */
    method GenBoxes(pow: array<bv8>, log: array<nat>)
      requires Shape() && pow.Length == 256 && log.Length == 256 && Logs(pow[..], log[..])
      requires pow != FSb && pow != RSb && log as object != FSb && log as object != RSb
      modifies FSb, RSb
      ensures Inverse(FSb[..], RSb[..])
      ensures forall x: bv8 {:trigger At(FSb[..], x)} :: At(FSb[..], x) == SubByte(x)
    {
      hide Logs, SubByte, BoxesBelow, Inverse, At, Add, Rotl1, LogOf, Inverted;
      FSb[0] := 0x63;
      RSb[0x63] := 0;
      BoxesBegin(FSb[..], RSb[..]);
      for i: nat := 1 to 256
        invariant pow[..] == old(pow[..]) && log[..] == old(log[..])
        invariant BoxesBelow(FSb[..], RSb[..], i)
      {
        var b := i as bv8;
        assert b as int == i;
        Substituted(pow[..], log[..], b);
        var x := pow[255 - log[i]];
        var y := Rotl1(x);
        x := Add(x, y);
        y := Rotl1(y);
        x := Add(x, y);
        y := Rotl1(y);
        x := Add(x, y);
        y := Rotl1(y);
        x := Add(x, Add(y, 0x63));
        BoxesStep(FSb[..], RSb[..], b, x);
        FSb[i] := x;
        RSb[x as int] := b;
      }
      BoxesComplete(FSb[..], RSb[..]);
    }

    /** The forward and reverse tables. */
    method GenRounds(pow: array<bv8>, log: array<nat>)
      requires Shape() && pow.Length == 256 && log.Length == 256 && Logs(pow[..], log[..])
      modifies FT, RT
      ensures forall k: nat, i: nat {:trigger FT[k, i]} :: k < 4 && i < 256 ==> FT[k, i] == ForwardEntry(k, FSb[i])
      ensures forall k: nat, i: nat {:trigger RT[k, i]} :: k < 4 && i < 256 ==> RT[k, i] == ReverseEntry(k, RSb[i])
    {
      hide ForwardEntry, ReverseEntry, Logs;
      for i := 0 to 256
        invariant forall k: nat, j: nat {:trigger FT[k, j]} :: k < 4 && j < i ==> FT[k, j] == ForwardEntry(k, FSb[j])
        invariant forall k: nat, j: nat {:trigger RT[k, j]} :: k < 4 && j < i ==> RT[k, j] == ReverseEntry(k, RSb[j])
      {
        GenForward(i);
        GenReverse(pow, log, i);
      }
    }

    method GenForward(i: nat)
      requires Shape() && i < 256
      modifies FT
      ensures forall k: nat {:trigger FT[k, i]} :: k < 4 ==> FT[k, i] == ForwardEntry(k, FSb[i])
      ensures forall k: nat, j: nat {:trigger FT[k, j]} :: k < 4 && j < 256 && j != i ==> FT[k, j] == old(FT[k, j])
    {
      hide Double, Mul3, Add;
      var x := FSb[i];
      var y := Double(x);
      var z := Add(y, x);
      ForwardEntries(x);
      MulThree(x);
      FT[0, i] := Word(y, x, x, z);
      FT[1, i] := Rotl8(FT[0, i]);
      FT[2, i] := Rotl8(FT[1, i]);
      FT[3, i] := Rotl8(FT[2, i]);
    }

    method GenReverse(pow: array<bv8>, log: array<nat>, i: nat)
      requires Shape() && pow.Length == 256 && log.Length == 256 && Logs(pow[..], log[..]) && i < 256
      modifies RT
      ensures forall k: nat {:trigger RT[k, i]} :: k < 4 ==> RT[k, i] == ReverseEntry(k, RSb[i])
      ensures forall k: nat, j: nat {:trigger RT[k, j]} :: k < 4 && j < 256 && j != i ==> RT[k, j] == old(RT[k, j])
    {
      hide Mul9, Mul11, Mul13, Mul14, Product, Power3, Logs;
      var x := RSb[i];
      ReverseEntries(x);
      ConstantProducts(x);
      RT[0, i] := Word(MUL(pow, log, 0x0e, x), MUL(pow, log, 0x09, x), MUL(pow, log, 0x0d, x), MUL(pow, log, 0x0b, x));
      RT[1, i] := Rotl8(RT[0, i]);
      RT[2, i] := Rotl8(RT[1, i]);
      RT[3, i] := Rotl8(RT[2, i]);
    }
  }

  /** pow and log are the powers of 3 and their exponents. */
  ghost predicate Logs(pow: seq<bv8>, log: seq<nat>) {
    && |pow| == 256 && |log| == 256
    && (forall n: nat {:trigger pow[n]} :: n < 256 ==> pow[n] == Power3(n))
    && (forall v: bv8 {:trigger LogOf(log, v)} :: v != 0 ==> LogOf(log, v) <= 255 && Power3(LogOf(log, v)) == v)
  }

  function LogOf(log: seq<nat>, v: bv8): nat
    requires |log| == 256
  {
    log[v as int]
  }

  /** The two tables after i steps. */
  ghost predicate LogsBelow(pow: seq<bv8>, log: seq<nat>, i: nat) {
    && |pow| == 256 && |log| == 256
    && (forall n: nat {:trigger pow[n]} :: n < i && n < 256 ==> pow[n] == Power3(n))
    && (forall n: nat {:trigger Power3(n)} :: n < i ==>
          LogOf(log, Power3(n)) < i && Power3(LogOf(log, Power3(n))) == Power3(n))
  }

  lemma LogsBegin(pow: seq<bv8>, log: seq<nat>)
    requires |pow| == 256 && |log| == 256
    ensures LogsBelow(pow, log, 0)
  {
    hide Power3, LogOf;
  }

  lemma LogsStep(pow: seq<bv8>, log: seq<nat>, i: nat)
    requires LogsBelow(pow, log, i) && i < 256
    ensures LogsBelow(pow[i := Power3(i)], log[Power3(i) as int := i], i + 1)
  {
    hide Power3;
    var x := Power3(i);
    var after := log[x as int := i];
    forall n: nat | n < i + 1 ensures LogOf(after, Power3(n)) < i + 1 && Power3(LogOf(after, Power3(n))) == Power3(n) {
      if Power3(n) as int != x as int {
        assert LogOf(after, Power3(n)) == LogOf(log, Power3(n)) && n < i;
      }
    }
  }

  lemma LogsComplete(pow: seq<bv8>, log: seq<nat>)
    requires LogsBelow(pow, log, 256)
    ensures Logs(pow, log)
  {
    hide Power3, LogOf;
    forall v: bv8 {:trigger LogOf(log, v)} | v != 0
      ensures LogOf(log, v) <= 255 && Power3(LogOf(log, v)) == v
    {
      var n := PowerFor(v);
    }
  }

  /** The two boxes after the bytes below i. */
  ghost predicate BoxesBelow(fwd: Box, rev: Box, i: nat) {
    forall v: bv8 {:trigger At(fwd, v)} :: Below(v, i) ==> At(fwd, v) == SubByte(v) && At(rev, At(fwd, v)) == v
  }

  predicate Below(v: bv8, i: nat) {
    (v as int) < i
  }

  /** The box with another entry for x. */
  function Set(box: Box, x: bv8, y: bv8): Box {
    box[x as int := y]
  }

  lemma BoxesStep(fwd: Box, rev: Box, b: bv8, x: bv8)
    requires BoxesBelow(fwd, rev, b as int) && SubByte(b) == x
    ensures BoxesBelow(Set(fwd, b, x), Set(rev, x, b), b as int + 1)
  {
    hide SubByte, At, Below, Set, Inverted, Affine;
    var f, r, i := Set(fwd, b, x), Set(rev, x, b), b as int;
    forall v: bv8 {:trigger At(f, v)} | Below(v, i + 1)
      ensures At(f, v) == SubByte(v) && At(r, At(f, v)) == v
    {
      AtUpdated(fwd, b, x, v);
      AtUpdated(rev, x, b, At(f, v));
      if v != b {
        StillBelow(v, b);
        if SubByte(v) == x {
          SubByteInjective(v, b);
        }
      }
    }
  }

  lemma StillBelow(v: bv8, b: bv8)
    requires Below(v, b as int + 1) && v != b
    ensures Below(v, b as int)
  {
    if v as int == b as int {
      SameByte(v, b);
    }
  }

  lemma AtUpdated(box: Box, x: bv8, y: bv8, z: bv8)
    ensures At(Set(box, x, y), z) == if z == x then y else At(box, z)
  {
    if z as int == x as int {
      SameByte(z, x);
    }
  }

  lemma SameByte(v: bv8, b: bv8)
    requires v as int == b as int
    ensures v == b
  {
  }

  lemma BoxesComplete(fwd: Box, rev: Box)
    requires BoxesBelow(fwd, rev, 256)
    ensures Inverse(fwd, rev) && forall x: bv8 {:trigger At(fwd, x)} :: At(fwd, x) == SubByte(x)
  {
    hide At, SubByte;
  }

  /** The boxes before the loop. */
  lemma BoxesBegin(fwd: Box, rev: Box)
    requires fwd[0] == 0x63 && rev[0x63] == 0
    ensures BoxesBelow(fwd, rev, 1)
  {
    hide SubByte, At, Below, Inverted, Affine;
    FirstEntries(fwd, rev);
    SubByteEntries();
    forall v: bv8 {:trigger At(fwd, v)} | Below(v, 1)
      ensures At(fwd, v) == SubByte(v) && At(rev, At(fwd, v)) == v
    {
      OnlyZero(v);
    }
  }

  lemma FirstEntries(fwd: Box, rev: Box)
    requires fwd[0] == 0x63 && rev[0x63] == 0
    ensures At(fwd, 0) == 0x63 && At(rev, 0x63) == 0
  {
  }

  lemma OnlyZero(v: bv8)
    requires Below(v, 1)
    ensures v == 0
  {
  }

  /** The inverse by logarithms, substituted. */
  lemma Substituted(pow: seq<bv8>, log: seq<nat>, b: bv8)
    requires |pow| == 256 && |log| == 256 && Logs(pow, log) && b != 0
    ensures log[b as int] <= 255 && SubByte(b) == Affine(pow[255 - log[b as int]])
  {
    hide Power3, Product, Affine;
    assert LogOf(log, b) == log[b as int];
    InvertedByLog(log[b as int]);
    SubByteIs(b, pow[255 - log[b as int]]);
  }

  /** MUL */
  function MUL(pow: array<bv8>, log: array<nat>, x: bv8, y: bv8): (r: bv8)
    requires pow.Length == 256 && log.Length == 256 && Logs(pow[..], log[..])
    reads pow, log
    ensures r == Product(x, y)
  {
    hide Product, Power3;
    if x != 0 && y != 0 then
      var n := LogOf(log[..], x) + LogOf(log[..], y);
      Modulo255(n);
      ProductOfPowers(LogOf(log[..], x), LogOf(log[..], y));
      pow[n % 255]
    else
      ProductByZero(x, y);
      0
  }

  lemma NextPower(n: nat)
    ensures Power3(n + 1) == Add(Power3(n), Double(Power3(n)))
  {
    hide Double, Add;
    AddLaws(Power3(n), Double(Power3(n)), 0);
  }

  lemma XorWCommutes(a: Word, b: Word)
    ensures XorW(a, b) == XorW(b, a)
  {
    hide Add;
    AddLaws(a.b0, b.b0, 0);
    AddLaws(a.b1, b.b1, 0);
    AddLaws(a.b2, b.b2, 0);
    AddLaws(a.b3, b.b3, 0);
  }

  lemma ZeroWord(a: Word)
    ensures XorW(Word(0, 0, 0, 0), a) == a && XorW(a, Word(0, 0, 0, 0)) == a
  {
    hide Add;
    AddLaws(a.b0, 0, 0);
    AddLaws(a.b1, 0, 0);
    AddLaws(a.b2, 0, 0);
    AddLaws(a.b3, 0, 0);
  }

  lemma MulThree(x: bv8)
    ensures Mul3(x) == Add(Double(x), x)
  {
  }
}
