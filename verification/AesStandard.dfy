/** What FIPS-197 asks of AES, byte by byte: the key expansion (section 5.2), a round of the
    cipher (section 5.1). */
module AesStandard {
  import opened Gf256
  import opened Aes
  import opened AesField

  /** The box holds the S-box of the standard. */
  ghost predicate Fips(fwd: Box) {
    forall x: bv8 {:trigger At(fwd, x)} :: At(fwd, x) == SubByte(x)
  }

  function Column(s: State, c: nat): Word
    requires c < 4
  {
    match c case 0 => s.c0 case 1 => s.c1 case 2 => s.c2 case _ => s.c3
  }

  // ----- the key expansion -----

  /** Word i of a schedule: column i % 4 of round key i / 4. */
  function ScheduleWord(keys: seq<State>, i: nat): Word
    requires i / 4 < |keys|
  {
    Column(keys[i / 4], i % 4)
  }

  /** The powers of 2 that the round constants are. */
  function RoundConstant(n: nat): bv8 {
    match n
    case 1 => 0x01 case 2 => 0x02 case 3 => 0x04 case 4 => 0x08 case 5 => 0x10
    case 6 => 0x20 case 7 => 0x40 case 8 => 0x80 case 9 => 0x1b case 10 => 0x36
    case _ => 0
  }

  lemma RoundConstants()
    ensures Rcon(1) == 0x01 && Rcon(2) == 0x02 && Rcon(3) == 0x04 && Rcon(4) == 0x08 && Rcon(5) == 0x10
    ensures Rcon(6) == 0x20 && Rcon(7) == 0x40 && Rcon(8) == 0x80 && Rcon(9) == 0x1b && Rcon(10) == 0x36
  {
  }

  lemma RoundConstantIs(n: nat)
    requires 1 <= n <= 10
    ensures Rcon(n) == RoundConstant(n)
  {
    RoundConstants();
    hide Rcon;
  }

  lemma FourColumns(fwd: Box, key: seq<Word>, r: nat, c: nat)
    requires 0 < |key| && c < 4
    ensures Column(RoundKey(fwd, key, r), c) == KeyWord(fwd, key, 4 * r + c)
  {
    hide KeyWord;
  }

  lemma ScheduleWordIs(fwd: Box, key: seq<Word>, i: nat)
    requires 0 < |key| && i < 4 * (|key| + 7)
    ensures i / 4 < |key| + 7 && ScheduleWord(KeySchedule(fwd, key), i) == KeyWord(fwd, key, i)
  {
    hide KeyWord, Column, RoundKey;
    FourColumns(fwd, key, i / 4, i % 4);
    assert KeySchedule(fwd, key)[i / 4] == RoundKey(fwd, key, i / 4);
    assert i == 4 * (i / 4) + i % 4;
  }

  /** The words of the key come first. */
  lemma ScheduleStart(fwd: Box, key: seq<bv8>, i: nat)
    requires 0 < |key| / 4 && i < |key| / 4
    ensures |WordsOf(key)| == |key| / 4 && ScheduleWord(KeySchedule(fwd, WordsOf(key)), i) == Word(key[4 * i], key[4 * i + 1], key[4 * i + 2], key[4 * i + 3])
  {
    hide ScheduleWord;
    ScheduleWordIs(fwd, WordsOf(key), i);
    assert WordsOf(key)[i] == WordAt(key, 4 * i);
  }

  /** Byte by byte, a word w of the schedule from the word p that is nk places back and the
      word l before it, at a multiple of nk: the bytes of l one place around and substituted,
      and a power of 2 on the first. */
  ghost predicate TurnedBytes(w: Word, p: Word, l: Word, n: nat) {
    && w.b0 == Add(p.b0, Add(SubByte(l.b1), RoundConstant(n))) && w.b1 == Add(p.b1, SubByte(l.b2))
    && w.b2 == Add(p.b2, SubByte(l.b3)) && w.b3 == Add(p.b3, SubByte(l.b0))
  }

  /** In the middle of a long key: the bytes of l substituted. */
  ghost predicate SubstitutedBytes(w: Word, p: Word, l: Word) {
    && w.b0 == Add(p.b0, SubByte(l.b0)) && w.b1 == Add(p.b1, SubByte(l.b1))
    && w.b2 == Add(p.b2, SubByte(l.b2)) && w.b3 == Add(p.b3, SubByte(l.b3))
  }

  ghost predicate AddedBytes(w: Word, p: Word, l: Word) {
    w.b0 == Add(p.b0, l.b0) && w.b1 == Add(p.b1, l.b1) && w.b2 == Add(p.b2, l.b2) && w.b3 == Add(p.b3, l.b3)
  }

  lemma Turned(fwd: Box, p: Word, l: Word, n: nat)
    requires Fips(fwd) && 1 <= n <= 10
    ensures TurnedBytes(XorW(p, XorW(SubW(fwd, RotW(l)), Word(Rcon(n), 0, 0, 0))), p, l, n)
  {
    hide SubByte, At, Add, Rcon, RoundConstant;
    RoundConstantIs(n);
    AddLaws(SubByte(l.b2), 0, 0);
    AddLaws(SubByte(l.b3), 0, 0);
    AddLaws(SubByte(l.b0), 0, 0);
  }

  lemma Substituted(fwd: Box, p: Word, l: Word)
    requires Fips(fwd)
    ensures SubstitutedBytes(XorW(p, SubW(fwd, l)), p, l)
  {
    hide SubByte, At, Add;
  }

  lemma Added(p: Word, l: Word)
    ensures AddedBytes(XorW(p, l), p, l)
  {
    hide Add;
  }

  lemma ConstantsInRange(nk: nat, i: nat)
    requires (nk == 4 || nk == 6 || nk == 8) && nk <= i < 4 * (nk + 7)
    ensures 1 <= i / nk <= 10
  {
  }

  /** The key expansion (section 5.2): every word after the key. */
  lemma ScheduleBytes(fwd: Box, key: seq<Word>, i: nat)
    requires Fips(fwd) && (|key| == 4 || |key| == 6 || |key| == 8) && |key| <= i < 4 * (|key| + 7)
    ensures
      var keys, nk := KeySchedule(fwd, key), |key|;
      var w, p, l := ScheduleWord(keys, i), ScheduleWord(keys, i - nk), ScheduleWord(keys, i - 1);
      && (i % nk == 0 ==> TurnedBytes(w, p, l, i / nk))
      && (nk == 8 && i % nk == 4 ==> SubstitutedBytes(w, p, l))
      && (i % nk != 0 && !(nk == 8 && i % nk == 4) ==> AddedBytes(w, p, l))
  {
    hide XorW, SubW, RotW, Rcon, TurnedBytes, SubstitutedBytes, AddedBytes, Fips, ScheduleWord, KeySchedule;
    var nk := |key|;
    ScheduleWordIs(fwd, key, i);
    ScheduleWordIs(fwd, key, i - nk);
    ScheduleWordIs(fwd, key, i - 1);
    var p, l := KeyWord(fwd, key, i - nk), KeyWord(fwd, key, i - 1);
    ConstantsInRange(nk, i);
    Turned(fwd, p, l, i / nk);
    Substituted(fwd, p, l);
    Added(p, l);
  }

  // ----- a round -----

  /** Column c as a round mixes it: row r is the substitute of the byte r columns on. */
  ghost function Moved(s: State, c: nat): Word
    requires c < 4
  {
    Word(SubByte(Column(s, c).b0), SubByte(Column(s, (c + 1) % 4).b1),
         SubByte(Column(s, (c + 2) % 4).b2), SubByte(Column(s, (c + 3) % 4).b3))
  }

  lemma ShiftedColumn(s: State, c: nat)
    requires c < 4
    ensures Column(ShiftRows(s), c) ==
              Word(Column(s, c).b0, Column(s, (c + 1) % 4).b1, Column(s, (c + 2) % 4).b2, Column(s, (c + 3) % 4).b3)
  {
    if c == 0 {
    } else if c == 1 {
    } else if c == 2 {
    } else {
    }
  }

  lemma SubColumn(fwd: Box, s: State, c: nat)
    requires c < 4
    ensures Column(SubS(fwd, s), c) == SubW(fwd, Column(s, c))
  {
    hide SubW;
  }

  lemma MovedIs(fwd: Box, s: State, c: nat)
    requires Fips(fwd) && c < 4
    ensures Column(ShiftRows(SubS(fwd, s)), c) == Moved(s, c)
  {
    hide SubByte, At, Column, SubS, ShiftRows;
    ShiftedColumn(SubS(fwd, s), c);
    SubColumn(fwd, s, c);
    SubColumn(fwd, s, (c + 1) % 4);
    SubColumn(fwd, s, (c + 2) % 4);
    SubColumn(fwd, s, (c + 3) % 4);
  }

  lemma TermsTwoThree(y: bv8, y1: bv8, y2: bv8, y3: bv8, y4: bv8, y5: bv8, y6: bv8, y7: bv8)
    ensures Terms(2, y, y1, y2, y3, y4, y5, y6, y7) == y1 && Terms(3, y, y1, y2, y3, y4, y5, y6, y7) == Add(y1, y)
  {
    hide Gate, Add;
    Gates(y); Gates(y1); Gates(y2); Gates(y3); Gates(y4); Gates(y5); Gates(y6); Gates(y7);
    AddLaws(y, y1, 0);
    AddLaws(y1, 0, 0);
    AddLaws(Add(y1, y), 0, 0);
    AddLaws(0, y1, 0);
  }

  lemma Gates(y: bv8)
    ensures Gate(2 & 1, y) == 0 && Gate(2 & 2, y) == y && Gate(3 & 1, y) == y && Gate(3 & 2, y) == y
    ensures Gate(2 & 4, y) == 0 && Gate(2 & 8, y) == 0 && Gate(2 & 16, y) == 0 && Gate(2 & 32, y) == 0
    ensures Gate(2 & 64, y) == 0 && Gate(2 & 128, y) == 0 && Gate(3 & 4, y) == 0 && Gate(3 & 8, y) == 0
    ensures Gate(3 & 16, y) == 0 && Gate(3 & 32, y) == 0 && Gate(3 & 64, y) == 0 && Gate(3 & 128, y) == 0
  {
  }

  lemma MulsAre(y: bv8)
    ensures Product(2, y) == Double(y) && Product(3, y) == Mul3(y)
  {
    hide Double, Terms, Add;
    var y1 := Double(y); var y2 := Double(y1); var y3 := Double(y2);
    var y4 := Double(y3); var y5 := Double(y4); var y6 := Double(y5); var y7 := Double(y6);
    TermsTwoThree(y, y1, y2, y3, y4, y5, y6, y7);
  }

  /** A byte of a mixed column: 2a + 3b + c + d (section 5.1.3). */
  function Mixed(a: bv8, b: bv8, c: bv8, d: bv8): bv8 {
    Add(Add(Product(2, a), Product(3, b)), Add(c, d))
  }

  lemma MixedIs(w: Word)
    ensures MixW(w) == Word(Mixed(w.b0, w.b1, w.b2, w.b3), Mixed(w.b1, w.b2, w.b3, w.b0),
                            Mixed(w.b2, w.b3, w.b0, w.b1), Mixed(w.b3, w.b0, w.b1, w.b2))
  {
    hide Add, Product, Double, Mul3;
    MulsAre(w.b0);
    MulsAre(w.b1);
    MulsAre(w.b2);
    MulsAre(w.b3);
  }

  /** Round n of the cipher (section 5.1), byte by byte: the bytes of a column, each from its
      own column of the state before and substituted, are mixed, and the key is added. */
  lemma RoundBytes(fwd: Box, keys: seq<State>, s: State, n: nat, c: nat)
    requires Fips(fwd) && 0 < n < |keys| && c < 4
    ensures
      var m, k, w := Moved(Rounds(fwd, keys, s, n - 1), c), Column(keys[n], c), Column(Rounds(fwd, keys, s, n), c);
      && w.b0 == Add(Mixed(m.b0, m.b1, m.b2, m.b3), k.b0) && w.b1 == Add(Mixed(m.b1, m.b2, m.b3, m.b0), k.b1)
      && w.b2 == Add(Mixed(m.b2, m.b3, m.b0, m.b1), k.b2) && w.b3 == Add(Mixed(m.b3, m.b0, m.b1, m.b2), k.b3)
  {
    hide SubS, ShiftRows, MixW, Moved, Mixed, Add, Fips;
    var t := Rounds(fwd, keys, s, n - 1);
    MovedIs(fwd, t, c);
    MixedIs(Moved(t, c));
  }

  /** Before the first round the key is added; the last round does not mix. */
  lemma EndBytes(fwd: Box, keys: seq<State>, s: State, c: nat)
    requires Fips(fwd) && |keys| >= 2 && c < 4
    ensures AddedBytes(Column(Rounds(fwd, keys, s, 0), c), Column(s, c), Column(keys[0], c))
    ensures
      var n := |keys| - 1;
      AddedBytes(Column(Cipher(fwd, keys, s), c), Moved(Rounds(fwd, keys, s, n - 1), c), Column(keys[n], c))
  {
    hide SubS, ShiftRows, Moved, Add, Fips;
    MovedIs(fwd, Rounds(fwd, keys, s, |keys| - 2), c);
  }

  /** Row r of column c is byte 4c + r of a block (section 3.4). */
  lemma BlockBytes(b: Block, s: State, c: nat)
    requires c < 4
    ensures Column(ToState(b), c) == Word(b[4 * c], b[4 * c + 1], b[4 * c + 2], b[4 * c + 3])
    ensures FromState(s)[4 * c..4 * c + 4] == Bytes(Column(s, c))
  {
    if c == 0 {
    } else if c == 1 {
    } else if c == 2 {
    } else {
    }
  }
}
