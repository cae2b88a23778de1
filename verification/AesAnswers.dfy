/** Known answers: the key expansions of appendix A of FIPS-197 and the block of appendix B. */
module AesAnswers {
  import opened Aes
  import opened AesField
  import opened AesBoxes
  import opened AesStandard

  lemma SubWordIs(fwd: Box, w: Word, t: Word)
    requires Fips(fwd)
    requires SubByte(w.b0) == t.b0 && SubByte(w.b1) == t.b1 && SubByte(w.b2) == t.b2 && SubByte(w.b3) == t.b3
    ensures SubW(fwd, w) == t
  {
    hide SubByte, At;
  }

  // ----- a key of 128 bits (appendix A.1) -----

  const KEY128: seq<bv8> := [0x2b, 0x7e, 0x15, 0x16, 0x28, 0xae, 0xd2, 0xa6, 0xab, 0xf7, 0x15, 0x88, 0x09, 0xcf, 0x4f, 0x3c]

  lemma Key128(fwd: Box)
    ensures |WordsOf(KEY128)| == 4 && RoundKey(fwd, WordsOf(KEY128), 0) == State(Word(0x2b, 0x7e, 0x15, 0x16), Word(0x28, 0xae, 0xd2, 0xa6), Word(0xab, 0xf7, 0x15, 0x88), Word(0x09, 0xcf, 0x4f, 0x3c))
  {
    assert WordsOf(KEY128) == [Word(0x2b, 0x7e, 0x15, 0x16), Word(0x28, 0xae, 0xd2, 0xa6), Word(0xab, 0xf7, 0x15, 0x88), Word(0x09, 0xcf, 0x4f, 0x3c)];
  }

  lemma NextFour(fwd: Box, key: seq<Word>, r: nat)
    requires |key| == 4 && r > 0
    ensures KeyWord(fwd, key, 4 * r) ==
              XorW(KeyWord(fwd, key, 4 * r - 4), XorW(SubW(fwd, RotW(KeyWord(fwd, key, 4 * r - 1))), Word(Rcon(r), 0, 0, 0)))
    ensures KeyWord(fwd, key, 4 * r + 1) == XorW(KeyWord(fwd, key, 4 * r - 3), KeyWord(fwd, key, 4 * r))
    ensures KeyWord(fwd, key, 4 * r + 2) == XorW(KeyWord(fwd, key, 4 * r - 2), KeyWord(fwd, key, 4 * r + 1))
    ensures KeyWord(fwd, key, 4 * r + 3) == XorW(KeyWord(fwd, key, 4 * r - 1), KeyWord(fwd, key, 4 * r + 2))
  {
    hide SubW, RotW, XorW, Rcon;
    assert 4 * r % 4 == 0 && 4 * r / 4 == r && (4 * r + 1) % 4 == 1 && (4 * r + 2) % 4 == 2 && (4 * r + 3) % 4 == 3;
  }

  /** From one round key to the next. */
  lemma NextRoundKey(fwd: Box, key: seq<Word>, r: nat, s: State, sub: Word, c: bv8)
    requires |key| == 4 && r > 0 && RoundKey(fwd, key, r - 1) == s && SubW(fwd, RotW(s.c3)) == sub && Rcon(r) == c
    ensures
      var a := XorW(s.c0, XorW(sub, Word(c, 0, 0, 0))); var b := XorW(s.c1, a); var d := XorW(s.c2, b);
      RoundKey(fwd, key, r) == State(a, b, d, XorW(s.c3, d))
  {
    hide SubW, RotW, XorW, Rcon;
    NextFour(fwd, key, r);
  }

  lemma Key128Round1(fwd: Box)
    requires Fips(fwd)
    ensures |WordsOf(KEY128)| == 4 && RoundKey(fwd, WordsOf(KEY128), 1) == State(Word(0xa0, 0xfa, 0xfe, 0x17), Word(0x88, 0x54, 0x2c, 0xb1), Word(0x23, 0xa3, 0x39, 0x39), Word(0x2a, 0x6c, 0x76, 0x05))
  {
    hide Fips, SubByte, SubW, RoundKey, WordsOf, KEY128, Rcon;
    Key128(fwd);
    RoundConstants();
    Row0(); Row3(); Row4(); RowC();
    SubWordIs(fwd, Word(0xcf, 0x4f, 0x3c, 0x09), Word(0x8a, 0x84, 0xeb, 0x01));
    NextRoundKey(fwd, WordsOf(KEY128), 1, State(Word(0x2b, 0x7e, 0x15, 0x16), Word(0x28, 0xae, 0xd2, 0xa6), Word(0xab, 0xf7, 0x15, 0x88), Word(0x09, 0xcf, 0x4f, 0x3c)), Word(0x8a, 0x84, 0xeb, 0x01), 0x01);
  }

  lemma Key128Round2(fwd: Box)
    requires Fips(fwd)
    ensures |WordsOf(KEY128)| == 4 && RoundKey(fwd, WordsOf(KEY128), 2) == State(Word(0xf2, 0xc2, 0x95, 0xf2), Word(0x7a, 0x96, 0xb9, 0x43), Word(0x59, 0x35, 0x80, 0x7a), Word(0x73, 0x59, 0xf6, 0x7f))
  {
    hide Fips, SubByte, SubW, RoundKey, WordsOf, KEY128, Rcon;
    Key128Round1(fwd);
    RoundConstants();
    Row0(); Row2(); Row6(); Row7();
    SubWordIs(fwd, Word(0x6c, 0x76, 0x05, 0x2a), Word(0x50, 0x38, 0x6b, 0xe5));
    NextRoundKey(fwd, WordsOf(KEY128), 2, State(Word(0xa0, 0xfa, 0xfe, 0x17), Word(0x88, 0x54, 0x2c, 0xb1), Word(0x23, 0xa3, 0x39, 0x39), Word(0x2a, 0x6c, 0x76, 0x05)), Word(0x50, 0x38, 0x6b, 0xe5), 0x02);
  }

  lemma Key128Round3(fwd: Box)
    requires Fips(fwd)
    ensures |WordsOf(KEY128)| == 4 && RoundKey(fwd, WordsOf(KEY128), 3) == State(Word(0x3d, 0x80, 0x47, 0x7d), Word(0x47, 0x16, 0xfe, 0x3e), Word(0x1e, 0x23, 0x7e, 0x44), Word(0x6d, 0x7a, 0x88, 0x3b))
  {
    hide Fips, SubByte, SubW, RoundKey, WordsOf, KEY128, Rcon;
    Key128Round2(fwd);
    RoundConstants();
    Row5(); Row7(); RowF();
    SubWordIs(fwd, Word(0x59, 0xf6, 0x7f, 0x73), Word(0xcb, 0x42, 0xd2, 0x8f));
    NextRoundKey(fwd, WordsOf(KEY128), 3, State(Word(0xf2, 0xc2, 0x95, 0xf2), Word(0x7a, 0x96, 0xb9, 0x43), Word(0x59, 0x35, 0x80, 0x7a), Word(0x73, 0x59, 0xf6, 0x7f)), Word(0xcb, 0x42, 0xd2, 0x8f), 0x04);
  }

  lemma Key128Round4(fwd: Box)
    requires Fips(fwd)
    ensures |WordsOf(KEY128)| == 4 && RoundKey(fwd, WordsOf(KEY128), 4) == State(Word(0xef, 0x44, 0xa5, 0x41), Word(0xa8, 0x52, 0x5b, 0x7f), Word(0xb6, 0x71, 0x25, 0x3b), Word(0xdb, 0x0b, 0xad, 0x00))
  {
    hide Fips, SubByte, SubW, RoundKey, WordsOf, KEY128, Rcon;
    Key128Round3(fwd);
    RoundConstants();
    Row3(); Row6(); Row7(); Row8();
    SubWordIs(fwd, Word(0x7a, 0x88, 0x3b, 0x6d), Word(0xda, 0xc4, 0xe2, 0x3c));
    NextRoundKey(fwd, WordsOf(KEY128), 4, State(Word(0x3d, 0x80, 0x47, 0x7d), Word(0x47, 0x16, 0xfe, 0x3e), Word(0x1e, 0x23, 0x7e, 0x44), Word(0x6d, 0x7a, 0x88, 0x3b)), Word(0xda, 0xc4, 0xe2, 0x3c), 0x08);
  }

  lemma Key128Round5(fwd: Box)
    requires Fips(fwd)
    ensures |WordsOf(KEY128)| == 4 && RoundKey(fwd, WordsOf(KEY128), 5) == State(Word(0xd4, 0xd1, 0xc6, 0xf8), Word(0x7c, 0x83, 0x9d, 0x87), Word(0xca, 0xf2, 0xb8, 0xbc), Word(0x11, 0xf9, 0x15, 0xbc))
  {
    hide Fips, SubByte, SubW, RoundKey, WordsOf, KEY128, Rcon;
    Key128Round4(fwd);
    RoundConstants();
    Row0(); RowA(); RowD();
    SubWordIs(fwd, Word(0x0b, 0xad, 0x00, 0xdb), Word(0x2b, 0x95, 0x63, 0xb9));
    NextRoundKey(fwd, WordsOf(KEY128), 5, State(Word(0xef, 0x44, 0xa5, 0x41), Word(0xa8, 0x52, 0x5b, 0x7f), Word(0xb6, 0x71, 0x25, 0x3b), Word(0xdb, 0x0b, 0xad, 0x00)), Word(0x2b, 0x95, 0x63, 0xb9), 0x10);
  }

  lemma Key128Round6(fwd: Box)
    requires Fips(fwd)
    ensures |WordsOf(KEY128)| == 4 && RoundKey(fwd, WordsOf(KEY128), 6) == State(Word(0x6d, 0x88, 0xa3, 0x7a), Word(0x11, 0x0b, 0x3e, 0xfd), Word(0xdb, 0xf9, 0x86, 0x41), Word(0xca, 0x00, 0x93, 0xfd))
  {
    hide Fips, SubByte, SubW, RoundKey, WordsOf, KEY128, Rcon;
    Key128Round5(fwd);
    RoundConstants();
    Row1(); RowB(); RowF();
    SubWordIs(fwd, Word(0xf9, 0x15, 0xbc, 0x11), Word(0x99, 0x59, 0x65, 0x82));
    NextRoundKey(fwd, WordsOf(KEY128), 6, State(Word(0xd4, 0xd1, 0xc6, 0xf8), Word(0x7c, 0x83, 0x9d, 0x87), Word(0xca, 0xf2, 0xb8, 0xbc), Word(0x11, 0xf9, 0x15, 0xbc)), Word(0x99, 0x59, 0x65, 0x82), 0x20);
  }

  lemma Key128Round7(fwd: Box)
    requires Fips(fwd)
    ensures |WordsOf(KEY128)| == 4 && RoundKey(fwd, WordsOf(KEY128), 7) == State(Word(0x4e, 0x54, 0xf7, 0x0e), Word(0x5f, 0x5f, 0xc9, 0xf3), Word(0x84, 0xa6, 0x4f, 0xb2), Word(0x4e, 0xa6, 0xdc, 0x4f))
  {
    hide Fips, SubByte, SubW, RoundKey, WordsOf, KEY128, Rcon;
    Key128Round6(fwd);
    RoundConstants();
    Row0(); Row9(); RowC(); RowF();
    SubWordIs(fwd, Word(0x00, 0x93, 0xfd, 0xca), Word(0x63, 0xdc, 0x54, 0x74));
    NextRoundKey(fwd, WordsOf(KEY128), 7, State(Word(0x6d, 0x88, 0xa3, 0x7a), Word(0x11, 0x0b, 0x3e, 0xfd), Word(0xdb, 0xf9, 0x86, 0x41), Word(0xca, 0x00, 0x93, 0xfd)), Word(0x63, 0xdc, 0x54, 0x74), 0x40);
  }

  lemma Key128Round8(fwd: Box)
    requires Fips(fwd)
    ensures |WordsOf(KEY128)| == 4 && RoundKey(fwd, WordsOf(KEY128), 8) == State(Word(0xea, 0xd2, 0x73, 0x21), Word(0xb5, 0x8d, 0xba, 0xd2), Word(0x31, 0x2b, 0xf5, 0x60), Word(0x7f, 0x8d, 0x29, 0x2f))
  {
    hide Fips, SubByte, SubW, RoundKey, WordsOf, KEY128, Rcon;
    Key128Round7(fwd);
    RoundConstants();
    Row4(); RowA(); RowD();
    SubWordIs(fwd, Word(0xa6, 0xdc, 0x4f, 0x4e), Word(0x24, 0x86, 0x84, 0x2f));
    NextRoundKey(fwd, WordsOf(KEY128), 8, State(Word(0x4e, 0x54, 0xf7, 0x0e), Word(0x5f, 0x5f, 0xc9, 0xf3), Word(0x84, 0xa6, 0x4f, 0xb2), Word(0x4e, 0xa6, 0xdc, 0x4f)), Word(0x24, 0x86, 0x84, 0x2f), 0x80);
  }

  lemma Key128Round9(fwd: Box)
    requires Fips(fwd)
    ensures |WordsOf(KEY128)| == 4 && RoundKey(fwd, WordsOf(KEY128), 9) == State(Word(0xac, 0x77, 0x66, 0xf3), Word(0x19, 0xfa, 0xdc, 0x21), Word(0x28, 0xd1, 0x29, 0x41), Word(0x57, 0x5c, 0x00, 0x6e))
  {
    hide Fips, SubByte, SubW, RoundKey, WordsOf, KEY128, Rcon;
    Key128Round8(fwd);
    RoundConstants();
    Row2(); Row7(); Row8();
    SubWordIs(fwd, Word(0x8d, 0x29, 0x2f, 0x7f), Word(0x5d, 0xa5, 0x15, 0xd2));
    NextRoundKey(fwd, WordsOf(KEY128), 9, State(Word(0xea, 0xd2, 0x73, 0x21), Word(0xb5, 0x8d, 0xba, 0xd2), Word(0x31, 0x2b, 0xf5, 0x60), Word(0x7f, 0x8d, 0x29, 0x2f)), Word(0x5d, 0xa5, 0x15, 0xd2), 0x1b);
  }

  lemma Key128Round10(fwd: Box)
    requires Fips(fwd)
    ensures |WordsOf(KEY128)| == 4 && RoundKey(fwd, WordsOf(KEY128), 10) == State(Word(0xd0, 0x14, 0xf9, 0xa8), Word(0xc9, 0xee, 0x25, 0x89), Word(0xe1, 0x3f, 0x0c, 0xc8), Word(0xb6, 0x63, 0x0c, 0xa6))
  {
    hide Fips, SubByte, SubW, RoundKey, WordsOf, KEY128, Rcon;
    Key128Round9(fwd);
    RoundConstants();
    Row0(); Row5(); Row6();
    SubWordIs(fwd, Word(0x5c, 0x00, 0x6e, 0x57), Word(0x4a, 0x63, 0x9f, 0x5b));
    NextRoundKey(fwd, WordsOf(KEY128), 10, State(Word(0xac, 0x77, 0x66, 0xf3), Word(0x19, 0xfa, 0xdc, 0x21), Word(0x28, 0xd1, 0x29, 0x41), Word(0x57, 0x5c, 0x00, 0x6e)), Word(0x4a, 0x63, 0x9f, 0x5b), 0x36);
  }

  // ----- a block (appendix B) -----

  const PLAINTEXT: seq<bv8> := [0x32, 0x43, 0xf6, 0xa8, 0x88, 0x5a, 0x30, 0x8d, 0x31, 0x31, 0x98, 0xa2, 0xe0, 0x37, 0x07, 0x34]

  const CIPHERTEXT: seq<bv8> := [0x39, 0x25, 0x84, 0x1d, 0x02, 0xdc, 0x09, 0xfb, 0xdc, 0x11, 0x85, 0x97, 0x19, 0x6a, 0x0b, 0x32]

  ghost predicate Schedule128(fwd: Box, keys: seq<State>) {
    |WordsOf(KEY128)| == 4 && |keys| == 11 && forall r {:trigger keys[r]} :: 0 <= r <= 10 ==> keys[r] == RoundKey(fwd, WordsOf(KEY128), r)
  }

  lemma NextState(fwd: Box, keys: seq<State>, s: State, r: nat, before: State, k: State, sub: State)
    requires 0 < r < |keys| && Rounds(fwd, keys, s, r - 1) == before && keys[r] == k && SubS(fwd, before) == sub
    ensures Rounds(fwd, keys, s, r) == XorS(MixS(ShiftRows(sub)), k)
  {
    hide SubS, MixS, ShiftRows, XorS;
  }

  lemma Block128Round0(fwd: Box, keys: seq<State>, s: State)
    requires Fips(fwd) && Schedule128(fwd, keys) && s == State(Word(0x32, 0x43, 0xf6, 0xa8), Word(0x88, 0x5a, 0x30, 0x8d), Word(0x31, 0x31, 0x98, 0xa2), Word(0xe0, 0x37, 0x07, 0x34))
    ensures Rounds(fwd, keys, s, 0) == State(Word(0x19, 0x3d, 0xe3, 0xbe), Word(0xa0, 0xf4, 0xe2, 0x2b), Word(0x9a, 0xc6, 0x8d, 0x2a), Word(0xe9, 0xf8, 0x48, 0x08))
  {
    hide Fips, RoundKey, WordsOf, KEY128, SubS, MixS, ShiftRows;
    Key128(fwd);
    assert keys[0] == RoundKey(fwd, WordsOf(KEY128), 0);
  }

  lemma Block128Sub1(fwd: Box)
    requires Fips(fwd)
    ensures SubS(fwd, State(Word(0x19, 0x3d, 0xe3, 0xbe), Word(0xa0, 0xf4, 0xe2, 0x2b), Word(0x9a, 0xc6, 0x8d, 0x2a), Word(0xe9, 0xf8, 0x48, 0x08))) ==
              State(Word(0xd4, 0x27, 0x11, 0xae), Word(0xe0, 0xbf, 0x98, 0xf1), Word(0xb8, 0xb4, 0x5d, 0xe5), Word(0x1e, 0x41, 0x52, 0x30))
  {
    hide Fips, SubByte, SubW;
    assert SubW(fwd, Word(0x19, 0x3d, 0xe3, 0xbe)) == Word(0xd4, 0x27, 0x11, 0xae) by { Row1(); Row3(); RowB(); RowE(); SubWordIs(fwd, Word(0x19, 0x3d, 0xe3, 0xbe), Word(0xd4, 0x27, 0x11, 0xae)); }
    assert SubW(fwd, Word(0xa0, 0xf4, 0xe2, 0x2b)) == Word(0xe0, 0xbf, 0x98, 0xf1) by { Row2(); RowA(); RowE(); RowF(); SubWordIs(fwd, Word(0xa0, 0xf4, 0xe2, 0x2b), Word(0xe0, 0xbf, 0x98, 0xf1)); }
    assert SubW(fwd, Word(0x9a, 0xc6, 0x8d, 0x2a)) == Word(0xb8, 0xb4, 0x5d, 0xe5) by { Row2(); Row8(); Row9(); RowC(); SubWordIs(fwd, Word(0x9a, 0xc6, 0x8d, 0x2a), Word(0xb8, 0xb4, 0x5d, 0xe5)); }
    assert SubW(fwd, Word(0xe9, 0xf8, 0x48, 0x08)) == Word(0x1e, 0x41, 0x52, 0x30) by { Row0(); Row4(); RowE(); RowF(); SubWordIs(fwd, Word(0xe9, 0xf8, 0x48, 0x08), Word(0x1e, 0x41, 0x52, 0x30)); }
  }

  lemma Block128Mix1()
    ensures XorS(MixS(ShiftRows(State(Word(0xd4, 0x27, 0x11, 0xae), Word(0xe0, 0xbf, 0x98, 0xf1), Word(0xb8, 0xb4, 0x5d, 0xe5), Word(0x1e, 0x41, 0x52, 0x30)))),
                 State(Word(0xa0, 0xfa, 0xfe, 0x17), Word(0x88, 0x54, 0x2c, 0xb1), Word(0x23, 0xa3, 0x39, 0x39), Word(0x2a, 0x6c, 0x76, 0x05))) ==
              State(Word(0xa4, 0x9c, 0x7f, 0xf2), Word(0x68, 0x9f, 0x35, 0x2b), Word(0x6b, 0x5b, 0xea, 0x43), Word(0x02, 0x6a, 0x50, 0x49))
  {
  }

  lemma Block128Round1(fwd: Box, keys: seq<State>, s: State)
    requires Fips(fwd) && Schedule128(fwd, keys) && s == State(Word(0x32, 0x43, 0xf6, 0xa8), Word(0x88, 0x5a, 0x30, 0x8d), Word(0x31, 0x31, 0x98, 0xa2), Word(0xe0, 0x37, 0x07, 0x34))
    ensures Rounds(fwd, keys, s, 1) == State(Word(0xa4, 0x9c, 0x7f, 0xf2), Word(0x68, 0x9f, 0x35, 0x2b), Word(0x6b, 0x5b, 0xea, 0x43), Word(0x02, 0x6a, 0x50, 0x49))
  {
    hide Fips, SubS, MixS, ShiftRows, XorS, RoundKey, WordsOf, KEY128, Rounds;
    Block128Round0(fwd, keys, s);
    Key128Round1(fwd);
    assert keys[1] == RoundKey(fwd, WordsOf(KEY128), 1);
    Block128Sub1(fwd);
    Block128Mix1();
    NextState(fwd, keys, s, 1, State(Word(0x19, 0x3d, 0xe3, 0xbe), Word(0xa0, 0xf4, 0xe2, 0x2b), Word(0x9a, 0xc6, 0x8d, 0x2a), Word(0xe9, 0xf8, 0x48, 0x08)),
              State(Word(0xa0, 0xfa, 0xfe, 0x17), Word(0x88, 0x54, 0x2c, 0xb1), Word(0x23, 0xa3, 0x39, 0x39), Word(0x2a, 0x6c, 0x76, 0x05)), State(Word(0xd4, 0x27, 0x11, 0xae), Word(0xe0, 0xbf, 0x98, 0xf1), Word(0xb8, 0xb4, 0x5d, 0xe5), Word(0x1e, 0x41, 0x52, 0x30)));
  }

  lemma Block128Sub2(fwd: Box)
    requires Fips(fwd)
    ensures SubS(fwd, State(Word(0xa4, 0x9c, 0x7f, 0xf2), Word(0x68, 0x9f, 0x35, 0x2b), Word(0x6b, 0x5b, 0xea, 0x43), Word(0x02, 0x6a, 0x50, 0x49))) ==
              State(Word(0x49, 0xde, 0xd2, 0x89), Word(0x45, 0xdb, 0x96, 0xf1), Word(0x7f, 0x39, 0x87, 0x1a), Word(0x77, 0x02, 0x53, 0x3b))
  {
    hide Fips, SubByte, SubW;
    assert SubW(fwd, Word(0xa4, 0x9c, 0x7f, 0xf2)) == Word(0x49, 0xde, 0xd2, 0x89) by { Row7(); Row9(); RowA(); RowF(); SubWordIs(fwd, Word(0xa4, 0x9c, 0x7f, 0xf2), Word(0x49, 0xde, 0xd2, 0x89)); }
    assert SubW(fwd, Word(0x68, 0x9f, 0x35, 0x2b)) == Word(0x45, 0xdb, 0x96, 0xf1) by { Row2(); Row3(); Row6(); Row9(); SubWordIs(fwd, Word(0x68, 0x9f, 0x35, 0x2b), Word(0x45, 0xdb, 0x96, 0xf1)); }
    assert SubW(fwd, Word(0x6b, 0x5b, 0xea, 0x43)) == Word(0x7f, 0x39, 0x87, 0x1a) by { Row4(); Row5(); Row6(); RowE(); SubWordIs(fwd, Word(0x6b, 0x5b, 0xea, 0x43), Word(0x7f, 0x39, 0x87, 0x1a)); }
    assert SubW(fwd, Word(0x02, 0x6a, 0x50, 0x49)) == Word(0x77, 0x02, 0x53, 0x3b) by { Row0(); Row4(); Row5(); Row6(); SubWordIs(fwd, Word(0x02, 0x6a, 0x50, 0x49), Word(0x77, 0x02, 0x53, 0x3b)); }
  }

  lemma Block128Mix2()
    ensures XorS(MixS(ShiftRows(State(Word(0x49, 0xde, 0xd2, 0x89), Word(0x45, 0xdb, 0x96, 0xf1), Word(0x7f, 0x39, 0x87, 0x1a), Word(0x77, 0x02, 0x53, 0x3b)))),
                 State(Word(0xf2, 0xc2, 0x95, 0xf2), Word(0x7a, 0x96, 0xb9, 0x43), Word(0x59, 0x35, 0x80, 0x7a), Word(0x73, 0x59, 0xf6, 0x7f))) ==
              State(Word(0xaa, 0x8f, 0x5f, 0x03), Word(0x61, 0xdd, 0xe3, 0xef), Word(0x82, 0xd2, 0x4a, 0xd2), Word(0x68, 0x32, 0x46, 0x9a))
  {
  }

  lemma Block128Round2(fwd: Box, keys: seq<State>, s: State)
    requires Fips(fwd) && Schedule128(fwd, keys) && s == State(Word(0x32, 0x43, 0xf6, 0xa8), Word(0x88, 0x5a, 0x30, 0x8d), Word(0x31, 0x31, 0x98, 0xa2), Word(0xe0, 0x37, 0x07, 0x34))
    ensures Rounds(fwd, keys, s, 2) == State(Word(0xaa, 0x8f, 0x5f, 0x03), Word(0x61, 0xdd, 0xe3, 0xef), Word(0x82, 0xd2, 0x4a, 0xd2), Word(0x68, 0x32, 0x46, 0x9a))
  {
    hide Fips, SubS, MixS, ShiftRows, XorS, RoundKey, WordsOf, KEY128, Rounds;
    Block128Round1(fwd, keys, s);
    Key128Round2(fwd);
    assert keys[2] == RoundKey(fwd, WordsOf(KEY128), 2);
    Block128Sub2(fwd);
    Block128Mix2();
    NextState(fwd, keys, s, 2, State(Word(0xa4, 0x9c, 0x7f, 0xf2), Word(0x68, 0x9f, 0x35, 0x2b), Word(0x6b, 0x5b, 0xea, 0x43), Word(0x02, 0x6a, 0x50, 0x49)),
              State(Word(0xf2, 0xc2, 0x95, 0xf2), Word(0x7a, 0x96, 0xb9, 0x43), Word(0x59, 0x35, 0x80, 0x7a), Word(0x73, 0x59, 0xf6, 0x7f)), State(Word(0x49, 0xde, 0xd2, 0x89), Word(0x45, 0xdb, 0x96, 0xf1), Word(0x7f, 0x39, 0x87, 0x1a), Word(0x77, 0x02, 0x53, 0x3b)));
  }

  lemma Block128Sub3(fwd: Box)
    requires Fips(fwd)
    ensures SubS(fwd, State(Word(0xaa, 0x8f, 0x5f, 0x03), Word(0x61, 0xdd, 0xe3, 0xef), Word(0x82, 0xd2, 0x4a, 0xd2), Word(0x68, 0x32, 0x46, 0x9a))) ==
              State(Word(0xac, 0x73, 0xcf, 0x7b), Word(0xef, 0xc1, 0x11, 0xdf), Word(0x13, 0xb5, 0xd6, 0xb5), Word(0x45, 0x23, 0x5a, 0xb8))
  {
    hide Fips, SubByte, SubW;
    assert SubW(fwd, Word(0xaa, 0x8f, 0x5f, 0x03)) == Word(0xac, 0x73, 0xcf, 0x7b) by { Row0(); Row5(); Row8(); RowA(); SubWordIs(fwd, Word(0xaa, 0x8f, 0x5f, 0x03), Word(0xac, 0x73, 0xcf, 0x7b)); }
    assert SubW(fwd, Word(0x61, 0xdd, 0xe3, 0xef)) == Word(0xef, 0xc1, 0x11, 0xdf) by { Row6(); RowD(); RowE(); SubWordIs(fwd, Word(0x61, 0xdd, 0xe3, 0xef), Word(0xef, 0xc1, 0x11, 0xdf)); }
    assert SubW(fwd, Word(0x82, 0xd2, 0x4a, 0xd2)) == Word(0x13, 0xb5, 0xd6, 0xb5) by { Row4(); Row8(); RowD(); SubWordIs(fwd, Word(0x82, 0xd2, 0x4a, 0xd2), Word(0x13, 0xb5, 0xd6, 0xb5)); }
    assert SubW(fwd, Word(0x68, 0x32, 0x46, 0x9a)) == Word(0x45, 0x23, 0x5a, 0xb8) by { Row3(); Row4(); Row6(); Row9(); SubWordIs(fwd, Word(0x68, 0x32, 0x46, 0x9a), Word(0x45, 0x23, 0x5a, 0xb8)); }
  }

  lemma Block128Mix3()
    ensures XorS(MixS(ShiftRows(State(Word(0xac, 0x73, 0xcf, 0x7b), Word(0xef, 0xc1, 0x11, 0xdf), Word(0x13, 0xb5, 0xd6, 0xb5), Word(0x45, 0x23, 0x5a, 0xb8)))),
                 State(Word(0x3d, 0x80, 0x47, 0x7d), Word(0x47, 0x16, 0xfe, 0x3e), Word(0x1e, 0x23, 0x7e, 0x44), Word(0x6d, 0x7a, 0x88, 0x3b))) ==
              State(Word(0x48, 0x6c, 0x4e, 0xee), Word(0x67, 0x1d, 0x9d, 0x0d), Word(0x4d, 0xe3, 0xb1, 0x38), Word(0xd6, 0x5f, 0x58, 0xe7))
  {
  }

  lemma Block128Round3(fwd: Box, keys: seq<State>, s: State)
    requires Fips(fwd) && Schedule128(fwd, keys) && s == State(Word(0x32, 0x43, 0xf6, 0xa8), Word(0x88, 0x5a, 0x30, 0x8d), Word(0x31, 0x31, 0x98, 0xa2), Word(0xe0, 0x37, 0x07, 0x34))
    ensures Rounds(fwd, keys, s, 3) == State(Word(0x48, 0x6c, 0x4e, 0xee), Word(0x67, 0x1d, 0x9d, 0x0d), Word(0x4d, 0xe3, 0xb1, 0x38), Word(0xd6, 0x5f, 0x58, 0xe7))
  {
    hide Fips, SubS, MixS, ShiftRows, XorS, RoundKey, WordsOf, KEY128, Rounds;
    Block128Round2(fwd, keys, s);
    Key128Round3(fwd);
    assert keys[3] == RoundKey(fwd, WordsOf(KEY128), 3);
    Block128Sub3(fwd);
    Block128Mix3();
    NextState(fwd, keys, s, 3, State(Word(0xaa, 0x8f, 0x5f, 0x03), Word(0x61, 0xdd, 0xe3, 0xef), Word(0x82, 0xd2, 0x4a, 0xd2), Word(0x68, 0x32, 0x46, 0x9a)),
              State(Word(0x3d, 0x80, 0x47, 0x7d), Word(0x47, 0x16, 0xfe, 0x3e), Word(0x1e, 0x23, 0x7e, 0x44), Word(0x6d, 0x7a, 0x88, 0x3b)), State(Word(0xac, 0x73, 0xcf, 0x7b), Word(0xef, 0xc1, 0x11, 0xdf), Word(0x13, 0xb5, 0xd6, 0xb5), Word(0x45, 0x23, 0x5a, 0xb8)));
  }

  lemma Block128Sub4(fwd: Box)
    requires Fips(fwd)
    ensures SubS(fwd, State(Word(0x48, 0x6c, 0x4e, 0xee), Word(0x67, 0x1d, 0x9d, 0x0d), Word(0x4d, 0xe3, 0xb1, 0x38), Word(0xd6, 0x5f, 0x58, 0xe7))) ==
              State(Word(0x52, 0x50, 0x2f, 0x28), Word(0x85, 0xa4, 0x5e, 0xd7), Word(0xe3, 0x11, 0xc8, 0x07), Word(0xf6, 0xcf, 0x6a, 0x94))
  {
    hide Fips, SubByte, SubW;
    assert SubW(fwd, Word(0x48, 0x6c, 0x4e, 0xee)) == Word(0x52, 0x50, 0x2f, 0x28) by { Row4(); Row6(); RowE(); SubWordIs(fwd, Word(0x48, 0x6c, 0x4e, 0xee), Word(0x52, 0x50, 0x2f, 0x28)); }
    assert SubW(fwd, Word(0x67, 0x1d, 0x9d, 0x0d)) == Word(0x85, 0xa4, 0x5e, 0xd7) by { Row0(); Row1(); Row6(); Row9(); SubWordIs(fwd, Word(0x67, 0x1d, 0x9d, 0x0d), Word(0x85, 0xa4, 0x5e, 0xd7)); }
    assert SubW(fwd, Word(0x4d, 0xe3, 0xb1, 0x38)) == Word(0xe3, 0x11, 0xc8, 0x07) by { Row3(); Row4(); RowB(); RowE(); SubWordIs(fwd, Word(0x4d, 0xe3, 0xb1, 0x38), Word(0xe3, 0x11, 0xc8, 0x07)); }
    assert SubW(fwd, Word(0xd6, 0x5f, 0x58, 0xe7)) == Word(0xf6, 0xcf, 0x6a, 0x94) by { Row5(); RowD(); RowE(); SubWordIs(fwd, Word(0xd6, 0x5f, 0x58, 0xe7), Word(0xf6, 0xcf, 0x6a, 0x94)); }
  }

  lemma Block128Mix4()
    ensures XorS(MixS(ShiftRows(State(Word(0x52, 0x50, 0x2f, 0x28), Word(0x85, 0xa4, 0x5e, 0xd7), Word(0xe3, 0x11, 0xc8, 0x07), Word(0xf6, 0xcf, 0x6a, 0x94)))),
                 State(Word(0xef, 0x44, 0xa5, 0x41), Word(0xa8, 0x52, 0x5b, 0x7f), Word(0xb6, 0x71, 0x25, 0x3b), Word(0xdb, 0x0b, 0xad, 0x00))) ==
              State(Word(0xe0, 0x92, 0x7f, 0xe8), Word(0xc8, 0x63, 0x63, 0xc0), Word(0xd9, 0xb1, 0x35, 0x50), Word(0x85, 0xb8, 0xbe, 0x01))
  {
  }

  lemma Block128Round4(fwd: Box, keys: seq<State>, s: State)
    requires Fips(fwd) && Schedule128(fwd, keys) && s == State(Word(0x32, 0x43, 0xf6, 0xa8), Word(0x88, 0x5a, 0x30, 0x8d), Word(0x31, 0x31, 0x98, 0xa2), Word(0xe0, 0x37, 0x07, 0x34))
    ensures Rounds(fwd, keys, s, 4) == State(Word(0xe0, 0x92, 0x7f, 0xe8), Word(0xc8, 0x63, 0x63, 0xc0), Word(0xd9, 0xb1, 0x35, 0x50), Word(0x85, 0xb8, 0xbe, 0x01))
  {
    hide Fips, SubS, MixS, ShiftRows, XorS, RoundKey, WordsOf, KEY128, Rounds;
    Block128Round3(fwd, keys, s);
    Key128Round4(fwd);
    assert keys[4] == RoundKey(fwd, WordsOf(KEY128), 4);
    Block128Sub4(fwd);
    Block128Mix4();
    NextState(fwd, keys, s, 4, State(Word(0x48, 0x6c, 0x4e, 0xee), Word(0x67, 0x1d, 0x9d, 0x0d), Word(0x4d, 0xe3, 0xb1, 0x38), Word(0xd6, 0x5f, 0x58, 0xe7)),
              State(Word(0xef, 0x44, 0xa5, 0x41), Word(0xa8, 0x52, 0x5b, 0x7f), Word(0xb6, 0x71, 0x25, 0x3b), Word(0xdb, 0x0b, 0xad, 0x00)), State(Word(0x52, 0x50, 0x2f, 0x28), Word(0x85, 0xa4, 0x5e, 0xd7), Word(0xe3, 0x11, 0xc8, 0x07), Word(0xf6, 0xcf, 0x6a, 0x94)));
  }

  lemma Block128Sub5(fwd: Box)
    requires Fips(fwd)
    ensures SubS(fwd, State(Word(0xe0, 0x92, 0x7f, 0xe8), Word(0xc8, 0x63, 0x63, 0xc0), Word(0xd9, 0xb1, 0x35, 0x50), Word(0x85, 0xb8, 0xbe, 0x01))) ==
              State(Word(0xe1, 0x4f, 0xd2, 0x9b), Word(0xe8, 0xfb, 0xfb, 0xba), Word(0x35, 0xc8, 0x96, 0x53), Word(0x97, 0x6c, 0xae, 0x7c))
  {
    hide Fips, SubByte, SubW;
    assert SubW(fwd, Word(0xe0, 0x92, 0x7f, 0xe8)) == Word(0xe1, 0x4f, 0xd2, 0x9b) by { Row7(); Row9(); RowE(); SubWordIs(fwd, Word(0xe0, 0x92, 0x7f, 0xe8), Word(0xe1, 0x4f, 0xd2, 0x9b)); }
    assert SubW(fwd, Word(0xc8, 0x63, 0x63, 0xc0)) == Word(0xe8, 0xfb, 0xfb, 0xba) by { Row6(); RowC(); SubWordIs(fwd, Word(0xc8, 0x63, 0x63, 0xc0), Word(0xe8, 0xfb, 0xfb, 0xba)); }
    assert SubW(fwd, Word(0xd9, 0xb1, 0x35, 0x50)) == Word(0x35, 0xc8, 0x96, 0x53) by { Row3(); Row5(); RowB(); RowD(); SubWordIs(fwd, Word(0xd9, 0xb1, 0x35, 0x50), Word(0x35, 0xc8, 0x96, 0x53)); }
    assert SubW(fwd, Word(0x85, 0xb8, 0xbe, 0x01)) == Word(0x97, 0x6c, 0xae, 0x7c) by { Row0(); Row8(); RowB(); SubWordIs(fwd, Word(0x85, 0xb8, 0xbe, 0x01), Word(0x97, 0x6c, 0xae, 0x7c)); }
  }

  lemma Block128Mix5()
    ensures XorS(MixS(ShiftRows(State(Word(0xe1, 0x4f, 0xd2, 0x9b), Word(0xe8, 0xfb, 0xfb, 0xba), Word(0x35, 0xc8, 0x96, 0x53), Word(0x97, 0x6c, 0xae, 0x7c)))),
                 State(Word(0xd4, 0xd1, 0xc6, 0xf8), Word(0x7c, 0x83, 0x9d, 0x87), Word(0xca, 0xf2, 0xb8, 0xbc), Word(0x11, 0xf9, 0x15, 0xbc))) ==
              State(Word(0xf1, 0x00, 0x6f, 0x55), Word(0xc1, 0x92, 0x4c, 0xef), Word(0x7c, 0xc8, 0x8b, 0x32), Word(0x5d, 0xb5, 0xd5, 0x0c))
  {
  }

  lemma Block128Round5(fwd: Box, keys: seq<State>, s: State)
    requires Fips(fwd) && Schedule128(fwd, keys) && s == State(Word(0x32, 0x43, 0xf6, 0xa8), Word(0x88, 0x5a, 0x30, 0x8d), Word(0x31, 0x31, 0x98, 0xa2), Word(0xe0, 0x37, 0x07, 0x34))
    ensures Rounds(fwd, keys, s, 5) == State(Word(0xf1, 0x00, 0x6f, 0x55), Word(0xc1, 0x92, 0x4c, 0xef), Word(0x7c, 0xc8, 0x8b, 0x32), Word(0x5d, 0xb5, 0xd5, 0x0c))
  {
    hide Fips, SubS, MixS, ShiftRows, XorS, RoundKey, WordsOf, KEY128, Rounds;
    Block128Round4(fwd, keys, s);
    Key128Round5(fwd);
    assert keys[5] == RoundKey(fwd, WordsOf(KEY128), 5);
    Block128Sub5(fwd);
    Block128Mix5();
    NextState(fwd, keys, s, 5, State(Word(0xe0, 0x92, 0x7f, 0xe8), Word(0xc8, 0x63, 0x63, 0xc0), Word(0xd9, 0xb1, 0x35, 0x50), Word(0x85, 0xb8, 0xbe, 0x01)),
              State(Word(0xd4, 0xd1, 0xc6, 0xf8), Word(0x7c, 0x83, 0x9d, 0x87), Word(0xca, 0xf2, 0xb8, 0xbc), Word(0x11, 0xf9, 0x15, 0xbc)), State(Word(0xe1, 0x4f, 0xd2, 0x9b), Word(0xe8, 0xfb, 0xfb, 0xba), Word(0x35, 0xc8, 0x96, 0x53), Word(0x97, 0x6c, 0xae, 0x7c)));
  }

  lemma Block128Sub6(fwd: Box)
    requires Fips(fwd)
    ensures SubS(fwd, State(Word(0xf1, 0x00, 0x6f, 0x55), Word(0xc1, 0x92, 0x4c, 0xef), Word(0x7c, 0xc8, 0x8b, 0x32), Word(0x5d, 0xb5, 0xd5, 0x0c))) ==
              State(Word(0xa1, 0x63, 0xa8, 0xfc), Word(0x78, 0x4f, 0x29, 0xdf), Word(0x10, 0xe8, 0x3d, 0x23), Word(0x4c, 0xd5, 0x03, 0xfe))
  {
    hide Fips, SubByte, SubW;
    assert SubW(fwd, Word(0xf1, 0x00, 0x6f, 0x55)) == Word(0xa1, 0x63, 0xa8, 0xfc) by { Row0(); Row5(); Row6(); RowF(); SubWordIs(fwd, Word(0xf1, 0x00, 0x6f, 0x55), Word(0xa1, 0x63, 0xa8, 0xfc)); }
    assert SubW(fwd, Word(0xc1, 0x92, 0x4c, 0xef)) == Word(0x78, 0x4f, 0x29, 0xdf) by { Row4(); Row9(); RowC(); RowE(); SubWordIs(fwd, Word(0xc1, 0x92, 0x4c, 0xef), Word(0x78, 0x4f, 0x29, 0xdf)); }
    assert SubW(fwd, Word(0x7c, 0xc8, 0x8b, 0x32)) == Word(0x10, 0xe8, 0x3d, 0x23) by { Row3(); Row7(); Row8(); RowC(); SubWordIs(fwd, Word(0x7c, 0xc8, 0x8b, 0x32), Word(0x10, 0xe8, 0x3d, 0x23)); }
    assert SubW(fwd, Word(0x5d, 0xb5, 0xd5, 0x0c)) == Word(0x4c, 0xd5, 0x03, 0xfe) by { Row0(); Row5(); RowB(); RowD(); SubWordIs(fwd, Word(0x5d, 0xb5, 0xd5, 0x0c), Word(0x4c, 0xd5, 0x03, 0xfe)); }
  }

  lemma Block128Mix6()
    ensures XorS(MixS(ShiftRows(State(Word(0xa1, 0x63, 0xa8, 0xfc), Word(0x78, 0x4f, 0x29, 0xdf), Word(0x10, 0xe8, 0x3d, 0x23), Word(0x4c, 0xd5, 0x03, 0xfe)))),
                 State(Word(0x6d, 0x88, 0xa3, 0x7a), Word(0x11, 0x0b, 0x3e, 0xfd), Word(0xdb, 0xf9, 0x86, 0x41), Word(0xca, 0x00, 0x93, 0xfd))) ==
              State(Word(0x26, 0x0e, 0x2e, 0x17), Word(0x3d, 0x41, 0xb7, 0x7d), Word(0xe8, 0x64, 0x72, 0xa9), Word(0xfd, 0xd2, 0x8b, 0x25))
  {
  }

  lemma Block128Round6(fwd: Box, keys: seq<State>, s: State)
    requires Fips(fwd) && Schedule128(fwd, keys) && s == State(Word(0x32, 0x43, 0xf6, 0xa8), Word(0x88, 0x5a, 0x30, 0x8d), Word(0x31, 0x31, 0x98, 0xa2), Word(0xe0, 0x37, 0x07, 0x34))
    ensures Rounds(fwd, keys, s, 6) == State(Word(0x26, 0x0e, 0x2e, 0x17), Word(0x3d, 0x41, 0xb7, 0x7d), Word(0xe8, 0x64, 0x72, 0xa9), Word(0xfd, 0xd2, 0x8b, 0x25))
  {
    hide Fips, SubS, MixS, ShiftRows, XorS, RoundKey, WordsOf, KEY128, Rounds;
    Block128Round5(fwd, keys, s);
    Key128Round6(fwd);
    assert keys[6] == RoundKey(fwd, WordsOf(KEY128), 6);
    Block128Sub6(fwd);
    Block128Mix6();
    NextState(fwd, keys, s, 6, State(Word(0xf1, 0x00, 0x6f, 0x55), Word(0xc1, 0x92, 0x4c, 0xef), Word(0x7c, 0xc8, 0x8b, 0x32), Word(0x5d, 0xb5, 0xd5, 0x0c)),
              State(Word(0x6d, 0x88, 0xa3, 0x7a), Word(0x11, 0x0b, 0x3e, 0xfd), Word(0xdb, 0xf9, 0x86, 0x41), Word(0xca, 0x00, 0x93, 0xfd)), State(Word(0xa1, 0x63, 0xa8, 0xfc), Word(0x78, 0x4f, 0x29, 0xdf), Word(0x10, 0xe8, 0x3d, 0x23), Word(0x4c, 0xd5, 0x03, 0xfe)));
  }

  lemma Block128Sub7(fwd: Box)
    requires Fips(fwd)
    ensures SubS(fwd, State(Word(0x26, 0x0e, 0x2e, 0x17), Word(0x3d, 0x41, 0xb7, 0x7d), Word(0xe8, 0x64, 0x72, 0xa9), Word(0xfd, 0xd2, 0x8b, 0x25))) ==
              State(Word(0xf7, 0xab, 0x31, 0xf0), Word(0x27, 0x83, 0xa9, 0xff), Word(0x9b, 0x43, 0x40, 0xd3), Word(0x54, 0xb5, 0x3d, 0x3f))
  {
    hide Fips, SubByte, SubW;
    assert SubW(fwd, Word(0x26, 0x0e, 0x2e, 0x17)) == Word(0xf7, 0xab, 0x31, 0xf0) by { Row0(); Row1(); Row2(); SubWordIs(fwd, Word(0x26, 0x0e, 0x2e, 0x17), Word(0xf7, 0xab, 0x31, 0xf0)); }
    assert SubW(fwd, Word(0x3d, 0x41, 0xb7, 0x7d)) == Word(0x27, 0x83, 0xa9, 0xff) by { Row3(); Row4(); Row7(); RowB(); SubWordIs(fwd, Word(0x3d, 0x41, 0xb7, 0x7d), Word(0x27, 0x83, 0xa9, 0xff)); }
    assert SubW(fwd, Word(0xe8, 0x64, 0x72, 0xa9)) == Word(0x9b, 0x43, 0x40, 0xd3) by { Row6(); Row7(); RowA(); RowE(); SubWordIs(fwd, Word(0xe8, 0x64, 0x72, 0xa9), Word(0x9b, 0x43, 0x40, 0xd3)); }
    assert SubW(fwd, Word(0xfd, 0xd2, 0x8b, 0x25)) == Word(0x54, 0xb5, 0x3d, 0x3f) by { Row2(); Row8(); RowD(); RowF(); SubWordIs(fwd, Word(0xfd, 0xd2, 0x8b, 0x25), Word(0x54, 0xb5, 0x3d, 0x3f)); }
  }

  lemma Block128Mix7()
    ensures XorS(MixS(ShiftRows(State(Word(0xf7, 0xab, 0x31, 0xf0), Word(0x27, 0x83, 0xa9, 0xff), Word(0x9b, 0x43, 0x40, 0xd3), Word(0x54, 0xb5, 0x3d, 0x3f)))),
                 State(Word(0x4e, 0x54, 0xf7, 0x0e), Word(0x5f, 0x5f, 0xc9, 0xf3), Word(0x84, 0xa6, 0x4f, 0xb2), Word(0x4e, 0xa6, 0xdc, 0x4f))) ==
              State(Word(0x5a, 0x41, 0x42, 0xb1), Word(0x19, 0x49, 0xdc, 0x1f), Word(0xa3, 0xe0, 0x19, 0x65), Word(0x7a, 0x8c, 0x04, 0x0c))
  {
  }

  lemma Block128Round7(fwd: Box, keys: seq<State>, s: State)
    requires Fips(fwd) && Schedule128(fwd, keys) && s == State(Word(0x32, 0x43, 0xf6, 0xa8), Word(0x88, 0x5a, 0x30, 0x8d), Word(0x31, 0x31, 0x98, 0xa2), Word(0xe0, 0x37, 0x07, 0x34))
    ensures Rounds(fwd, keys, s, 7) == State(Word(0x5a, 0x41, 0x42, 0xb1), Word(0x19, 0x49, 0xdc, 0x1f), Word(0xa3, 0xe0, 0x19, 0x65), Word(0x7a, 0x8c, 0x04, 0x0c))
  {
    hide Fips, SubS, MixS, ShiftRows, XorS, RoundKey, WordsOf, KEY128, Rounds;
    Block128Round6(fwd, keys, s);
    Key128Round7(fwd);
    assert keys[7] == RoundKey(fwd, WordsOf(KEY128), 7);
    Block128Sub7(fwd);
    Block128Mix7();
    NextState(fwd, keys, s, 7, State(Word(0x26, 0x0e, 0x2e, 0x17), Word(0x3d, 0x41, 0xb7, 0x7d), Word(0xe8, 0x64, 0x72, 0xa9), Word(0xfd, 0xd2, 0x8b, 0x25)),
              State(Word(0x4e, 0x54, 0xf7, 0x0e), Word(0x5f, 0x5f, 0xc9, 0xf3), Word(0x84, 0xa6, 0x4f, 0xb2), Word(0x4e, 0xa6, 0xdc, 0x4f)), State(Word(0xf7, 0xab, 0x31, 0xf0), Word(0x27, 0x83, 0xa9, 0xff), Word(0x9b, 0x43, 0x40, 0xd3), Word(0x54, 0xb5, 0x3d, 0x3f)));
  }

  lemma Block128Sub8(fwd: Box)
    requires Fips(fwd)
    ensures SubS(fwd, State(Word(0x5a, 0x41, 0x42, 0xb1), Word(0x19, 0x49, 0xdc, 0x1f), Word(0xa3, 0xe0, 0x19, 0x65), Word(0x7a, 0x8c, 0x04, 0x0c))) ==
              State(Word(0xbe, 0x83, 0x2c, 0xc8), Word(0xd4, 0x3b, 0x86, 0xc0), Word(0x0a, 0xe1, 0xd4, 0x4d), Word(0xda, 0x64, 0xf2, 0xfe))
  {
    hide Fips, SubByte, SubW;
    assert SubW(fwd, Word(0x5a, 0x41, 0x42, 0xb1)) == Word(0xbe, 0x83, 0x2c, 0xc8) by { Row4(); Row5(); RowB(); SubWordIs(fwd, Word(0x5a, 0x41, 0x42, 0xb1), Word(0xbe, 0x83, 0x2c, 0xc8)); }
    assert SubW(fwd, Word(0x19, 0x49, 0xdc, 0x1f)) == Word(0xd4, 0x3b, 0x86, 0xc0) by { Row1(); Row4(); RowD(); SubWordIs(fwd, Word(0x19, 0x49, 0xdc, 0x1f), Word(0xd4, 0x3b, 0x86, 0xc0)); }
    assert SubW(fwd, Word(0xa3, 0xe0, 0x19, 0x65)) == Word(0x0a, 0xe1, 0xd4, 0x4d) by { Row1(); Row6(); RowA(); RowE(); SubWordIs(fwd, Word(0xa3, 0xe0, 0x19, 0x65), Word(0x0a, 0xe1, 0xd4, 0x4d)); }
    assert SubW(fwd, Word(0x7a, 0x8c, 0x04, 0x0c)) == Word(0xda, 0x64, 0xf2, 0xfe) by { Row0(); Row7(); Row8(); SubWordIs(fwd, Word(0x7a, 0x8c, 0x04, 0x0c), Word(0xda, 0x64, 0xf2, 0xfe)); }
  }

  lemma Block128Mix8()
    ensures XorS(MixS(ShiftRows(State(Word(0xbe, 0x83, 0x2c, 0xc8), Word(0xd4, 0x3b, 0x86, 0xc0), Word(0x0a, 0xe1, 0xd4, 0x4d), Word(0xda, 0x64, 0xf2, 0xfe)))),
                 State(Word(0xea, 0xd2, 0x73, 0x21), Word(0xb5, 0x8d, 0xba, 0xd2), Word(0x31, 0x2b, 0xf5, 0x60), Word(0x7f, 0x8d, 0x29, 0x2f))) ==
              State(Word(0xea, 0x83, 0x5c, 0xf0), Word(0x04, 0x45, 0x33, 0x2d), Word(0x65, 0x5d, 0x98, 0xad), Word(0x85, 0x96, 0xb0, 0xc5))
  {
  }

  lemma Block128Round8(fwd: Box, keys: seq<State>, s: State)
    requires Fips(fwd) && Schedule128(fwd, keys) && s == State(Word(0x32, 0x43, 0xf6, 0xa8), Word(0x88, 0x5a, 0x30, 0x8d), Word(0x31, 0x31, 0x98, 0xa2), Word(0xe0, 0x37, 0x07, 0x34))
    ensures Rounds(fwd, keys, s, 8) == State(Word(0xea, 0x83, 0x5c, 0xf0), Word(0x04, 0x45, 0x33, 0x2d), Word(0x65, 0x5d, 0x98, 0xad), Word(0x85, 0x96, 0xb0, 0xc5))
  {
    hide Fips, SubS, MixS, ShiftRows, XorS, RoundKey, WordsOf, KEY128, Rounds;
    Block128Round7(fwd, keys, s);
    Key128Round8(fwd);
    assert keys[8] == RoundKey(fwd, WordsOf(KEY128), 8);
    Block128Sub8(fwd);
    Block128Mix8();
    NextState(fwd, keys, s, 8, State(Word(0x5a, 0x41, 0x42, 0xb1), Word(0x19, 0x49, 0xdc, 0x1f), Word(0xa3, 0xe0, 0x19, 0x65), Word(0x7a, 0x8c, 0x04, 0x0c)),
              State(Word(0xea, 0xd2, 0x73, 0x21), Word(0xb5, 0x8d, 0xba, 0xd2), Word(0x31, 0x2b, 0xf5, 0x60), Word(0x7f, 0x8d, 0x29, 0x2f)), State(Word(0xbe, 0x83, 0x2c, 0xc8), Word(0xd4, 0x3b, 0x86, 0xc0), Word(0x0a, 0xe1, 0xd4, 0x4d), Word(0xda, 0x64, 0xf2, 0xfe)));
  }

  lemma Block128Sub9(fwd: Box)
    requires Fips(fwd)
    ensures SubS(fwd, State(Word(0xea, 0x83, 0x5c, 0xf0), Word(0x04, 0x45, 0x33, 0x2d), Word(0x65, 0x5d, 0x98, 0xad), Word(0x85, 0x96, 0xb0, 0xc5))) ==
              State(Word(0x87, 0xec, 0x4a, 0x8c), Word(0xf2, 0x6e, 0xc3, 0xd8), Word(0x4d, 0x4c, 0x46, 0x95), Word(0x97, 0x90, 0xe7, 0xa6))
  {
    hide Fips, SubByte, SubW;
    assert SubW(fwd, Word(0xea, 0x83, 0x5c, 0xf0)) == Word(0x87, 0xec, 0x4a, 0x8c) by { Row5(); Row8(); RowE(); RowF(); SubWordIs(fwd, Word(0xea, 0x83, 0x5c, 0xf0), Word(0x87, 0xec, 0x4a, 0x8c)); }
    assert SubW(fwd, Word(0x04, 0x45, 0x33, 0x2d)) == Word(0xf2, 0x6e, 0xc3, 0xd8) by { Row0(); Row2(); Row3(); Row4(); SubWordIs(fwd, Word(0x04, 0x45, 0x33, 0x2d), Word(0xf2, 0x6e, 0xc3, 0xd8)); }
    assert SubW(fwd, Word(0x65, 0x5d, 0x98, 0xad)) == Word(0x4d, 0x4c, 0x46, 0x95) by { Row5(); Row6(); Row9(); RowA(); SubWordIs(fwd, Word(0x65, 0x5d, 0x98, 0xad), Word(0x4d, 0x4c, 0x46, 0x95)); }
    assert SubW(fwd, Word(0x85, 0x96, 0xb0, 0xc5)) == Word(0x97, 0x90, 0xe7, 0xa6) by { Row8(); Row9(); RowB(); RowC(); SubWordIs(fwd, Word(0x85, 0x96, 0xb0, 0xc5), Word(0x97, 0x90, 0xe7, 0xa6)); }
  }

  lemma Block128Mix9()
    ensures XorS(MixS(ShiftRows(State(Word(0x87, 0xec, 0x4a, 0x8c), Word(0xf2, 0x6e, 0xc3, 0xd8), Word(0x4d, 0x4c, 0x46, 0x95), Word(0x97, 0x90, 0xe7, 0xa6)))),
                 State(Word(0xac, 0x77, 0x66, 0xf3), Word(0x19, 0xfa, 0xdc, 0x21), Word(0x28, 0xd1, 0x29, 0x41), Word(0x57, 0x5c, 0x00, 0x6e))) ==
              State(Word(0xeb, 0x40, 0xf2, 0x1e), Word(0x59, 0x2e, 0x38, 0x84), Word(0x8b, 0xa1, 0x13, 0xe7), Word(0x1b, 0xc3, 0x42, 0xd2))
  {
  }

  lemma Block128Round9(fwd: Box, keys: seq<State>, s: State)
    requires Fips(fwd) && Schedule128(fwd, keys) && s == State(Word(0x32, 0x43, 0xf6, 0xa8), Word(0x88, 0x5a, 0x30, 0x8d), Word(0x31, 0x31, 0x98, 0xa2), Word(0xe0, 0x37, 0x07, 0x34))
    ensures Rounds(fwd, keys, s, 9) == State(Word(0xeb, 0x40, 0xf2, 0x1e), Word(0x59, 0x2e, 0x38, 0x84), Word(0x8b, 0xa1, 0x13, 0xe7), Word(0x1b, 0xc3, 0x42, 0xd2))
  {
    hide Fips, SubS, MixS, ShiftRows, XorS, RoundKey, WordsOf, KEY128, Rounds;
    Block128Round8(fwd, keys, s);
    Key128Round9(fwd);
    assert keys[9] == RoundKey(fwd, WordsOf(KEY128), 9);
    Block128Sub9(fwd);
    Block128Mix9();
    NextState(fwd, keys, s, 9, State(Word(0xea, 0x83, 0x5c, 0xf0), Word(0x04, 0x45, 0x33, 0x2d), Word(0x65, 0x5d, 0x98, 0xad), Word(0x85, 0x96, 0xb0, 0xc5)),
              State(Word(0xac, 0x77, 0x66, 0xf3), Word(0x19, 0xfa, 0xdc, 0x21), Word(0x28, 0xd1, 0x29, 0x41), Word(0x57, 0x5c, 0x00, 0x6e)), State(Word(0x87, 0xec, 0x4a, 0x8c), Word(0xf2, 0x6e, 0xc3, 0xd8), Word(0x4d, 0x4c, 0x46, 0x95), Word(0x97, 0x90, 0xe7, 0xa6)));
  }

  lemma Block128Sub10(fwd: Box)
    requires Fips(fwd)
    ensures SubS(fwd, State(Word(0xeb, 0x40, 0xf2, 0x1e), Word(0x59, 0x2e, 0x38, 0x84), Word(0x8b, 0xa1, 0x13, 0xe7), Word(0x1b, 0xc3, 0x42, 0xd2))) ==
              State(Word(0xe9, 0x09, 0x89, 0x72), Word(0xcb, 0x31, 0x07, 0x5f), Word(0x3d, 0x32, 0x7d, 0x94), Word(0xaf, 0x2e, 0x2c, 0xb5))
  {
    hide Fips, SubByte, SubW;
    assert SubW(fwd, Word(0xeb, 0x40, 0xf2, 0x1e)) == Word(0xe9, 0x09, 0x89, 0x72) by { Row1(); Row4(); RowE(); RowF(); SubWordIs(fwd, Word(0xeb, 0x40, 0xf2, 0x1e), Word(0xe9, 0x09, 0x89, 0x72)); }
    assert SubW(fwd, Word(0x59, 0x2e, 0x38, 0x84)) == Word(0xcb, 0x31, 0x07, 0x5f) by { Row2(); Row3(); Row5(); Row8(); SubWordIs(fwd, Word(0x59, 0x2e, 0x38, 0x84), Word(0xcb, 0x31, 0x07, 0x5f)); }
    assert SubW(fwd, Word(0x8b, 0xa1, 0x13, 0xe7)) == Word(0x3d, 0x32, 0x7d, 0x94) by { Row1(); Row8(); RowA(); RowE(); SubWordIs(fwd, Word(0x8b, 0xa1, 0x13, 0xe7), Word(0x3d, 0x32, 0x7d, 0x94)); }
    assert SubW(fwd, Word(0x1b, 0xc3, 0x42, 0xd2)) == Word(0xaf, 0x2e, 0x2c, 0xb5) by { Row1(); Row4(); RowC(); RowD(); SubWordIs(fwd, Word(0x1b, 0xc3, 0x42, 0xd2), Word(0xaf, 0x2e, 0x2c, 0xb5)); }
  }

  lemma Block128Last()
    ensures XorS(ShiftRows(State(Word(0xe9, 0x09, 0x89, 0x72), Word(0xcb, 0x31, 0x07, 0x5f), Word(0x3d, 0x32, 0x7d, 0x94), Word(0xaf, 0x2e, 0x2c, 0xb5))),
                 State(Word(0xd0, 0x14, 0xf9, 0xa8), Word(0xc9, 0xee, 0x25, 0x89), Word(0xe1, 0x3f, 0x0c, 0xc8), Word(0xb6, 0x63, 0x0c, 0xa6))) ==
              State(Word(0x39, 0x25, 0x84, 0x1d), Word(0x02, 0xdc, 0x09, 0xfb), Word(0xdc, 0x11, 0x85, 0x97), Word(0x19, 0x6a, 0x0b, 0x32))
  {
  }

  lemma Texts()
    ensures |PLAINTEXT| == 16 && ToState(PLAINTEXT) == State(Word(0x32, 0x43, 0xf6, 0xa8), Word(0x88, 0x5a, 0x30, 0x8d), Word(0x31, 0x31, 0x98, 0xa2), Word(0xe0, 0x37, 0x07, 0x34))
    ensures FromState(State(Word(0x39, 0x25, 0x84, 0x1d), Word(0x02, 0xdc, 0x09, 0xfb), Word(0xdc, 0x11, 0x85, 0x97), Word(0x19, 0x6a, 0x0b, 0x32))) == CIPHERTEXT
  {
  }

  lemma ScheduleIs(fwd: Box, keys: seq<State>)
    requires |WordsOf(KEY128)| == 4 && keys == KeySchedule(fwd, WordsOf(KEY128))
    ensures Schedule128(fwd, keys)
  {
    hide RoundKey, WordsOf, KEY128;
  }

  lemma LastState(fwd: Box, keys: seq<State>, s: State, before: State, k: State, sub: State)
    requires |keys| == 11 && Rounds(fwd, keys, s, 9) == before && keys[10] == k && SubS(fwd, before) == sub
    ensures Cipher(fwd, keys, s) == XorS(ShiftRows(sub), k)
  {
    hide SubS, ShiftRows, XorS, Rounds;
  }

  lemma Block128(fwd: Box)
    requires Fips(fwd)
    ensures |WordsOf(KEY128)| == 4
    ensures |PLAINTEXT| == 16 && EncryptBlock(fwd, KeySchedule(fwd, WordsOf(KEY128)), PLAINTEXT) == CIPHERTEXT
  {
    hide Fips, SubS, ShiftRows, XorS, RoundKey, WordsOf, KEY128, Rounds, Cipher, ToState, FromState, PLAINTEXT, CIPHERTEXT;
    Key128(fwd);
    Key128Round10(fwd);
    Texts();
    var keys := KeySchedule(fwd, WordsOf(KEY128));
    ScheduleIs(fwd, keys);
    Block128Round9(fwd, keys, ToState(PLAINTEXT));
    assert keys[10] == RoundKey(fwd, WordsOf(KEY128), 10);
    Block128Sub10(fwd);
    Block128Last();
    LastState(fwd, keys, ToState(PLAINTEXT), State(Word(0xeb, 0x40, 0xf2, 0x1e), Word(0x59, 0x2e, 0x38, 0x84), Word(0x8b, 0xa1, 0x13, 0xe7), Word(0x1b, 0xc3, 0x42, 0xd2)),
              State(Word(0xd0, 0x14, 0xf9, 0xa8), Word(0xc9, 0xee, 0x25, 0x89), Word(0xe1, 0x3f, 0x0c, 0xc8), Word(0xb6, 0x63, 0x0c, 0xa6)), State(Word(0xe9, 0x09, 0x89, 0x72), Word(0xcb, 0x31, 0x07, 0x5f), Word(0x3d, 0x32, 0x7d, 0x94), Word(0xaf, 0x2e, 0x2c, 0xb5)));
  }

  // ----- longer keys (appendices A.2 and A.3): the first words after the key -----

  /** Word i, where nothing is substituted. */
  lemma PlainWord(fwd: Box, key: seq<Word>, i: nat, before: Word, last: Word)
    requires 0 < |key| <= i && i % |key| != 0 && !(|key| > 6 && i % |key| == 4)
    requires KeyWord(fwd, key, i - |key|) == before && KeyWord(fwd, key, i - 1) == last
    ensures KeyWord(fwd, key, i) == XorW(before, last)
  {
    hide XorW;
  }

  /** Word nk of the schedule. */
  lemma TurnedWord(fwd: Box, key: seq<Word>, before: Word, last: Word, sub: Word)
    requires 0 < |key| && SubW(fwd, RotW(last)) == sub
    requires KeyWord(fwd, key, 0) == before && KeyWord(fwd, key, |key| - 1) == last
    ensures KeyWord(fwd, key, |key|) == XorW(before, XorW(sub, Word(1, 0, 0, 0)))
  {
    hide XorW, SubW, RotW;
    assert |key| % |key| == 0 && |key| / |key| == 1;
    assert Rcon(1) == 1;
  }

  /** Word 12 of the schedule of eight words. */
  lemma MiddleWord(fwd: Box, key: seq<Word>, before: Word, last: Word, sub: Word)
    requires |key| == 8 && SubW(fwd, last) == sub
    requires KeyWord(fwd, key, 4) == before && KeyWord(fwd, key, 11) == last
    ensures KeyWord(fwd, key, 12) == XorW(before, sub)
  {
    hide XorW, SubW, RotW;
  }

  const KEY192: seq<Word> :=
    [Word(0x8e, 0x73, 0xb0, 0xf7),
     Word(0xda, 0x0e, 0x64, 0x52),
     Word(0xc8, 0x10, 0xf3, 0x2b),
     Word(0x80, 0x90, 0x79, 0xe5),
     Word(0x62, 0xf8, 0xea, 0xd2),
     Word(0x52, 0x2c, 0x6b, 0x7b)]

  lemma Given192(fwd: Box)
    ensures |KEY192| == 6
    ensures KeyWord(fwd, KEY192, 0) == Word(0x8e, 0x73, 0xb0, 0xf7)
    ensures KeyWord(fwd, KEY192, 1) == Word(0xda, 0x0e, 0x64, 0x52)
    ensures KeyWord(fwd, KEY192, 2) == Word(0xc8, 0x10, 0xf3, 0x2b)
    ensures KeyWord(fwd, KEY192, 3) == Word(0x80, 0x90, 0x79, 0xe5)
    ensures KeyWord(fwd, KEY192, 4) == Word(0x62, 0xf8, 0xea, 0xd2)
    ensures KeyWord(fwd, KEY192, 5) == Word(0x52, 0x2c, 0x6b, 0x7b)
  {
    hide KeyTemp, XorW;
  }

  lemma Turn192(fwd: Box)
    requires Fips(fwd)
    ensures SubW(fwd, Word(0x2c, 0x6b, 0x7b, 0x52)) == Word(0x71, 0x7f, 0x21, 0x00)
  {
    hide Fips, SubByte, SubW;
    Row2(); Row5(); Row6(); Row7();
    SubWordIs(fwd, Word(0x2c, 0x6b, 0x7b, 0x52), Word(0x71, 0x7f, 0x21, 0x00));
  }

  lemma Key192(fwd: Box)
    requires Fips(fwd)
    ensures |KEY192| == 6
    ensures KeyWord(fwd, KEY192, 6) == Word(0xfe, 0x0c, 0x91, 0xf7)
    ensures KeyWord(fwd, KEY192, 7) == Word(0x24, 0x02, 0xf5, 0xa5)
    ensures KeyWord(fwd, KEY192, 8) == Word(0xec, 0x12, 0x06, 0x8e)
    ensures KeyWord(fwd, KEY192, 9) == Word(0x6c, 0x82, 0x7f, 0x6b)
    ensures KeyWord(fwd, KEY192, 10) == Word(0x0e, 0x7a, 0x95, 0xb9)
    ensures KeyWord(fwd, KEY192, 11) == Word(0x5c, 0x56, 0xfe, 0xc2)
  {
    hide Fips, SubW, KEY192, KeyWord;
    Given192(fwd);
    Turn192(fwd);
    var key := KEY192;
    TurnedWord(fwd, key, Word(0x8e, 0x73, 0xb0, 0xf7), Word(0x52, 0x2c, 0x6b, 0x7b), Word(0x71, 0x7f, 0x21, 0x00));
    PlainWord(fwd, key, 7, Word(0xda, 0x0e, 0x64, 0x52), Word(0xfe, 0x0c, 0x91, 0xf7));
    PlainWord(fwd, key, 8, Word(0xc8, 0x10, 0xf3, 0x2b), Word(0x24, 0x02, 0xf5, 0xa5));
    PlainWord(fwd, key, 9, Word(0x80, 0x90, 0x79, 0xe5), Word(0xec, 0x12, 0x06, 0x8e));
    PlainWord(fwd, key, 10, Word(0x62, 0xf8, 0xea, 0xd2), Word(0x6c, 0x82, 0x7f, 0x6b));
    PlainWord(fwd, key, 11, Word(0x52, 0x2c, 0x6b, 0x7b), Word(0x0e, 0x7a, 0x95, 0xb9));
  }

  const KEY256: seq<Word> :=
    [Word(0x60, 0x3d, 0xeb, 0x10),
     Word(0x15, 0xca, 0x71, 0xbe),
     Word(0x2b, 0x73, 0xae, 0xf0),
     Word(0x85, 0x7d, 0x77, 0x81),
     Word(0x1f, 0x35, 0x2c, 0x07),
     Word(0x3b, 0x61, 0x08, 0xd7),
     Word(0x2d, 0x98, 0x10, 0xa3),
     Word(0x09, 0x14, 0xdf, 0xf4)]

  lemma Given256(fwd: Box)
    ensures |KEY256| == 8
    ensures KeyWord(fwd, KEY256, 0) == Word(0x60, 0x3d, 0xeb, 0x10)
    ensures KeyWord(fwd, KEY256, 1) == Word(0x15, 0xca, 0x71, 0xbe)
    ensures KeyWord(fwd, KEY256, 2) == Word(0x2b, 0x73, 0xae, 0xf0)
    ensures KeyWord(fwd, KEY256, 3) == Word(0x85, 0x7d, 0x77, 0x81)
    ensures KeyWord(fwd, KEY256, 4) == Word(0x1f, 0x35, 0x2c, 0x07)
    ensures KeyWord(fwd, KEY256, 5) == Word(0x3b, 0x61, 0x08, 0xd7)
    ensures KeyWord(fwd, KEY256, 6) == Word(0x2d, 0x98, 0x10, 0xa3)
    ensures KeyWord(fwd, KEY256, 7) == Word(0x09, 0x14, 0xdf, 0xf4)
  {
    hide KeyTemp, XorW;
  }

  lemma Turn256(fwd: Box)
    requires Fips(fwd)
    ensures SubW(fwd, Word(0x14, 0xdf, 0xf4, 0x09)) == Word(0xfa, 0x9e, 0xbf, 0x01)
  {
    hide Fips, SubByte, SubW;
    Row0(); Row1(); RowD(); RowF();
    SubWordIs(fwd, Word(0x14, 0xdf, 0xf4, 0x09), Word(0xfa, 0x9e, 0xbf, 0x01));
  }

  lemma Middle256(fwd: Box)
    requires Fips(fwd)
    ensures SubW(fwd, Word(0x20, 0x67, 0xfc, 0xde)) == Word(0xb7, 0x85, 0xb0, 0x1d)
  {
    hide Fips, SubByte, SubW;
    Row2(); Row6(); RowD(); RowF();
    SubWordIs(fwd, Word(0x20, 0x67, 0xfc, 0xde), Word(0xb7, 0x85, 0xb0, 0x1d));
  }

  lemma Key256(fwd: Box)
    requires Fips(fwd)
    ensures |KEY256| == 8
    ensures KeyWord(fwd, KEY256, 8) == Word(0x9b, 0xa3, 0x54, 0x11)
    ensures KeyWord(fwd, KEY256, 9) == Word(0x8e, 0x69, 0x25, 0xaf)
    ensures KeyWord(fwd, KEY256, 10) == Word(0xa5, 0x1a, 0x8b, 0x5f)
    ensures KeyWord(fwd, KEY256, 11) == Word(0x20, 0x67, 0xfc, 0xde)
    ensures KeyWord(fwd, KEY256, 12) == Word(0xa8, 0xb0, 0x9c, 0x1a)
    ensures KeyWord(fwd, KEY256, 13) == Word(0x93, 0xd1, 0x94, 0xcd)
    ensures KeyWord(fwd, KEY256, 14) == Word(0xbe, 0x49, 0x84, 0x6e)
    ensures KeyWord(fwd, KEY256, 15) == Word(0xb7, 0x5d, 0x5b, 0x9a)
  {
    hide Fips, SubW, KEY256, KeyWord;
    Given256(fwd);
    Turn256(fwd);
    var key := KEY256;
    TurnedWord(fwd, key, Word(0x60, 0x3d, 0xeb, 0x10), Word(0x09, 0x14, 0xdf, 0xf4), Word(0xfa, 0x9e, 0xbf, 0x01));
    PlainWord(fwd, key, 9, Word(0x15, 0xca, 0x71, 0xbe), Word(0x9b, 0xa3, 0x54, 0x11));
    PlainWord(fwd, key, 10, Word(0x2b, 0x73, 0xae, 0xf0), Word(0x8e, 0x69, 0x25, 0xaf));
    PlainWord(fwd, key, 11, Word(0x85, 0x7d, 0x77, 0x81), Word(0xa5, 0x1a, 0x8b, 0x5f));
    Middle256(fwd);
    MiddleWord(fwd, key, Word(0x1f, 0x35, 0x2c, 0x07), Word(0x20, 0x67, 0xfc, 0xde), Word(0xb7, 0x85, 0xb0, 0x1d));
    PlainWord(fwd, key, 13, Word(0x3b, 0x61, 0x08, 0xd7), Word(0xa8, 0xb0, 0x9c, 0x1a));
    PlainWord(fwd, key, 14, Word(0x2d, 0x98, 0x10, 0xa3), Word(0x93, 0xd1, 0x94, 0xcd));
    PlainWord(fwd, key, 15, Word(0x09, 0x14, 0xdf, 0xf4), Word(0xbe, 0x49, 0x84, 0x6e));
  }
}
