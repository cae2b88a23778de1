/** Table-driven AES (common/crypto/polaraes.c): the key schedules and the cipher. */
module PolarAes {
  import opened Gf256
  import opened Aes
  import opened PolarTables

  // ----- the context -----

  datatype Direction = ENCRYPT | DECRYPT

  lemma Regroup(a: Word, r: Word, t: Word)
    ensures XorW(XorW(a, r), t) == XorW(a, XorW(t, r))
  {
    hide Add;
    AddLaws(a.b0, r.b0, t.b0); AddLaws(r.b0, t.b0, 0);
    AddLaws(a.b1, r.b1, t.b1); AddLaws(r.b1, t.b1, 0);
    AddLaws(a.b2, r.b2, t.b2); AddLaws(r.b2, t.b2, 0);
    AddLaws(a.b3, r.b3, t.b3); AddLaws(r.b3, t.b3, 0);
  }

  /** aes_context, with rk at the start of buf. */
  class Context {
    const tables: Tables
    var nr: nat
    const buf: array<Word>

    constructor (t: Tables)
      ensures tables == t && fresh(buf) && Shape()
    {
      tables := t;
      nr := 10;
      buf := new Word[68];
    }

    ghost predicate Shape()
    {
      && buf.Length == 68 && buf as object != tables.FT && buf as object != tables.RT
      && buf as object != tables.FSb && buf as object != tables.RSb && buf as object != tables.RCON
    }

    ghost predicate Valid()
      reads this, buf, tables, tables.FSb, tables.RSb, tables.FT, tables.RT, tables.RCON
    {
      Shape() && tables.Ready() && (nr == 10 || nr == 12 || nr == 14)
    }

    /** The S-boxes in use. */
    ghost function Fwd(): Box
      requires Valid()
      reads this, buf, tables, tables.FSb, tables.RSb, tables.FT, tables.RT, tables.RCON
    {
      tables.FSb[..]
    }

    ghost function Rev(): Box
      requires Valid()
      reads this, buf, tables, tables.FSb, tables.RSb, tables.FT, tables.RT, tables.RCON
    {
      tables.RSb[..]
    }

    /** The round keys. */
    ghost function Keys(): (r: seq<State>)
      requires Valid()
      reads this, buf, tables, tables.FSb, tables.RSb, tables.FT, tables.RT, tables.RCON
      ensures |r| == nr + 1 && 11 <= |r| <= 15
    {
      StatesOf(buf[..], nr)
    }

    /** The bytes of FSb, moved as in the first word of a round of the key schedule. */
    function SubRot(w: Word): (r: Word)
      requires tables.Shape()
      reads tables.FSb
      ensures r == SubW(tables.FSb[..], RotW(w))
    {
      Word(tables.S(w.b1), tables.S(w.b2), tables.S(w.b3), tables.S(w.b0))
    }

    function Sub(w: Word): (r: Word)
      requires tables.Shape()
      reads tables.FSb
      ensures r == SubW(tables.FSb[..], w)
    {
      Word(tables.S(w.b0), tables.S(w.b1), tables.S(w.b2), tables.S(w.b3))
    }

    /** The words of the schedule so far. */
    ghost predicate Expanded(key: seq<Word>, n: nat)
      requires |key| > 0
      reads buf, tables.FSb
    {
      && Shape() && tables.Shape() && n <= buf.Length
      && forall j :: 0 <= j < n ==> buf[j] == KeyWord(tables.FSb[..], key, j)
    }

    /** The first word of a round: RK[nk] = RK[0] ^ RCON[i] ^ FSb... */
    method FirstWord(ghost key: seq<Word>, nk: nat, i: nat)
      requires Shape() && tables.Ready() && (nk == 4 || nk == 6 || nk == 8) && |key| == nk && i < 10 && nk * (i + 1) < 68
      requires Expanded(key, nk * (i + 1))
      modifies buf
      ensures tables.Ready() && Expanded(key, nk * (i + 1) + 1)
    {
      hide KeyWord, SubW, RotW, XorW, Rcon;
      var p := nk * i;
      var t := SubRot(buf[p + nk - 1]);
      ghost var a, rc := buf[p], Word(tables.RCON[i], 0, 0, 0);
      buf[p + nk] := XorW(XorW(buf[p], Word(tables.RCON[i], 0, 0, 0)), t);
      Regroup(a, rc, t);
      RoundStart(tables.FSb[..], key, i);
    }

    /** RK[j] = RK[j - nk] ^ RK[j - 1] */
    method NextWord(ghost key: seq<Word>, nk: nat, j: nat)
      requires Shape() && tables.Ready() && (nk == 4 || nk == 6 || nk == 8) && |key| == nk && nk <= j < 68
      requires j % nk != 0 && !(nk > 6 && j % nk == 4) && Expanded(key, j)
      modifies buf
      ensures tables.Ready() && Expanded(key, j + 1)
    {
      hide KeyWord, XorW;
      buf[j] := XorW(buf[j - nk], buf[j - 1]);
      RoundInner(tables.FSb[..], key, j);
    }

    /** RK[12] = RK[4] ^ FSb... */
    method MiddleWord(ghost key: seq<Word>, j: nat)
      requires Shape() && tables.Ready() && |key| == 8 && 8 <= j < 68 && j % 8 == 4 && Expanded(key, j)
      modifies buf
      ensures tables.Ready() && Expanded(key, j + 1)
    {
      hide KeyWord, XorW, SubW;
      var t := Sub(buf[j - 1]);
      buf[j] := XorW(buf[j - 8], t);
      RoundMiddle(tables.FSb[..], key, j);
    }

    /** kf_aes_setkey_enc */
    method SetKeyEnc(key: seq<bv8>, keysize: nat) returns (ret: int)
      requires Shape() && tables.Ready() && (keysize == 128 || keysize == 192 || keysize == 256 ==> |key| == keysize / 8)
      modifies `nr, buf
      ensures ret == 0 <==> keysize == 128 || keysize == 192 || keysize == 256
      ensures ret == 0 ==> nr == keysize / 32 + 6
      ensures ret == 0 ==> Valid() && Keys() == KeySchedule(tables.FSb[..], WordsOf(key))
    {
      hide KeyWord, Expanded;
      if keysize != 128 && keysize != 192 && keysize != 256 {
        return -0x0020;
      }
      nr := if keysize == 128 then 10 else if keysize == 192 then 12 else 14;
      ghost var k := WordsOf(key);
      SetWords(key);
      if nr == 10 {
        Expand128(k);
      } else if nr == 12 {
        Expand192(k);
      } else {
        Expand256(k);
      }
      ExpandedMeans(k, 4 * (nr + 1));
      ScheduleOf(tables.FSb[..], k, buf[..], nr);
      ret := 0;
    }

    /** The first words of the schedule are the key. */
    method SetWords(key: seq<bv8>)
      requires Shape() && tables.Ready() && (|key| == 16 || |key| == 24 || |key| == 32)
      modifies buf
      ensures tables.Ready() && |WordsOf(key)| == |key| / 4 && Expanded(WordsOf(key), |key| / 4)
    {
      hide KeyWord;
      ghost var k := WordsOf(key);
      for i := 0 to |key| / 4
        invariant tables.Ready() && forall j :: 0 <= j < i ==> buf[j] == k[j]
      {
        buf[i] := WordAt(key, 4 * i);
      }
      GivenWords(tables.FSb[..], k);
    }

    lemma ExpandedMeans(key: seq<Word>, n: nat)
      requires |key| > 0 && exists m :: n <= m && Expanded(key, m)
      ensures n <= 68 && |buf[..]| == 68 && forall j :: 0 <= j < n ==> buf[..][j] == KeyWord(tables.FSb[..], key, j)
    {
      hide KeyWord;
    }

    method Expand128(ghost k: seq<Word>)
      requires Shape() && tables.Ready() && |k| == 4 && Expanded(k, 4)
      modifies buf
      ensures tables.Ready() && Expanded(k, 44)
    {
      hide Expanded;
      for i := 0 to 10
        invariant tables.Ready() && Expanded(k, 4 * (i + 1))
      {
        FirstWord(k, 4, i);
        NextWord(k, 4, 4 * i + 5);
        NextWord(k, 4, 4 * i + 6);
        NextWord(k, 4, 4 * i + 7);
      }
    }

    method Expand192(ghost k: seq<Word>)
      requires Shape() && tables.Ready() && |k| == 6 && Expanded(k, 6)
      modifies buf
      ensures tables.Ready() && Expanded(k, 54)
    {
      hide Expanded;
      for i := 0 to 8
        invariant tables.Ready() && Expanded(k, 6 * (i + 1))
      {
        FirstWord(k, 6, i);
        NextWord(k, 6, 6 * i + 7);
        NextWord(k, 6, 6 * i + 8);
        NextWord(k, 6, 6 * i + 9);
        NextWord(k, 6, 6 * i + 10);
        NextWord(k, 6, 6 * i + 11);
      }
    }

    method Expand256(ghost k: seq<Word>)
      requires Shape() && tables.Ready() && |k| == 8 && Expanded(k, 8)
      modifies buf
      ensures tables.Ready() && Expanded(k, 64)
    {
      hide Expanded;
      for i := 0 to 7
        invariant tables.Ready() && Expanded(k, 8 * (i + 1))
      {
        FirstWord(k, 8, i);
        NextWord(k, 8, 8 * i + 9);
        NextWord(k, 8, 8 * i + 10);
        NextWord(k, 8, 8 * i + 11);
        MiddleWord(k, 8 * i + 12);
        NextWord(k, 8, 8 * i + 13);
        NextWord(k, 8, 8 * i + 14);
        NextWord(k, 8, 8 * i + 15);
      }
    }

    /** kf_aes_setkey_dec */
    method SetKeyDec(key: seq<bv8>, keysize: nat) returns (ret: int)
      requires Shape() && tables.Ready() && (keysize == 128 || keysize == 192 || keysize == 256 ==> |key| == keysize / 8)
      modifies `nr, buf
      ensures ret == 0 <==> keysize == 128 || keysize == 192 || keysize == 256
      ensures ret == 0 ==> Valid() && Keys() == InverseKeys(KeySchedule(tables.FSb[..], WordsOf(key)))
    {
      hide KeySchedule, WordsOf, InvMixW;
      if keysize != 128 && keysize != 192 && keysize != 256 {
        return -0x0020;
      }
      nr := if keysize == 128 then 10 else if keysize == 192 then 12 else 14;
      var cty := new Context(tables);
      ret := cty.SetKeyEnc(key, keysize);
      ghost var keys := cty.Keys();
      assert cty.nr == nr;
      CopyBack(cty);
      InverseOf(keys, cty.buf[..], buf[..], nr);
    }

    /** The words of the encryption schedule from the end, the inner ones unmixed. */
    method CopyBack(cty: Context)
      requires Shape() && cty.Shape() && cty.tables == tables && tables.Ready() && cty.buf != buf && cty.nr == nr && 2 <= nr <= 14
      modifies buf
      ensures tables.Ready() && cty.buf[..] == old(cty.buf[..])
      ensures forall r: nat {:trigger BackRound(cty.buf[..], nr, r)} :: r <= nr ==> KeyAt(r) == BackRound(cty.buf[..], nr, r)
    {
      hide InvMixW, BackRound, Tables.Ready;
      CopyWords(cty, 0);
      var i := nr - 1;
      while i > 0
        invariant 0 <= i < nr && tables.Ready()
        invariant forall r: nat {:trigger BackRound(cty.buf[..], nr, r)} :: r < nr - i ==>
                    KeyAt(r) == BackRound(cty.buf[..], nr, r)
      {
        UnmixWords(cty, nr - i);
        i := i - 1;
      }
      CopyWords(cty, nr);
    }

    /** *RK++ = *SK++, four times. */
    method CopyWords(cty: Context, r: nat)
      requires Shape() && cty.Shape() && cty.tables == tables && tables.Ready() && cty.buf != buf && cty.nr == nr && 2 <= nr <= 14
      requires r == 0 || r == nr
      modifies buf
      ensures tables.Ready() && KeyAt(r) == BackRound(cty.buf[..], nr, r)
      ensures forall k: nat :: k <= nr && k != r ==> KeyAt(k) == old(KeyAt(k))
    {
      hide InvMixW;
      var p, q := 4 * r, 4 * (nr - r);
      buf[p] := cty.buf[q];
      buf[p + 1] := cty.buf[q + 1];
      buf[p + 2] := cty.buf[q + 2];
      buf[p + 3] := cty.buf[q + 3];
    }

    /** The inner loop of kf_aes_setkey_dec. */
    method UnmixWords(cty: Context, r: nat)
      requires Shape() && cty.Shape() && cty.tables == tables && tables.Ready() && cty.buf != buf && cty.nr == nr && 2 <= nr <= 14
      requires 0 < r < nr
      modifies buf
      ensures tables.Ready() && KeyAt(r) == BackRound(cty.buf[..], nr, r)
      ensures forall k: nat :: k <= nr && k != r ==> KeyAt(k) == old(KeyAt(k))
    {
      hide InvMixW, Inverse, ForwardEntry, ReverseEntry;
      var p, q := 4 * r, 4 * (nr - r);
      ghost var was := buf[..];
      for j := 0 to 4
        invariant tables.Ready() && buf[..p] == was[..p] && buf[p + 4..] == was[p + 4..]
        invariant forall k :: p <= k < p + j ==> buf[k] == InvMixW(cty.buf[q - p + k])
      {
        buf[p + j] := tables.Unmixed(cty.buf[q + j]);
      }
      forall k: nat | k <= nr && k != r ensures KeyAt(k) == old(KeyAt(k)) {
        SameKey(was, buf[..], k, p);
      }
    }

    function KeyAt(r: nat): State
      requires Shape() && r <= 14
      reads buf
    {
      KeyIn(buf[..], r)
    }

    /** AES_FROUND with the words of round r. */
    method ForwardRound(r: nat, y: State) returns (x: State)
      requires Valid() && r <= nr
      ensures x == XorS(MixS(ShiftRows(SubS(tables.FSb[..], y))), KeyAt(r))
    {
      hide MixW, XorW, At;
      var k := KeyAt(r);
      x := State(tables.ForwardWord(k.c0, y.c0, y.c1, y.c2, y.c3), tables.ForwardWord(k.c1, y.c1, y.c2, y.c3, y.c0),
                 tables.ForwardWord(k.c2, y.c2, y.c3, y.c0, y.c1), tables.ForwardWord(k.c3, y.c3, y.c0, y.c1, y.c2));
    }

    /** AES_RROUND with the words of round r. */
    method ReverseRound(r: nat, y: State) returns (x: State)
      requires Valid() && r <= nr
      ensures x == XorS(InvMixS(InvShiftRows(SubS(tables.RSb[..], y))), KeyAt(r))
    {
      hide InvMixW, XorW, At;
      var k := KeyAt(r);
      x := State(tables.ReverseWord(k.c0, y.c0, y.c3, y.c2, y.c1), tables.ReverseWord(k.c1, y.c1, y.c0, y.c3, y.c2),
                 tables.ReverseWord(k.c2, y.c2, y.c1, y.c0, y.c3), tables.ReverseWord(k.c3, y.c3, y.c2, y.c1, y.c0));
    }

    method LastForwardRound(y: State) returns (x: State)
      requires Valid()
      ensures x == XorS(ShiftRows(SubS(tables.FSb[..], y)), KeyAt(nr))
    {
      hide XorW, At;
      var k := KeyAt(nr);
      x := State(tables.LastForward(k.c0, y.c0, y.c1, y.c2, y.c3), tables.LastForward(k.c1, y.c1, y.c2, y.c3, y.c0),
                 tables.LastForward(k.c2, y.c2, y.c3, y.c0, y.c1), tables.LastForward(k.c3, y.c3, y.c0, y.c1, y.c2));
    }

    method LastReverseRound(y: State) returns (x: State)
      requires Valid()
      ensures x == XorS(InvShiftRows(SubS(tables.RSb[..], y)), KeyAt(nr))
    {
      hide XorW, At;
      var k := KeyAt(nr);
      x := State(tables.LastReverse(k.c0, y.c0, y.c3, y.c2, y.c1), tables.LastReverse(k.c1, y.c1, y.c0, y.c3, y.c2),
                 tables.LastReverse(k.c2, y.c2, y.c1, y.c0, y.c3), tables.LastReverse(k.c3, y.c3, y.c2, y.c1, y.c0));
    }

    /** kf_aes_crypt_ecb */
    method CryptEcb(mode: Direction, input: Block) returns (output: Block)
      requires Valid()
      ensures |Keys()| >= 2
      ensures output == if mode == ENCRYPT then EncryptBlock(Fwd(), Keys(), input)
                        else FromState(EqInvCipher(Rev(), Keys(), ToState(input)))
    {
      hide XorS, FromState, ToState, Inverse, ForwardEntry, ReverseEntry, Cipher, EqInvCipher;
      var s := ToState(input);
      var x := XorS(s, KeyAt(0));
      if mode == DECRYPT {
        x := ReverseRounds(s, x);
      } else {
        x := ForwardRounds(s, x);
      }
      output := FromState(x);
    }

    method ForwardRounds(ghost s: State, x0: State) returns (x: State)
      requires Valid() && x0 == XorS(s, KeyAt(0))
      ensures x == Cipher(tables.FSb[..], Keys(), s)
    {
      hide XorS, MixS, ShiftRows, SubS, Inverse, ForwardEntry, ReverseEntry;
      KeysAre();
      x := x0;
      var y: State;
      var i := nr / 2 - 1;
      while i > 0
        invariant 0 <= i < nr / 2 && x == Rounds(tables.FSb[..], Keys(), s, nr - 2 * i - 2)
      {
        y := ForwardRound(nr - 2 * i - 1, x);
        x := ForwardRound(nr - 2 * i, y);
        i := i - 1;
      }
      y := ForwardRound(nr - 1, x);
      x := LastForwardRound(y);
    }

    method ReverseRounds(ghost s: State, x0: State) returns (x: State)
      requires Valid() && x0 == XorS(s, KeyAt(0))
      ensures x == EqInvCipher(tables.RSb[..], Keys(), s)
    {
      hide XorS, InvMixS, InvShiftRows, SubS, Inverse, ForwardEntry, ReverseEntry;
      KeysAre();
      x := x0;
      var y: State;
      var i := nr / 2 - 1;
      while i > 0
        invariant 0 <= i < nr / 2 && x == EqRounds(tables.RSb[..], Keys(), s, nr - 2 * i - 2)
      {
        y := ReverseRound(nr - 2 * i - 1, x);
        x := ReverseRound(nr - 2 * i, y);
        i := i - 1;
      }
      y := ReverseRound(nr - 1, x);
      x := LastReverseRound(y);
    }

    lemma KeysAre()
      requires Valid()
      ensures forall r :: 0 <= r <= nr ==> Keys()[r] == KeyAt(r)
    {
    }
  }

  function KeyIn(buf: seq<Word>, r: nat): State
    requires |buf| == 68 && r <= 14
  {
    State(buf[4 * r], buf[4 * r + 1], buf[4 * r + 2], buf[4 * r + 3])
  }

  /** Round key r of the decryption schedule. */
  function BackRound(buf: seq<Word>, nr: nat, r: nat): State
    requires |buf| == 68 && r <= nr <= 14
  {
    if r == 0 || r == nr then KeyIn(buf, nr - r) else InvMixS(KeyIn(buf, nr - r))
  }

  lemma SameKey(was: seq<Word>, buf: seq<Word>, k: nat, p: nat)
    requires |was| == |buf| == 68 && p + 4 <= 68 && p % 4 == 0 && k <= 14 && 4 * k != p
    requires buf[..p] == was[..p] && buf[p + 4..] == was[p + 4..]
    ensures KeyIn(buf, k) == KeyIn(was, k)
  {
    forall j | 4 * k <= j < 4 * k + 4 ensures buf[j] == was[j] {
      if j < p {
        assert buf[..p][j] == was[..p][j];
      } else {
        assert buf[p + 4..][j - p - 4] == was[p + 4..][j - p - 4];
      }
    }
  }

  lemma InverseOf(keys: seq<State>, enc: seq<Word>, dec: seq<Word>, nr: nat)
    requires |enc| == 68 && |dec| == 68 && 2 <= nr <= 14 && keys == StatesOf(enc, nr)
    requires forall r: nat {:trigger BackRound(enc, nr, r)} :: r <= nr ==> KeyIn(dec, r) == BackRound(enc, nr, r)
    ensures StatesOf(dec, nr) == InverseKeys(keys)
  {
    hide InvMixS;
    forall r: nat | r <= nr ensures StatesOf(dec, nr)[r] == InverseKeys(keys)[r] {
      assert KeyIn(dec, r) == BackRound(enc, nr, r);
      assert keys[nr - r] == KeyIn(enc, nr - r);
    }
  }

  function StatesOf(buf: seq<Word>, nr: nat): (r: seq<State>)
    requires |buf| == 68 && nr <= 14
    ensures |r| == nr + 1
  {
    seq(nr + 1, r requires 0 <= r <= nr => KeyIn(buf, r))
  }

  lemma GivenWords(fwd: Box, key: seq<Word>)
    requires |key| > 0
    ensures forall j :: 0 <= j < |key| ==> KeyWord(fwd, key, j) == key[j]
  {
  }

  lemma RoundStart(fwd: Box, key: seq<Word>, i: nat)
    requires |key| == 4 || |key| == 6 || |key| == 8
    ensures
      var nk := |key|;
      KeyWord(fwd, key, nk * (i + 1)) ==
        XorW(KeyWord(fwd, key, nk * i), XorW(SubW(fwd, RotW(KeyWord(fwd, key, nk * i + nk - 1))), Word(Rcon(i + 1), 0, 0, 0)))
  {
    hide SubW, RotW, XorW, Rcon;
    var j := |key| * (i + 1);
    assert j % |key| == 0 && j / |key| == i + 1 && j - |key| == |key| * i && j - 1 == |key| * i + |key| - 1;
  }

  lemma RoundInner(fwd: Box, key: seq<Word>, j: nat)
    requires |key| == 4 || |key| == 6 || |key| == 8
    requires |key| <= j && j % |key| != 0 && !(|key| > 6 && j % |key| == 4)
    ensures KeyWord(fwd, key, j) == XorW(KeyWord(fwd, key, j - |key|), KeyWord(fwd, key, j - 1))
  {
    hide SubW, RotW, XorW, Rcon;
  }

  lemma RoundMiddle(fwd: Box, key: seq<Word>, j: nat)
    requires |key| == 8 && 8 <= j && j % 8 == 4
    ensures KeyWord(fwd, key, j) == XorW(KeyWord(fwd, key, j - 8), SubW(fwd, KeyWord(fwd, key, j - 1)))
  {
    hide SubW, RotW, XorW, Rcon;
  }

  lemma ScheduleOf(fwd: Box, key: seq<Word>, buf: seq<Word>, nr: nat)
    requires |buf| == 68 && nr <= 14 && |key| > 0 && nr == |key| + 6
    requires forall j :: 0 <= j < 4 * (nr + 1) ==> buf[j] == KeyWord(fwd, key, j)
    ensures StatesOf(buf, nr) == KeySchedule(fwd, key)
  {
    hide KeyWord;
  }

  /** Decryption under kf_aes_setkey_dec undoes encryption under kf_aes_setkey_enc, for every
      block and every key. */
  lemma EcbRoundTrip(fwd: Box, rev: Box, key: seq<bv8>, b: Block)
    requires Inverse(fwd, rev) && (|key| == 16 || |key| == 24 || |key| == 32)
    ensures |WordsOf(key)| == |key| / 4
    ensures
      var keys := KeySchedule(fwd, WordsOf(key));
      FromState(EqInvCipher(rev, InverseKeys(keys), ToState(EncryptBlock(fwd, keys, b)))) == b
  {
    hide Inverse, KeySchedule, EqInvCipher, InverseKeys, EncryptBlock, ToState, FromState, InvCipher;
    var keys := KeySchedule(fwd, WordsOf(key));
    Equivalent(rev, keys, ToState(EncryptBlock(fwd, keys, b)));
    BlockUndone(fwd, rev, keys, b);
  }
}
