/** The block structure of each version and level (qrcode/qrspec.c:190-257). */
module QrSpec {
  import opened Products
  import opened QrRaw
  import opened QrCapacity

  function BlocksLow(version: nat): (nat, nat) {
    match version
    case 1 => (1, 0) case 2 => (1, 0) case 3 => (1, 0) case 4 => (1, 0) case 5 => (1, 0) case 6 => (2, 0)
    case 7 => (2, 0) case 8 => (2, 0) case 9 => (2, 0) case 10 => (2, 2) case 11 => (4, 0) case 12 => (2, 2)
    case 13 => (4, 0) case 14 => (3, 1) case 15 => (5, 1) case 16 => (5, 1) case 17 => (1, 5)
    case 18 => (5, 1) case 19 => (3, 4) case 20 => (3, 5) case 21 => (4, 4) case 22 => (2, 7)
    case 23 => (4, 5) case 24 => (6, 4) case 25 => (8, 4) case 26 => (10, 2) case 27 => (8, 4)
    case 28 => (3, 10) case 29 => (7, 7) case 30 => (5, 10) case 31 => (13, 3) case 32 => (17, 0)
    case 33 => (17, 1) case 34 => (13, 6) case 35 => (12, 7) case 36 => (6, 14) case 37 => (17, 4)
    case 38 => (4, 18) case 39 => (20, 4) case 40 => (19, 6)
    case _ => (0, 0)
  }

  function BlocksMedium(version: nat): (nat, nat) {
    match version
    case 1 => (1, 0) case 2 => (1, 0) case 3 => (1, 0) case 4 => (2, 0) case 5 => (2, 0) case 6 => (4, 0)
    case 7 => (4, 0) case 8 => (2, 2) case 9 => (3, 2) case 10 => (4, 1) case 11 => (1, 4) case 12 => (6, 2)
    case 13 => (8, 1) case 14 => (4, 5) case 15 => (5, 5) case 16 => (7, 3) case 17 => (10, 1)
    case 18 => (9, 4) case 19 => (3, 11) case 20 => (3, 13) case 21 => (17, 0) case 22 => (17, 0)
    case 23 => (4, 14) case 24 => (6, 14) case 25 => (8, 13) case 26 => (19, 4) case 27 => (22, 3)
    case 28 => (3, 23) case 29 => (21, 7) case 30 => (19, 10) case 31 => (2, 29) case 32 => (10, 23)
    case 33 => (14, 21) case 34 => (14, 23) case 35 => (12, 26) case 36 => (6, 34) case 37 => (29, 14)
    case 38 => (13, 32) case 39 => (40, 7) case 40 => (18, 31)
    case _ => (0, 0)
  }

  function BlocksQuartile(version: nat): (nat, nat) {
    match version
    case 1 => (1, 0) case 2 => (1, 0) case 3 => (2, 0) case 4 => (2, 0) case 5 => (2, 2) case 6 => (4, 0)
    case 7 => (2, 4) case 8 => (4, 2) case 9 => (4, 4) case 10 => (6, 2) case 11 => (4, 4) case 12 => (4, 6)
    case 13 => (8, 4) case 14 => (11, 5) case 15 => (5, 7) case 16 => (15, 2) case 17 => (1, 15)
    case 18 => (17, 1) case 19 => (17, 4) case 20 => (15, 5) case 21 => (17, 6) case 22 => (7, 16)
    case 23 => (11, 14) case 24 => (11, 16) case 25 => (7, 22) case 26 => (28, 6) case 27 => (8, 26)
    case 28 => (4, 31) case 29 => (1, 37) case 30 => (15, 25) case 31 => (42, 1) case 32 => (10, 35)
    case 33 => (29, 19) case 34 => (44, 7) case 35 => (39, 14) case 36 => (46, 10) case 37 => (49, 10)
    case 38 => (48, 14) case 39 => (43, 22) case 40 => (34, 34)
    case _ => (0, 0)
  }

  function BlocksHigh(version: nat): (nat, nat) {
    match version
    case 1 => (1, 0) case 2 => (1, 0) case 3 => (2, 0) case 4 => (4, 0) case 5 => (2, 2) case 6 => (4, 0)
    case 7 => (4, 1) case 8 => (4, 2) case 9 => (4, 4) case 10 => (6, 2) case 11 => (3, 8) case 12 => (7, 4)
    case 13 => (12, 4) case 14 => (11, 5) case 15 => (11, 7) case 16 => (3, 13) case 17 => (2, 17)
    case 18 => (2, 19) case 19 => (9, 16) case 20 => (15, 10) case 21 => (19, 6) case 22 => (34, 0)
    case 23 => (16, 14) case 24 => (30, 2) case 25 => (22, 13) case 26 => (33, 4) case 27 => (12, 28)
    case 28 => (11, 31) case 29 => (19, 26) case 30 => (23, 25) case 31 => (23, 28) case 32 => (19, 35)
    case 33 => (11, 46) case 34 => (59, 1) case 35 => (22, 41) case 36 => (2, 64) case 37 => (24, 46)
    case 38 => (42, 32) case 39 => (10, 67) case 40 => (20, 61)
    case _ => (0, 0)
  }

  /** The table eccTable: how many blocks of the shorter and of the longer kind. */
  function BlockCounts(version: nat, level: Level): (nat, nat) {
    match level
    case L => BlocksLow(version)
    case M => BlocksMedium(version)
    case Q => BlocksQuartile(version)
    case H => BlocksHigh(version)
  }

  /** There is a block of the shorter kind, the codewords share out evenly but for one more
      in each longer block, the coder takes the number of check symbols, and no block is
      longer than the field allows. */
  predicate Shares(blocks: (nat, nat), data: nat, ecc: nat) {
    var n := blocks.0 + blocks.1;
    && blocks.0 >= 1 && data >= n && data % n == blocks.1
    && ecc % n == 0 && 2 * n <= ecc <= 30 * n && data + ecc <= 254 * n
  }

  lemma SharesLowTo20(version: nat)
    requires 1 <= version <= 20
    ensures Shares(BlocksLow(version), Words(version) - EccLow(version), EccLow(version))
  {
  }

  lemma SharesLowTo30(version: nat)
    requires 21 <= version <= 30
    ensures Shares(BlocksLow(version), Words(version) - EccLow(version), EccLow(version))
  {
  }

  lemma SharesLowTo40(version: nat)
    requires 31 <= version <= 40
    ensures Shares(BlocksLow(version), Words(version) - EccLow(version), EccLow(version))
  {
  }

  lemma SharesMediumTo20(version: nat)
    requires 1 <= version <= 20
    ensures Shares(BlocksMedium(version), Words(version) - EccMedium(version), EccMedium(version))
  {
  }

  lemma SharesMediumTo30(version: nat)
    requires 21 <= version <= 30
    ensures Shares(BlocksMedium(version), Words(version) - EccMedium(version), EccMedium(version))
  {
  }

  lemma SharesMediumTo40(version: nat)
    requires 31 <= version <= 40
    ensures Shares(BlocksMedium(version), Words(version) - EccMedium(version), EccMedium(version))
  {
  }

  lemma SharesQuartileTo20(version: nat)
    requires 1 <= version <= 20
    ensures Shares(BlocksQuartile(version), Words(version) - EccQuartile(version), EccQuartile(version))
  {
  }

  lemma SharesQuartileTo30(version: nat)
    requires 21 <= version <= 30
    ensures Shares(BlocksQuartile(version), Words(version) - EccQuartile(version), EccQuartile(version))
  {
  }

  lemma SharesQuartileTo40(version: nat)
    requires 31 <= version <= 40
    ensures Shares(BlocksQuartile(version), Words(version) - EccQuartile(version), EccQuartile(version))
  {
  }

  lemma SharesHighTo20(version: nat)
    requires 1 <= version <= 20
    ensures Shares(BlocksHigh(version), Words(version) - EccHigh(version), EccHigh(version))
  {
  }

  lemma SharesHighTo30(version: nat)
    requires 21 <= version <= 30
    ensures Shares(BlocksHigh(version), Words(version) - EccHigh(version), EccHigh(version))
  {
  }

  lemma SharesHighTo40(version: nat)
    requires 31 <= version <= 40
    ensures Shares(BlocksHigh(version), Words(version) - EccHigh(version), EccHigh(version))
  {
  }

  lemma AllShare(version: nat, level: Level)
    requires 1 <= version <= VERSION_MAX
    ensures Shares(BlockCounts(version, level), DataLength(version, level), EccLength(version, level))
  {
    hide Shares, Words, EccLow, EccMedium, EccQuartile, EccHigh, BlocksLow, BlocksMedium, BlocksQuartile, BlocksHigh;
    match level
    case L =>
      if version <= 20 { SharesLowTo20(version); } else if version <= 30 { SharesLowTo30(version); } else { SharesLowTo40(version); }
    case M =>
      if version <= 20 { SharesMediumTo20(version); } else if version <= 30 { SharesMediumTo30(version); } else { SharesMediumTo40(version); }
    case Q =>
      if version <= 20 { SharesQuartileTo20(version); } else if version <= 30 { SharesQuartileTo30(version); } else { SharesQuartileTo40(version); }
    case H =>
      if version <= 20 { SharesHighTo20(version); } else if version <= 30 { SharesHighTo30(version); } else { SharesHighTo40(version); }
  }

  /** QRspec_getEccSpec */
  function EccSpec(version: nat, level: Level): Spec
    requires 1 <= version <= VERSION_MAX
  {
    hide BlockCounts, DataLength, EccLength;
    AllShare(version, level);
    var (b1, b2) := BlockCounts(version, level);
    var data, ecc := DataLength(version, level), EccLength(version, level);
    if b2 == 0 then Spec(b1, data / b1, ecc / b1, 0) else Spec(b1, data / (b1 + b2), ecc / (b1 + b2), b2)
  }

  /** The blocks hold exactly the codewords of the capacity table, and each has a number
      of check symbols the coder can compute. */
  lemma EccSpecExact(version: nat, level: Level)
    requires 1 <= version <= VERSION_MAX
    ensures
      var s := EccSpec(version, level);
      && s.Valid() && s.DataLength() == DataLength(version, level) && s.EccLength() == EccLength(version, level)
      && s.DataLength() + s.EccLength() == Words(version) && s.d + 1 + s.e <= 255
  {
    hide Words, EccLength, BlockCounts, Shares;
    AllShare(version, level);
    var (b1, b2) := BlockCounts(version, level);
    SharedSpec(b1, b2, DataLength(version, level), EccLength(version, level));
  }

  lemma SharedSpec(b1: nat, b2: nat, data: nat, ecc: nat)
    requires Shares((b1, b2), data, ecc)
    ensures
      var s := Spec(b1, data / (b1 + b2), ecc / (b1 + b2), b2);
      s.Valid() && s.DataLength() == data && s.EccLength() == ecc && s.d + 1 + s.e <= 255
  {
    var n := b1 + b2;
    var d, e := data / n, ecc / n;
    Quotient(data, n);
    Quotient(ecc, n);
    TimesIs(b1, d);
    TimesIs(b2, d + 1);
    TimesIs(n, e);
    Distributes(b1, b2, d);
    Divide(data, n);
    Divide(ecc, n);
    Together(data, ecc, n, d, e);
    hide Times;
  }

  lemma Together(data: nat, ecc: nat, n: nat, d: nat, e: nat)
    requires n > 0 && Times(d, n) <= data && Times(e, n) <= ecc && data + ecc <= 254 * n
    ensures d + e <= 254
  {
    Distribute(d, e, n);
    TimesIs(255, n);
    hide Times;
    if d + e > 254 {
      Monotone(255, d + e, n);
    }
  }

  lemma Distributes(a: nat, b: nat, d: nat)
    ensures a * d + b * (d + 1) == (a + b) * d + b
  {
  }

  lemma Quotient(a: nat, n: nat)
    requires n > 0
    ensures a == n * (a / n) + a % n
    ensures a >= n ==> a / n >= 1
    ensures 2 * n <= a <= 30 * n ==> 2 <= a / n <= 30
  {
  }
}
