/** The tables of format and version information (qrcode/qrspec.c:345-388) hold the code words of
    the two BCH codes of annexes C and D of ISO/IEC 18004. */
module QrBch {
  import opened QrCapacity
  import opened QrDraw
  import opened QrMask

  /** One step of a division of polynomials: where v has the term bit, g is taken off. */
  function Without(v: bv32, bit: bv32, g: bv32): bv32 {
    if v & bit != 0 then v ^ g else v
  }

  /** The remainder of 15 bits by x^10 + x^8 + x^5 + x^4 + x^2 + x + 1. */
  function FormatRemainder(v: bv32): bv32 {
    var a := Without(v, 0x4000, 0x5370);
    var b := Without(a, 0x2000, 0x29b8);
    var c := Without(b, 0x1000, 0x14dc);
    var d := Without(c, 0x0800, 0x0a6e);
    Without(d, 0x0400, 0x0537)
  }

  /** The remainder of 18 bits by x^12 + x^11 + x^10 + x^9 + x^8 + x^5 + x^2 + 1. */
  function VersionRemainder(v: bv32): bv32 {
    var a := Without(v, 0x20000, 0x3e4a0);
    var b := Without(a, 0x10000, 0x1f250);
    var c := Without(b, 0x08000, 0x0f928);
    var d := Without(c, 0x04000, 0x07c94);
    var e := Without(d, 0x02000, 0x03e4a);
    Without(e, 0x01000, 0x01f25)
  }

  /** Two bits for the level and three for the mask, ten check bits, and 101010000010010 added. */
  function FormatCode(level: Level, mask: bv32): bv32 {
    var data := ((match level case L => 1 case M => 0 case Q => 3 case H => 2) << 13) | (mask << 10);
    (data | FormatRemainder(data)) ^ 0x5412
  }

  /** Six bits for the version and twelve check bits. */
  function VersionCode(version: bv32): bv32 {
    (version << 12) | VersionRemainder(version << 12)
  }

  /** All 32 entries of the table of format information. */
  lemma FormatWords(level: Level, mask: bv32)
    requires mask < 8
    ensures FormatInfo(mask as nat, level) == FormatCode(level, mask) as nat
  {
    hide FormatInfo, FormatCode;
    match level
    case L => FormatWordsLow(mask);
    case M => FormatWordsMedium(mask);
    case Q => FormatWordsQuartile(mask);
    case H => FormatWordsHigh(mask);
  }

  lemma FormatWordsLow(mask: bv32)
    requires mask < 8
    ensures FormatInfo(mask as nat, L) == FormatCode(L, mask) as nat
  {
    if mask == 0 { } else if mask == 1 { } else if mask == 2 { } else if mask == 3 { }
    else if mask == 4 { } else if mask == 5 { } else if mask == 6 { } else { assert mask == 7; }
  }

  lemma FormatWordsMedium(mask: bv32)
    requires mask < 8
    ensures FormatInfo(mask as nat, M) == FormatCode(M, mask) as nat
  {
    if mask == 0 { } else if mask == 1 { } else if mask == 2 { } else if mask == 3 { }
    else if mask == 4 { } else if mask == 5 { } else if mask == 6 { } else { assert mask == 7; }
  }

  lemma FormatWordsQuartile(mask: bv32)
    requires mask < 8
    ensures FormatInfo(mask as nat, Q) == FormatCode(Q, mask) as nat
  {
    if mask == 0 { } else if mask == 1 { } else if mask == 2 { } else if mask == 3 { }
    else if mask == 4 { } else if mask == 5 { } else if mask == 6 { } else { assert mask == 7; }
  }

  lemma FormatWordsHigh(mask: bv32)
    requires mask < 8
    ensures FormatInfo(mask as nat, H) == FormatCode(H, mask) as nat
  {
    if mask == 0 { } else if mask == 1 { } else if mask == 2 { } else if mask == 3 { }
    else if mask == 4 { } else if mask == 5 { } else if mask == 6 { } else { assert mask == 7; }
  }

  /** All entries of the table of version information. */
  lemma VersionWords(version: bv32)
    requires 7 <= version <= 40
    ensures VersionPattern(version as nat) == VersionCode(version) as nat
  {
    hide VersionPattern, VersionCode;
    if version <= 11 {
      VersionWordsTo11(version);
    } else if version <= 16 {
      VersionWordsTo16(version);
    } else if version <= 21 {
      VersionWordsTo21(version);
    } else if version <= 26 {
      VersionWordsTo26(version);
    } else if version <= 31 {
      VersionWordsTo31(version);
    } else if version <= 36 {
      VersionWordsTo36(version);
    } else {
      VersionWordsTo40(version);
    }
  }

  lemma VersionWordsTo11(version: bv32)
    requires 7 <= version <= 11
    ensures VersionPattern(version as nat) == VersionCode(version) as nat
  {
    if version == 7 { } else if version == 8 { } else if version == 9 { } else if version == 10 { } else { assert version == 11; }
  }

  lemma VersionWordsTo16(version: bv32)
    requires 12 <= version <= 16
    ensures VersionPattern(version as nat) == VersionCode(version) as nat
  {
    if version == 12 { } else if version == 13 { } else if version == 14 { } else if version == 15 { } else { assert version == 16; }
  }

  lemma VersionWordsTo21(version: bv32)
    requires 17 <= version <= 21
    ensures VersionPattern(version as nat) == VersionCode(version) as nat
  {
    if version == 17 { } else if version == 18 { } else if version == 19 { } else if version == 20 { } else { assert version == 21; }
  }

  lemma VersionWordsTo26(version: bv32)
    requires 22 <= version <= 26
    ensures VersionPattern(version as nat) == VersionCode(version) as nat
  {
    if version == 22 { } else if version == 23 { } else if version == 24 { } else if version == 25 { } else { assert version == 26; }
  }

  lemma VersionWordsTo31(version: bv32)
    requires 27 <= version <= 31
    ensures VersionPattern(version as nat) == VersionCode(version) as nat
  {
    if version == 27 { } else if version == 28 { } else if version == 29 { } else if version == 30 { } else { assert version == 31; }
  }

  lemma VersionWordsTo36(version: bv32)
    requires 32 <= version <= 36
    ensures VersionPattern(version as nat) == VersionCode(version) as nat
  {
    if version == 32 { } else if version == 33 { } else if version == 34 { } else if version == 35 { } else { assert version == 36; }
  }

  lemma VersionWordsTo40(version: bv32)
    requires 37 <= version <= 40
    ensures VersionPattern(version as nat) == VersionCode(version) as nat
  {
    if version == 37 { } else if version == 38 { } else if version == 39 { } else { assert version == 40; }
  }
}
