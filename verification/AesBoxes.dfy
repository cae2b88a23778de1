/** The tables Sbox and InvSbox of common/crypto/aeslib.c:62-130, row by row, against the
    S-box of FIPS-197 and its inverse. */
module AesBoxes {
  import opened Aes
  import opened AesField

  // ----- the inverse of the S-box -----

  /** The affine map of the S-box taken back. */
  function Unaffine(s: bv8): bv8 {
    ((s << 1) | (s >> 7)) ^ ((s << 3) | (s >> 5)) ^ ((s << 6) | (s >> 2)) ^ 0x05
  }

  lemma UnaffineIs(s: bv8)
    ensures Affine(Unaffine(s)) == s && Unaffine(Affine(s)) == s
  {
  }

  /** s is what the S-box puts in the place of x: with the affine part taken back it is the field inverse. */
  predicate Substitutes(x: bv8, s: bv8) {
    Inverted(Unaffine(s), x)
  }

  lemma SubstitutesIs(x: bv8, s: bv8)
    requires Substitutes(x, s)
    ensures SubByte(x) == s
  {
    hide Product, Affine, Unaffine, Inverted;
    UnaffineIs(s);
    InvertedBack(Unaffine(s), x);
    SubByteIs(x, Unaffine(s));
  }

  // ----- Sbox -----

  function Sbox0(k: bv8): (s: bv8)
    requires k < 16
    ensures Substitutes(0x00 | k, s)
  {
    match k
    case 0 => 0x63 case 1 => 0x7c case 2 => 0x77 case 3 => 0x7b case 4 => 0xf2 case 5 => 0x6b case 6 => 0x6f case 7 => 0xc5
    case 8 => 0x30 case 9 => 0x01 case 10 => 0x67 case 11 => 0x2b case 12 => 0xfe case 13 => 0xd7 case 14 => 0xab case _ => 0x76
  }

  function Sbox1(k: bv8): (s: bv8)
    requires k < 16
    ensures Substitutes(0x10 | k, s)
  {
    match k
    case 0 => 0xca case 1 => 0x82 case 2 => 0xc9 case 3 => 0x7d case 4 => 0xfa case 5 => 0x59 case 6 => 0x47 case 7 => 0xf0
    case 8 => 0xad case 9 => 0xd4 case 10 => 0xa2 case 11 => 0xaf case 12 => 0x9c case 13 => 0xa4 case 14 => 0x72 case _ => 0xc0
  }

  function Sbox2(k: bv8): (s: bv8)
    requires k < 16
    ensures Substitutes(0x20 | k, s)
  {
    match k
    case 0 => 0xb7 case 1 => 0xfd case 2 => 0x93 case 3 => 0x26 case 4 => 0x36 case 5 => 0x3f case 6 => 0xf7 case 7 => 0xcc
    case 8 => 0x34 case 9 => 0xa5 case 10 => 0xe5 case 11 => 0xf1 case 12 => 0x71 case 13 => 0xd8 case 14 => 0x31 case _ => 0x15
  }

  function Sbox3(k: bv8): (s: bv8)
    requires k < 16
    ensures Substitutes(0x30 | k, s)
  {
    match k
    case 0 => 0x04 case 1 => 0xc7 case 2 => 0x23 case 3 => 0xc3 case 4 => 0x18 case 5 => 0x96 case 6 => 0x05 case 7 => 0x9a
    case 8 => 0x07 case 9 => 0x12 case 10 => 0x80 case 11 => 0xe2 case 12 => 0xeb case 13 => 0x27 case 14 => 0xb2 case _ => 0x75
  }

  function Sbox4(k: bv8): (s: bv8)
    requires k < 16
    ensures Substitutes(0x40 | k, s)
  {
    match k
    case 0 => 0x09 case 1 => 0x83 case 2 => 0x2c case 3 => 0x1a case 4 => 0x1b case 5 => 0x6e case 6 => 0x5a case 7 => 0xa0
    case 8 => 0x52 case 9 => 0x3b case 10 => 0xd6 case 11 => 0xb3 case 12 => 0x29 case 13 => 0xe3 case 14 => 0x2f case _ => 0x84
  }

  function Sbox5(k: bv8): (s: bv8)
    requires k < 16
    ensures Substitutes(0x50 | k, s)
  {
    match k
    case 0 => 0x53 case 1 => 0xd1 case 2 => 0x00 case 3 => 0xed case 4 => 0x20 case 5 => 0xfc case 6 => 0xb1 case 7 => 0x5b
    case 8 => 0x6a case 9 => 0xcb case 10 => 0xbe case 11 => 0x39 case 12 => 0x4a case 13 => 0x4c case 14 => 0x58 case _ => 0xcf
  }

  function Sbox6(k: bv8): (s: bv8)
    requires k < 16
    ensures Substitutes(0x60 | k, s)
  {
    match k
    case 0 => 0xd0 case 1 => 0xef case 2 => 0xaa case 3 => 0xfb case 4 => 0x43 case 5 => 0x4d case 6 => 0x33 case 7 => 0x85
    case 8 => 0x45 case 9 => 0xf9 case 10 => 0x02 case 11 => 0x7f case 12 => 0x50 case 13 => 0x3c case 14 => 0x9f case _ => 0xa8
  }

  function Sbox7(k: bv8): (s: bv8)
    requires k < 16
    ensures Substitutes(0x70 | k, s)
  {
    match k
    case 0 => 0x51 case 1 => 0xa3 case 2 => 0x40 case 3 => 0x8f case 4 => 0x92 case 5 => 0x9d case 6 => 0x38 case 7 => 0xf5
    case 8 => 0xbc case 9 => 0xb6 case 10 => 0xda case 11 => 0x21 case 12 => 0x10 case 13 => 0xff case 14 => 0xf3 case _ => 0xd2
  }

  function Sbox8(k: bv8): (s: bv8)
    requires k < 16
    ensures Substitutes(0x80 | k, s)
  {
    match k
    case 0 => 0xcd case 1 => 0x0c case 2 => 0x13 case 3 => 0xec case 4 => 0x5f case 5 => 0x97 case 6 => 0x44 case 7 => 0x17
    case 8 => 0xc4 case 9 => 0xa7 case 10 => 0x7e case 11 => 0x3d case 12 => 0x64 case 13 => 0x5d case 14 => 0x19 case _ => 0x73
  }

  function Sbox9(k: bv8): (s: bv8)
    requires k < 16
    ensures Substitutes(0x90 | k, s)
  {
    match k
    case 0 => 0x60 case 1 => 0x81 case 2 => 0x4f case 3 => 0xdc case 4 => 0x22 case 5 => 0x2a case 6 => 0x90 case 7 => 0x88
    case 8 => 0x46 case 9 => 0xee case 10 => 0xb8 case 11 => 0x14 case 12 => 0xde case 13 => 0x5e case 14 => 0x0b case _ => 0xdb
  }

  function SboxA(k: bv8): (s: bv8)
    requires k < 16
    ensures Substitutes(0xa0 | k, s)
  {
    match k
    case 0 => 0xe0 case 1 => 0x32 case 2 => 0x3a case 3 => 0x0a case 4 => 0x49 case 5 => 0x06 case 6 => 0x24 case 7 => 0x5c
    case 8 => 0xc2 case 9 => 0xd3 case 10 => 0xac case 11 => 0x62 case 12 => 0x91 case 13 => 0x95 case 14 => 0xe4 case _ => 0x79
  }

  function SboxB(k: bv8): (s: bv8)
    requires k < 16
    ensures Substitutes(0xb0 | k, s)
  {
    match k
    case 0 => 0xe7 case 1 => 0xc8 case 2 => 0x37 case 3 => 0x6d case 4 => 0x8d case 5 => 0xd5 case 6 => 0x4e case 7 => 0xa9
    case 8 => 0x6c case 9 => 0x56 case 10 => 0xf4 case 11 => 0xea case 12 => 0x65 case 13 => 0x7a case 14 => 0xae case _ => 0x08
  }

  function SboxC(k: bv8): (s: bv8)
    requires k < 16
    ensures Substitutes(0xc0 | k, s)
  {
    match k
    case 0 => 0xba case 1 => 0x78 case 2 => 0x25 case 3 => 0x2e case 4 => 0x1c case 5 => 0xa6 case 6 => 0xb4 case 7 => 0xc6
    case 8 => 0xe8 case 9 => 0xdd case 10 => 0x74 case 11 => 0x1f case 12 => 0x4b case 13 => 0xbd case 14 => 0x8b case _ => 0x8a
  }

  function SboxD(k: bv8): (s: bv8)
    requires k < 16
    ensures Substitutes(0xd0 | k, s)
  {
    match k
    case 0 => 0x70 case 1 => 0x3e case 2 => 0xb5 case 3 => 0x66 case 4 => 0x48 case 5 => 0x03 case 6 => 0xf6 case 7 => 0x0e
    case 8 => 0x61 case 9 => 0x35 case 10 => 0x57 case 11 => 0xb9 case 12 => 0x86 case 13 => 0xc1 case 14 => 0x1d case _ => 0x9e
  }

  function SboxE(k: bv8): (s: bv8)
    requires k < 16
    ensures Substitutes(0xe0 | k, s)
  {
    match k
    case 0 => 0xe1 case 1 => 0xf8 case 2 => 0x98 case 3 => 0x11 case 4 => 0x69 case 5 => 0xd9 case 6 => 0x8e case 7 => 0x94
    case 8 => 0x9b case 9 => 0x1e case 10 => 0x87 case 11 => 0xe9 case 12 => 0xce case 13 => 0x55 case 14 => 0x28 case _ => 0xdf
  }

  function SboxF(k: bv8): (s: bv8)
    requires k < 16
    ensures Substitutes(0xf0 | k, s)
  {
    match k
    case 0 => 0x8c case 1 => 0xa1 case 2 => 0x89 case 3 => 0x0d case 4 => 0xbf case 5 => 0xe6 case 6 => 0x42 case 7 => 0x68
    case 8 => 0x41 case 9 => 0x99 case 10 => 0x2d case 11 => 0x0f case 12 => 0xb0 case 13 => 0x54 case 14 => 0xbb case _ => 0x16
  }

  function Sbox(x: bv8): bv8 {
    var k := x & 15;
    match x >> 4
    case 0 => Sbox0(k) case 1 => Sbox1(k) case 2 => Sbox2(k) case 3 => Sbox3(k)
    case 4 => Sbox4(k) case 5 => Sbox5(k) case 6 => Sbox6(k) case 7 => Sbox7(k)
    case 8 => Sbox8(k) case 9 => Sbox9(k) case 10 => SboxA(k) case 11 => SboxB(k)
    case 12 => SboxC(k) case 13 => SboxD(k) case 14 => SboxE(k) case _ => SboxF(k)
  }

  // ----- InvSbox -----

  function InvSbox0(k: bv8): (s: bv8)
    requires k < 16
    ensures Inverted(Unaffine(0x00 | k), s)
  {
    match k
    case 0 => 0x52 case 1 => 0x09 case 2 => 0x6a case 3 => 0xd5 case 4 => 0x30 case 5 => 0x36 case 6 => 0xa5 case 7 => 0x38
    case 8 => 0xbf case 9 => 0x40 case 10 => 0xa3 case 11 => 0x9e case 12 => 0x81 case 13 => 0xf3 case 14 => 0xd7 case _ => 0xfb
  }

  function InvSbox1(k: bv8): (s: bv8)
    requires k < 16
    ensures Inverted(Unaffine(0x10 | k), s)
  {
    match k
    case 0 => 0x7c case 1 => 0xe3 case 2 => 0x39 case 3 => 0x82 case 4 => 0x9b case 5 => 0x2f case 6 => 0xff case 7 => 0x87
    case 8 => 0x34 case 9 => 0x8e case 10 => 0x43 case 11 => 0x44 case 12 => 0xc4 case 13 => 0xde case 14 => 0xe9 case _ => 0xcb
  }

  function InvSbox2(k: bv8): (s: bv8)
    requires k < 16
    ensures Inverted(Unaffine(0x20 | k), s)
  {
    match k
    case 0 => 0x54 case 1 => 0x7b case 2 => 0x94 case 3 => 0x32 case 4 => 0xa6 case 5 => 0xc2 case 6 => 0x23 case 7 => 0x3d
    case 8 => 0xee case 9 => 0x4c case 10 => 0x95 case 11 => 0x0b case 12 => 0x42 case 13 => 0xfa case 14 => 0xc3 case _ => 0x4e
  }

  function InvSbox3(k: bv8): (s: bv8)
    requires k < 16
    ensures Inverted(Unaffine(0x30 | k), s)
  {
    match k
    case 0 => 0x08 case 1 => 0x2e case 2 => 0xa1 case 3 => 0x66 case 4 => 0x28 case 5 => 0xd9 case 6 => 0x24 case 7 => 0xb2
    case 8 => 0x76 case 9 => 0x5b case 10 => 0xa2 case 11 => 0x49 case 12 => 0x6d case 13 => 0x8b case 14 => 0xd1 case _ => 0x25
  }

  function InvSbox4(k: bv8): (s: bv8)
    requires k < 16
    ensures Inverted(Unaffine(0x40 | k), s)
  {
    match k
    case 0 => 0x72 case 1 => 0xf8 case 2 => 0xf6 case 3 => 0x64 case 4 => 0x86 case 5 => 0x68 case 6 => 0x98 case 7 => 0x16
    case 8 => 0xd4 case 9 => 0xa4 case 10 => 0x5c case 11 => 0xcc case 12 => 0x5d case 13 => 0x65 case 14 => 0xb6 case _ => 0x92
  }

  function InvSbox5(k: bv8): (s: bv8)
    requires k < 16
    ensures Inverted(Unaffine(0x50 | k), s)
  {
    match k
    case 0 => 0x6c case 1 => 0x70 case 2 => 0x48 case 3 => 0x50 case 4 => 0xfd case 5 => 0xed case 6 => 0xb9 case 7 => 0xda
    case 8 => 0x5e case 9 => 0x15 case 10 => 0x46 case 11 => 0x57 case 12 => 0xa7 case 13 => 0x8d case 14 => 0x9d case _ => 0x84
  }

  function InvSbox6(k: bv8): (s: bv8)
    requires k < 16
    ensures Inverted(Unaffine(0x60 | k), s)
  {
    match k
    case 0 => 0x90 case 1 => 0xd8 case 2 => 0xab case 3 => 0x00 case 4 => 0x8c case 5 => 0xbc case 6 => 0xd3 case 7 => 0x0a
    case 8 => 0xf7 case 9 => 0xe4 case 10 => 0x58 case 11 => 0x05 case 12 => 0xb8 case 13 => 0xb3 case 14 => 0x45 case _ => 0x06
  }

  function InvSbox7(k: bv8): (s: bv8)
    requires k < 16
    ensures Inverted(Unaffine(0x70 | k), s)
  {
    match k
    case 0 => 0xd0 case 1 => 0x2c case 2 => 0x1e case 3 => 0x8f case 4 => 0xca case 5 => 0x3f case 6 => 0x0f case 7 => 0x02
    case 8 => 0xc1 case 9 => 0xaf case 10 => 0xbd case 11 => 0x03 case 12 => 0x01 case 13 => 0x13 case 14 => 0x8a case _ => 0x6b
  }

  function InvSbox8(k: bv8): (s: bv8)
    requires k < 16
    ensures Inverted(Unaffine(0x80 | k), s)
  {
    match k
    case 0 => 0x3a case 1 => 0x91 case 2 => 0x11 case 3 => 0x41 case 4 => 0x4f case 5 => 0x67 case 6 => 0xdc case 7 => 0xea
    case 8 => 0x97 case 9 => 0xf2 case 10 => 0xcf case 11 => 0xce case 12 => 0xf0 case 13 => 0xb4 case 14 => 0xe6 case _ => 0x73
  }

  function InvSbox9(k: bv8): (s: bv8)
    requires k < 16
    ensures Inverted(Unaffine(0x90 | k), s)
  {
    match k
    case 0 => 0x96 case 1 => 0xac case 2 => 0x74 case 3 => 0x22 case 4 => 0xe7 case 5 => 0xad case 6 => 0x35 case 7 => 0x85
    case 8 => 0xe2 case 9 => 0xf9 case 10 => 0x37 case 11 => 0xe8 case 12 => 0x1c case 13 => 0x75 case 14 => 0xdf case _ => 0x6e
  }

  function InvSboxA(k: bv8): (s: bv8)
    requires k < 16
    ensures Inverted(Unaffine(0xa0 | k), s)
  {
    match k
    case 0 => 0x47 case 1 => 0xf1 case 2 => 0x1a case 3 => 0x71 case 4 => 0x1d case 5 => 0x29 case 6 => 0xc5 case 7 => 0x89
    case 8 => 0x6f case 9 => 0xb7 case 10 => 0x62 case 11 => 0x0e case 12 => 0xaa case 13 => 0x18 case 14 => 0xbe case _ => 0x1b
  }

  function InvSboxB(k: bv8): (s: bv8)
    requires k < 16
    ensures Inverted(Unaffine(0xb0 | k), s)
  {
    match k
    case 0 => 0xfc case 1 => 0x56 case 2 => 0x3e case 3 => 0x4b case 4 => 0xc6 case 5 => 0xd2 case 6 => 0x79 case 7 => 0x20
    case 8 => 0x9a case 9 => 0xdb case 10 => 0xc0 case 11 => 0xfe case 12 => 0x78 case 13 => 0xcd case 14 => 0x5a case _ => 0xf4
  }

  function InvSboxC(k: bv8): (s: bv8)
    requires k < 16
    ensures Inverted(Unaffine(0xc0 | k), s)
  {
    match k
    case 0 => 0x1f case 1 => 0xdd case 2 => 0xa8 case 3 => 0x33 case 4 => 0x88 case 5 => 0x07 case 6 => 0xc7 case 7 => 0x31
    case 8 => 0xb1 case 9 => 0x12 case 10 => 0x10 case 11 => 0x59 case 12 => 0x27 case 13 => 0x80 case 14 => 0xec case _ => 0x5f
  }

  function InvSboxD(k: bv8): (s: bv8)
    requires k < 16
    ensures Inverted(Unaffine(0xd0 | k), s)
  {
    match k
    case 0 => 0x60 case 1 => 0x51 case 2 => 0x7f case 3 => 0xa9 case 4 => 0x19 case 5 => 0xb5 case 6 => 0x4a case 7 => 0x0d
    case 8 => 0x2d case 9 => 0xe5 case 10 => 0x7a case 11 => 0x9f case 12 => 0x93 case 13 => 0xc9 case 14 => 0x9c case _ => 0xef
  }

  function InvSboxE(k: bv8): (s: bv8)
    requires k < 16
    ensures Inverted(Unaffine(0xe0 | k), s)
  {
    match k
    case 0 => 0xa0 case 1 => 0xe0 case 2 => 0x3b case 3 => 0x4d case 4 => 0xae case 5 => 0x2a case 6 => 0xf5 case 7 => 0xb0
    case 8 => 0xc8 case 9 => 0xeb case 10 => 0xbb case 11 => 0x3c case 12 => 0x83 case 13 => 0x53 case 14 => 0x99 case _ => 0x61
  }

  function InvSboxF(k: bv8): (s: bv8)
    requires k < 16
    ensures Inverted(Unaffine(0xf0 | k), s)
  {
    match k
    case 0 => 0x17 case 1 => 0x2b case 2 => 0x04 case 3 => 0x7e case 4 => 0xba case 5 => 0x77 case 6 => 0xd6 case 7 => 0x26
    case 8 => 0xe1 case 9 => 0x69 case 10 => 0x14 case 11 => 0x63 case 12 => 0x55 case 13 => 0x21 case 14 => 0x0c case _ => 0x7d
  }

  function InvSbox(x: bv8): bv8 {
    var k := x & 15;
    match x >> 4
    case 0 => InvSbox0(k) case 1 => InvSbox1(k) case 2 => InvSbox2(k) case 3 => InvSbox3(k)
    case 4 => InvSbox4(k) case 5 => InvSbox5(k) case 6 => InvSbox6(k) case 7 => InvSbox7(k)
    case 8 => InvSbox8(k) case 9 => InvSbox9(k) case 10 => InvSboxA(k) case 11 => InvSboxB(k)
    case 12 => InvSboxC(k) case 13 => InvSboxD(k) case 14 => InvSboxE(k) case _ => InvSboxF(k)
  }

  // ----- both -----

  /** Row x / 16, place x % 16. */
  lemma RowOf(x: bv8)
    ensures x & 15 < 16
    ensures
      match x >> 4
      case 0 => 0x00 | (x & 15) == x case 1 => 0x10 | (x & 15) == x case 2 => 0x20 | (x & 15) == x case 3 => 0x30 | (x & 15) == x
      case 4 => 0x40 | (x & 15) == x case 5 => 0x50 | (x & 15) == x case 6 => 0x60 | (x & 15) == x case 7 => 0x70 | (x & 15) == x
      case 8 => 0x80 | (x & 15) == x case 9 => 0x90 | (x & 15) == x case 10 => 0xa0 | (x & 15) == x case 11 => 0xb0 | (x & 15) == x
      case 12 => 0xc0 | (x & 15) == x case 13 => 0xd0 | (x & 15) == x case 14 => 0xe0 | (x & 15) == x case _ => 0xf0 | (x & 15) == x
  {
  }

  /** The literal table is the S-box of FIPS-197. */
  lemma SboxRight(x: bv8)
    ensures SubByte(x) == Sbox(x)
  {
    hide Substitutes, Sbox0, Sbox1, Sbox2, Sbox3, Sbox4, Sbox5, Sbox6, Sbox7, Sbox8, Sbox9, SboxA, SboxB, SboxC, SboxD, SboxE, SboxF;
    RowOf(x);
    SubstitutesIs(x, Sbox(x));
  }

  /** And the other one is its inverse. */
  lemma InvSboxRight(s: bv8)
    ensures SubByte(InvSbox(s)) == s
  {
    hide Inverted, Unaffine, InvSbox0, InvSbox1, InvSbox2, InvSbox3, InvSbox4, InvSbox5, InvSbox6, InvSbox7, InvSbox8, InvSbox9, InvSboxA,
      InvSboxB, InvSboxC, InvSboxD, InvSboxE, InvSboxF;
    RowOf(s);
    SubstitutesIs(InvSbox(s), s);
  }

  // ----- the entries of figure 7 of FIPS-197 -----

  lemma Entry0(k: bv8)
    requires k < 16
    ensures SubByte(0x00 | k) == Sbox0(k)
  {
    hide Substitutes;
    SubstitutesIs(0x00 | k, Sbox0(k));
  }

  lemma Row0()
    ensures SubByte(0x00) == 0x63 && SubByte(0x01) == 0x7c && SubByte(0x02) == 0x77 && SubByte(0x03) == 0x7b
    ensures SubByte(0x04) == 0xf2 && SubByte(0x05) == 0x6b && SubByte(0x06) == 0x6f && SubByte(0x07) == 0xc5
    ensures SubByte(0x08) == 0x30 && SubByte(0x09) == 0x01 && SubByte(0x0a) == 0x67 && SubByte(0x0b) == 0x2b
    ensures SubByte(0x0c) == 0xfe && SubByte(0x0d) == 0xd7 && SubByte(0x0e) == 0xab && SubByte(0x0f) == 0x76
  {
    hide SubByte, Substitutes;
    assert Sbox0(0) == 0x63 && Sbox0(1) == 0x7c && Sbox0(2) == 0x77 && Sbox0(3) == 0x7b && Sbox0(4) == 0xf2 && Sbox0(5) == 0x6b && Sbox0(6) == 0x6f && Sbox0(7) == 0xc5;
    assert Sbox0(8) == 0x30 && Sbox0(9) == 0x01 && Sbox0(10) == 0x67 && Sbox0(11) == 0x2b && Sbox0(12) == 0xfe && Sbox0(13) == 0xd7 && Sbox0(14) == 0xab && Sbox0(15) == 0x76;
    hide Sbox0;
    Entry0(0); Entry0(1); Entry0(2); Entry0(3); Entry0(4); Entry0(5); Entry0(6); Entry0(7);
    Entry0(8); Entry0(9); Entry0(10); Entry0(11); Entry0(12); Entry0(13); Entry0(14); Entry0(15);
  }

  lemma Entry1(k: bv8)
    requires k < 16
    ensures SubByte(0x10 | k) == Sbox1(k)
  {
    hide Substitutes;
    SubstitutesIs(0x10 | k, Sbox1(k));
  }

  lemma Row1()
    ensures SubByte(0x10) == 0xca && SubByte(0x11) == 0x82 && SubByte(0x12) == 0xc9 && SubByte(0x13) == 0x7d
    ensures SubByte(0x14) == 0xfa && SubByte(0x15) == 0x59 && SubByte(0x16) == 0x47 && SubByte(0x17) == 0xf0
    ensures SubByte(0x18) == 0xad && SubByte(0x19) == 0xd4 && SubByte(0x1a) == 0xa2 && SubByte(0x1b) == 0xaf
    ensures SubByte(0x1c) == 0x9c && SubByte(0x1d) == 0xa4 && SubByte(0x1e) == 0x72 && SubByte(0x1f) == 0xc0
  {
    hide SubByte, Substitutes;
    assert Sbox1(0) == 0xca && Sbox1(1) == 0x82 && Sbox1(2) == 0xc9 && Sbox1(3) == 0x7d && Sbox1(4) == 0xfa && Sbox1(5) == 0x59 && Sbox1(6) == 0x47 && Sbox1(7) == 0xf0;
    assert Sbox1(8) == 0xad && Sbox1(9) == 0xd4 && Sbox1(10) == 0xa2 && Sbox1(11) == 0xaf && Sbox1(12) == 0x9c && Sbox1(13) == 0xa4 && Sbox1(14) == 0x72 && Sbox1(15) == 0xc0;
    hide Sbox1;
    Entry1(0); Entry1(1); Entry1(2); Entry1(3); Entry1(4); Entry1(5); Entry1(6); Entry1(7);
    Entry1(8); Entry1(9); Entry1(10); Entry1(11); Entry1(12); Entry1(13); Entry1(14); Entry1(15);
  }

  lemma Entry2(k: bv8)
    requires k < 16
    ensures SubByte(0x20 | k) == Sbox2(k)
  {
    hide Substitutes;
    SubstitutesIs(0x20 | k, Sbox2(k));
  }

  lemma Row2()
    ensures SubByte(0x20) == 0xb7 && SubByte(0x21) == 0xfd && SubByte(0x22) == 0x93 && SubByte(0x23) == 0x26
    ensures SubByte(0x24) == 0x36 && SubByte(0x25) == 0x3f && SubByte(0x26) == 0xf7 && SubByte(0x27) == 0xcc
    ensures SubByte(0x28) == 0x34 && SubByte(0x29) == 0xa5 && SubByte(0x2a) == 0xe5 && SubByte(0x2b) == 0xf1
    ensures SubByte(0x2c) == 0x71 && SubByte(0x2d) == 0xd8 && SubByte(0x2e) == 0x31 && SubByte(0x2f) == 0x15
  {
    hide SubByte, Substitutes;
    assert Sbox2(0) == 0xb7 && Sbox2(1) == 0xfd && Sbox2(2) == 0x93 && Sbox2(3) == 0x26 && Sbox2(4) == 0x36 && Sbox2(5) == 0x3f && Sbox2(6) == 0xf7 && Sbox2(7) == 0xcc;
    assert Sbox2(8) == 0x34 && Sbox2(9) == 0xa5 && Sbox2(10) == 0xe5 && Sbox2(11) == 0xf1 && Sbox2(12) == 0x71 && Sbox2(13) == 0xd8 && Sbox2(14) == 0x31 && Sbox2(15) == 0x15;
    hide Sbox2;
    Entry2(0); Entry2(1); Entry2(2); Entry2(3); Entry2(4); Entry2(5); Entry2(6); Entry2(7);
    Entry2(8); Entry2(9); Entry2(10); Entry2(11); Entry2(12); Entry2(13); Entry2(14); Entry2(15);
  }

  lemma Entry3(k: bv8)
    requires k < 16
    ensures SubByte(0x30 | k) == Sbox3(k)
  {
    hide Substitutes;
    SubstitutesIs(0x30 | k, Sbox3(k));
  }

  lemma Row3()
    ensures SubByte(0x30) == 0x04 && SubByte(0x31) == 0xc7 && SubByte(0x32) == 0x23 && SubByte(0x33) == 0xc3
    ensures SubByte(0x34) == 0x18 && SubByte(0x35) == 0x96 && SubByte(0x36) == 0x05 && SubByte(0x37) == 0x9a
    ensures SubByte(0x38) == 0x07 && SubByte(0x39) == 0x12 && SubByte(0x3a) == 0x80 && SubByte(0x3b) == 0xe2
    ensures SubByte(0x3c) == 0xeb && SubByte(0x3d) == 0x27 && SubByte(0x3e) == 0xb2 && SubByte(0x3f) == 0x75
  {
    hide SubByte, Substitutes;
    assert Sbox3(0) == 0x04 && Sbox3(1) == 0xc7 && Sbox3(2) == 0x23 && Sbox3(3) == 0xc3 && Sbox3(4) == 0x18 && Sbox3(5) == 0x96 && Sbox3(6) == 0x05 && Sbox3(7) == 0x9a;
    assert Sbox3(8) == 0x07 && Sbox3(9) == 0x12 && Sbox3(10) == 0x80 && Sbox3(11) == 0xe2 && Sbox3(12) == 0xeb && Sbox3(13) == 0x27 && Sbox3(14) == 0xb2 && Sbox3(15) == 0x75;
    hide Sbox3;
    Entry3(0); Entry3(1); Entry3(2); Entry3(3); Entry3(4); Entry3(5); Entry3(6); Entry3(7);
    Entry3(8); Entry3(9); Entry3(10); Entry3(11); Entry3(12); Entry3(13); Entry3(14); Entry3(15);
  }

  lemma Entry4(k: bv8)
    requires k < 16
    ensures SubByte(0x40 | k) == Sbox4(k)
  {
    hide Substitutes;
    SubstitutesIs(0x40 | k, Sbox4(k));
  }

  lemma Row4()
    ensures SubByte(0x40) == 0x09 && SubByte(0x41) == 0x83 && SubByte(0x42) == 0x2c && SubByte(0x43) == 0x1a
    ensures SubByte(0x44) == 0x1b && SubByte(0x45) == 0x6e && SubByte(0x46) == 0x5a && SubByte(0x47) == 0xa0
    ensures SubByte(0x48) == 0x52 && SubByte(0x49) == 0x3b && SubByte(0x4a) == 0xd6 && SubByte(0x4b) == 0xb3
    ensures SubByte(0x4c) == 0x29 && SubByte(0x4d) == 0xe3 && SubByte(0x4e) == 0x2f && SubByte(0x4f) == 0x84
  {
    hide SubByte, Substitutes;
    assert Sbox4(0) == 0x09 && Sbox4(1) == 0x83 && Sbox4(2) == 0x2c && Sbox4(3) == 0x1a && Sbox4(4) == 0x1b && Sbox4(5) == 0x6e && Sbox4(6) == 0x5a && Sbox4(7) == 0xa0;
    assert Sbox4(8) == 0x52 && Sbox4(9) == 0x3b && Sbox4(10) == 0xd6 && Sbox4(11) == 0xb3 && Sbox4(12) == 0x29 && Sbox4(13) == 0xe3 && Sbox4(14) == 0x2f && Sbox4(15) == 0x84;
    hide Sbox4;
    Entry4(0); Entry4(1); Entry4(2); Entry4(3); Entry4(4); Entry4(5); Entry4(6); Entry4(7);
    Entry4(8); Entry4(9); Entry4(10); Entry4(11); Entry4(12); Entry4(13); Entry4(14); Entry4(15);
  }

  lemma Entry5(k: bv8)
    requires k < 16
    ensures SubByte(0x50 | k) == Sbox5(k)
  {
    hide Substitutes;
    SubstitutesIs(0x50 | k, Sbox5(k));
  }

  lemma Row5()
    ensures SubByte(0x50) == 0x53 && SubByte(0x51) == 0xd1 && SubByte(0x52) == 0x00 && SubByte(0x53) == 0xed
    ensures SubByte(0x54) == 0x20 && SubByte(0x55) == 0xfc && SubByte(0x56) == 0xb1 && SubByte(0x57) == 0x5b
    ensures SubByte(0x58) == 0x6a && SubByte(0x59) == 0xcb && SubByte(0x5a) == 0xbe && SubByte(0x5b) == 0x39
    ensures SubByte(0x5c) == 0x4a && SubByte(0x5d) == 0x4c && SubByte(0x5e) == 0x58 && SubByte(0x5f) == 0xcf
  {
    hide SubByte, Substitutes;
    assert Sbox5(0) == 0x53 && Sbox5(1) == 0xd1 && Sbox5(2) == 0x00 && Sbox5(3) == 0xed && Sbox5(4) == 0x20 && Sbox5(5) == 0xfc && Sbox5(6) == 0xb1 && Sbox5(7) == 0x5b;
    assert Sbox5(8) == 0x6a && Sbox5(9) == 0xcb && Sbox5(10) == 0xbe && Sbox5(11) == 0x39 && Sbox5(12) == 0x4a && Sbox5(13) == 0x4c && Sbox5(14) == 0x58 && Sbox5(15) == 0xcf;
    hide Sbox5;
    Entry5(0); Entry5(1); Entry5(2); Entry5(3); Entry5(4); Entry5(5); Entry5(6); Entry5(7);
    Entry5(8); Entry5(9); Entry5(10); Entry5(11); Entry5(12); Entry5(13); Entry5(14); Entry5(15);
  }

  lemma Entry6(k: bv8)
    requires k < 16
    ensures SubByte(0x60 | k) == Sbox6(k)
  {
    hide Substitutes;
    SubstitutesIs(0x60 | k, Sbox6(k));
  }

  lemma Row6()
    ensures SubByte(0x60) == 0xd0 && SubByte(0x61) == 0xef && SubByte(0x62) == 0xaa && SubByte(0x63) == 0xfb
    ensures SubByte(0x64) == 0x43 && SubByte(0x65) == 0x4d && SubByte(0x66) == 0x33 && SubByte(0x67) == 0x85
    ensures SubByte(0x68) == 0x45 && SubByte(0x69) == 0xf9 && SubByte(0x6a) == 0x02 && SubByte(0x6b) == 0x7f
    ensures SubByte(0x6c) == 0x50 && SubByte(0x6d) == 0x3c && SubByte(0x6e) == 0x9f && SubByte(0x6f) == 0xa8
  {
    hide SubByte, Substitutes;
    assert Sbox6(0) == 0xd0 && Sbox6(1) == 0xef && Sbox6(2) == 0xaa && Sbox6(3) == 0xfb && Sbox6(4) == 0x43 && Sbox6(5) == 0x4d && Sbox6(6) == 0x33 && Sbox6(7) == 0x85;
    assert Sbox6(8) == 0x45 && Sbox6(9) == 0xf9 && Sbox6(10) == 0x02 && Sbox6(11) == 0x7f && Sbox6(12) == 0x50 && Sbox6(13) == 0x3c && Sbox6(14) == 0x9f && Sbox6(15) == 0xa8;
    hide Sbox6;
    Entry6(0); Entry6(1); Entry6(2); Entry6(3); Entry6(4); Entry6(5); Entry6(6); Entry6(7);
    Entry6(8); Entry6(9); Entry6(10); Entry6(11); Entry6(12); Entry6(13); Entry6(14); Entry6(15);
  }

  lemma Entry7(k: bv8)
    requires k < 16
    ensures SubByte(0x70 | k) == Sbox7(k)
  {
    hide Substitutes;
    SubstitutesIs(0x70 | k, Sbox7(k));
  }

  lemma Row7()
    ensures SubByte(0x70) == 0x51 && SubByte(0x71) == 0xa3 && SubByte(0x72) == 0x40 && SubByte(0x73) == 0x8f
    ensures SubByte(0x74) == 0x92 && SubByte(0x75) == 0x9d && SubByte(0x76) == 0x38 && SubByte(0x77) == 0xf5
    ensures SubByte(0x78) == 0xbc && SubByte(0x79) == 0xb6 && SubByte(0x7a) == 0xda && SubByte(0x7b) == 0x21
    ensures SubByte(0x7c) == 0x10 && SubByte(0x7d) == 0xff && SubByte(0x7e) == 0xf3 && SubByte(0x7f) == 0xd2
  {
    hide SubByte, Substitutes;
    assert Sbox7(0) == 0x51 && Sbox7(1) == 0xa3 && Sbox7(2) == 0x40 && Sbox7(3) == 0x8f && Sbox7(4) == 0x92 && Sbox7(5) == 0x9d && Sbox7(6) == 0x38 && Sbox7(7) == 0xf5;
    assert Sbox7(8) == 0xbc && Sbox7(9) == 0xb6 && Sbox7(10) == 0xda && Sbox7(11) == 0x21 && Sbox7(12) == 0x10 && Sbox7(13) == 0xff && Sbox7(14) == 0xf3 && Sbox7(15) == 0xd2;
    hide Sbox7;
    Entry7(0); Entry7(1); Entry7(2); Entry7(3); Entry7(4); Entry7(5); Entry7(6); Entry7(7);
    Entry7(8); Entry7(9); Entry7(10); Entry7(11); Entry7(12); Entry7(13); Entry7(14); Entry7(15);
  }

  lemma Entry8(k: bv8)
    requires k < 16
    ensures SubByte(0x80 | k) == Sbox8(k)
  {
    hide Substitutes;
    SubstitutesIs(0x80 | k, Sbox8(k));
  }

  lemma Row8()
    ensures SubByte(0x80) == 0xcd && SubByte(0x81) == 0x0c && SubByte(0x82) == 0x13 && SubByte(0x83) == 0xec
    ensures SubByte(0x84) == 0x5f && SubByte(0x85) == 0x97 && SubByte(0x86) == 0x44 && SubByte(0x87) == 0x17
    ensures SubByte(0x88) == 0xc4 && SubByte(0x89) == 0xa7 && SubByte(0x8a) == 0x7e && SubByte(0x8b) == 0x3d
    ensures SubByte(0x8c) == 0x64 && SubByte(0x8d) == 0x5d && SubByte(0x8e) == 0x19 && SubByte(0x8f) == 0x73
  {
    hide SubByte, Substitutes;
    assert Sbox8(0) == 0xcd && Sbox8(1) == 0x0c && Sbox8(2) == 0x13 && Sbox8(3) == 0xec && Sbox8(4) == 0x5f && Sbox8(5) == 0x97 && Sbox8(6) == 0x44 && Sbox8(7) == 0x17;
    assert Sbox8(8) == 0xc4 && Sbox8(9) == 0xa7 && Sbox8(10) == 0x7e && Sbox8(11) == 0x3d && Sbox8(12) == 0x64 && Sbox8(13) == 0x5d && Sbox8(14) == 0x19 && Sbox8(15) == 0x73;
    hide Sbox8;
    Entry8(0); Entry8(1); Entry8(2); Entry8(3); Entry8(4); Entry8(5); Entry8(6); Entry8(7);
    Entry8(8); Entry8(9); Entry8(10); Entry8(11); Entry8(12); Entry8(13); Entry8(14); Entry8(15);
  }

  lemma Entry9(k: bv8)
    requires k < 16
    ensures SubByte(0x90 | k) == Sbox9(k)
  {
    hide Substitutes;
    SubstitutesIs(0x90 | k, Sbox9(k));
  }

  lemma Row9()
    ensures SubByte(0x90) == 0x60 && SubByte(0x91) == 0x81 && SubByte(0x92) == 0x4f && SubByte(0x93) == 0xdc
    ensures SubByte(0x94) == 0x22 && SubByte(0x95) == 0x2a && SubByte(0x96) == 0x90 && SubByte(0x97) == 0x88
    ensures SubByte(0x98) == 0x46 && SubByte(0x99) == 0xee && SubByte(0x9a) == 0xb8 && SubByte(0x9b) == 0x14
    ensures SubByte(0x9c) == 0xde && SubByte(0x9d) == 0x5e && SubByte(0x9e) == 0x0b && SubByte(0x9f) == 0xdb
  {
    hide SubByte, Substitutes;
    assert Sbox9(0) == 0x60 && Sbox9(1) == 0x81 && Sbox9(2) == 0x4f && Sbox9(3) == 0xdc && Sbox9(4) == 0x22 && Sbox9(5) == 0x2a && Sbox9(6) == 0x90 && Sbox9(7) == 0x88;
    assert Sbox9(8) == 0x46 && Sbox9(9) == 0xee && Sbox9(10) == 0xb8 && Sbox9(11) == 0x14 && Sbox9(12) == 0xde && Sbox9(13) == 0x5e && Sbox9(14) == 0x0b && Sbox9(15) == 0xdb;
    hide Sbox9;
    Entry9(0); Entry9(1); Entry9(2); Entry9(3); Entry9(4); Entry9(5); Entry9(6); Entry9(7);
    Entry9(8); Entry9(9); Entry9(10); Entry9(11); Entry9(12); Entry9(13); Entry9(14); Entry9(15);
  }

  lemma EntryA(k: bv8)
    requires k < 16
    ensures SubByte(0xa0 | k) == SboxA(k)
  {
    hide Substitutes;
    SubstitutesIs(0xa0 | k, SboxA(k));
  }

  lemma RowA()
    ensures SubByte(0xa0) == 0xe0 && SubByte(0xa1) == 0x32 && SubByte(0xa2) == 0x3a && SubByte(0xa3) == 0x0a
    ensures SubByte(0xa4) == 0x49 && SubByte(0xa5) == 0x06 && SubByte(0xa6) == 0x24 && SubByte(0xa7) == 0x5c
    ensures SubByte(0xa8) == 0xc2 && SubByte(0xa9) == 0xd3 && SubByte(0xaa) == 0xac && SubByte(0xab) == 0x62
    ensures SubByte(0xac) == 0x91 && SubByte(0xad) == 0x95 && SubByte(0xae) == 0xe4 && SubByte(0xaf) == 0x79
  {
    hide SubByte, Substitutes;
    assert SboxA(0) == 0xe0 && SboxA(1) == 0x32 && SboxA(2) == 0x3a && SboxA(3) == 0x0a && SboxA(4) == 0x49 && SboxA(5) == 0x06 && SboxA(6) == 0x24 && SboxA(7) == 0x5c;
    assert SboxA(8) == 0xc2 && SboxA(9) == 0xd3 && SboxA(10) == 0xac && SboxA(11) == 0x62 && SboxA(12) == 0x91 && SboxA(13) == 0x95 && SboxA(14) == 0xe4 && SboxA(15) == 0x79;
    hide SboxA;
    EntryA(0); EntryA(1); EntryA(2); EntryA(3); EntryA(4); EntryA(5); EntryA(6); EntryA(7);
    EntryA(8); EntryA(9); EntryA(10); EntryA(11); EntryA(12); EntryA(13); EntryA(14); EntryA(15);
  }

  lemma EntryB(k: bv8)
    requires k < 16
    ensures SubByte(0xb0 | k) == SboxB(k)
  {
    hide Substitutes;
    SubstitutesIs(0xb0 | k, SboxB(k));
  }

  lemma RowB()
    ensures SubByte(0xb0) == 0xe7 && SubByte(0xb1) == 0xc8 && SubByte(0xb2) == 0x37 && SubByte(0xb3) == 0x6d
    ensures SubByte(0xb4) == 0x8d && SubByte(0xb5) == 0xd5 && SubByte(0xb6) == 0x4e && SubByte(0xb7) == 0xa9
    ensures SubByte(0xb8) == 0x6c && SubByte(0xb9) == 0x56 && SubByte(0xba) == 0xf4 && SubByte(0xbb) == 0xea
    ensures SubByte(0xbc) == 0x65 && SubByte(0xbd) == 0x7a && SubByte(0xbe) == 0xae && SubByte(0xbf) == 0x08
  {
    hide SubByte, Substitutes;
    assert SboxB(0) == 0xe7 && SboxB(1) == 0xc8 && SboxB(2) == 0x37 && SboxB(3) == 0x6d && SboxB(4) == 0x8d && SboxB(5) == 0xd5 && SboxB(6) == 0x4e && SboxB(7) == 0xa9;
    assert SboxB(8) == 0x6c && SboxB(9) == 0x56 && SboxB(10) == 0xf4 && SboxB(11) == 0xea && SboxB(12) == 0x65 && SboxB(13) == 0x7a && SboxB(14) == 0xae && SboxB(15) == 0x08;
    hide SboxB;
    EntryB(0); EntryB(1); EntryB(2); EntryB(3); EntryB(4); EntryB(5); EntryB(6); EntryB(7);
    EntryB(8); EntryB(9); EntryB(10); EntryB(11); EntryB(12); EntryB(13); EntryB(14); EntryB(15);
  }

  lemma EntryC(k: bv8)
    requires k < 16
    ensures SubByte(0xc0 | k) == SboxC(k)
  {
    hide Substitutes;
    SubstitutesIs(0xc0 | k, SboxC(k));
  }

  lemma RowC()
    ensures SubByte(0xc0) == 0xba && SubByte(0xc1) == 0x78 && SubByte(0xc2) == 0x25 && SubByte(0xc3) == 0x2e
    ensures SubByte(0xc4) == 0x1c && SubByte(0xc5) == 0xa6 && SubByte(0xc6) == 0xb4 && SubByte(0xc7) == 0xc6
    ensures SubByte(0xc8) == 0xe8 && SubByte(0xc9) == 0xdd && SubByte(0xca) == 0x74 && SubByte(0xcb) == 0x1f
    ensures SubByte(0xcc) == 0x4b && SubByte(0xcd) == 0xbd && SubByte(0xce) == 0x8b && SubByte(0xcf) == 0x8a
  {
    hide SubByte, Substitutes;
    assert SboxC(0) == 0xba && SboxC(1) == 0x78 && SboxC(2) == 0x25 && SboxC(3) == 0x2e && SboxC(4) == 0x1c && SboxC(5) == 0xa6 && SboxC(6) == 0xb4 && SboxC(7) == 0xc6;
    assert SboxC(8) == 0xe8 && SboxC(9) == 0xdd && SboxC(10) == 0x74 && SboxC(11) == 0x1f && SboxC(12) == 0x4b && SboxC(13) == 0xbd && SboxC(14) == 0x8b && SboxC(15) == 0x8a;
    hide SboxC;
    EntryC(0); EntryC(1); EntryC(2); EntryC(3); EntryC(4); EntryC(5); EntryC(6); EntryC(7);
    EntryC(8); EntryC(9); EntryC(10); EntryC(11); EntryC(12); EntryC(13); EntryC(14); EntryC(15);
  }

  lemma EntryD(k: bv8)
    requires k < 16
    ensures SubByte(0xd0 | k) == SboxD(k)
  {
    hide Substitutes;
    SubstitutesIs(0xd0 | k, SboxD(k));
  }

  lemma RowD()
    ensures SubByte(0xd0) == 0x70 && SubByte(0xd1) == 0x3e && SubByte(0xd2) == 0xb5 && SubByte(0xd3) == 0x66
    ensures SubByte(0xd4) == 0x48 && SubByte(0xd5) == 0x03 && SubByte(0xd6) == 0xf6 && SubByte(0xd7) == 0x0e
    ensures SubByte(0xd8) == 0x61 && SubByte(0xd9) == 0x35 && SubByte(0xda) == 0x57 && SubByte(0xdb) == 0xb9
    ensures SubByte(0xdc) == 0x86 && SubByte(0xdd) == 0xc1 && SubByte(0xde) == 0x1d && SubByte(0xdf) == 0x9e
  {
    hide SubByte, Substitutes;
    assert SboxD(0) == 0x70 && SboxD(1) == 0x3e && SboxD(2) == 0xb5 && SboxD(3) == 0x66 && SboxD(4) == 0x48 && SboxD(5) == 0x03 && SboxD(6) == 0xf6 && SboxD(7) == 0x0e;
    assert SboxD(8) == 0x61 && SboxD(9) == 0x35 && SboxD(10) == 0x57 && SboxD(11) == 0xb9 && SboxD(12) == 0x86 && SboxD(13) == 0xc1 && SboxD(14) == 0x1d && SboxD(15) == 0x9e;
    hide SboxD;
    EntryD(0); EntryD(1); EntryD(2); EntryD(3); EntryD(4); EntryD(5); EntryD(6); EntryD(7);
    EntryD(8); EntryD(9); EntryD(10); EntryD(11); EntryD(12); EntryD(13); EntryD(14); EntryD(15);
  }

  lemma EntryE(k: bv8)
    requires k < 16
    ensures SubByte(0xe0 | k) == SboxE(k)
  {
    hide Substitutes;
    SubstitutesIs(0xe0 | k, SboxE(k));
  }

  lemma RowE()
    ensures SubByte(0xe0) == 0xe1 && SubByte(0xe1) == 0xf8 && SubByte(0xe2) == 0x98 && SubByte(0xe3) == 0x11
    ensures SubByte(0xe4) == 0x69 && SubByte(0xe5) == 0xd9 && SubByte(0xe6) == 0x8e && SubByte(0xe7) == 0x94
    ensures SubByte(0xe8) == 0x9b && SubByte(0xe9) == 0x1e && SubByte(0xea) == 0x87 && SubByte(0xeb) == 0xe9
    ensures SubByte(0xec) == 0xce && SubByte(0xed) == 0x55 && SubByte(0xee) == 0x28 && SubByte(0xef) == 0xdf
  {
    hide SubByte, Substitutes;
    assert SboxE(0) == 0xe1 && SboxE(1) == 0xf8 && SboxE(2) == 0x98 && SboxE(3) == 0x11 && SboxE(4) == 0x69 && SboxE(5) == 0xd9 && SboxE(6) == 0x8e && SboxE(7) == 0x94;
    assert SboxE(8) == 0x9b && SboxE(9) == 0x1e && SboxE(10) == 0x87 && SboxE(11) == 0xe9 && SboxE(12) == 0xce && SboxE(13) == 0x55 && SboxE(14) == 0x28 && SboxE(15) == 0xdf;
    hide SboxE;
    EntryE(0); EntryE(1); EntryE(2); EntryE(3); EntryE(4); EntryE(5); EntryE(6); EntryE(7);
    EntryE(8); EntryE(9); EntryE(10); EntryE(11); EntryE(12); EntryE(13); EntryE(14); EntryE(15);
  }

  lemma EntryF(k: bv8)
    requires k < 16
    ensures SubByte(0xf0 | k) == SboxF(k)
  {
    hide Substitutes;
    SubstitutesIs(0xf0 | k, SboxF(k));
  }

  lemma RowF()
    ensures SubByte(0xf0) == 0x8c && SubByte(0xf1) == 0xa1 && SubByte(0xf2) == 0x89 && SubByte(0xf3) == 0x0d
    ensures SubByte(0xf4) == 0xbf && SubByte(0xf5) == 0xe6 && SubByte(0xf6) == 0x42 && SubByte(0xf7) == 0x68
    ensures SubByte(0xf8) == 0x41 && SubByte(0xf9) == 0x99 && SubByte(0xfa) == 0x2d && SubByte(0xfb) == 0x0f
    ensures SubByte(0xfc) == 0xb0 && SubByte(0xfd) == 0x54 && SubByte(0xfe) == 0xbb && SubByte(0xff) == 0x16
  {
    hide SubByte, Substitutes;
    assert SboxF(0) == 0x8c && SboxF(1) == 0xa1 && SboxF(2) == 0x89 && SboxF(3) == 0x0d && SboxF(4) == 0xbf && SboxF(5) == 0xe6 && SboxF(6) == 0x42 && SboxF(7) == 0x68;
    assert SboxF(8) == 0x41 && SboxF(9) == 0x99 && SboxF(10) == 0x2d && SboxF(11) == 0x0f && SboxF(12) == 0xb0 && SboxF(13) == 0x54 && SboxF(14) == 0xbb && SboxF(15) == 0x16;
    hide SboxF;
    EntryF(0); EntryF(1); EntryF(2); EntryF(3); EntryF(4); EntryF(5); EntryF(6); EntryF(7);
    EntryF(8); EntryF(9); EntryF(10); EntryF(11); EntryF(12); EntryF(13); EntryF(14); EntryF(15);
  }

  // ----- the tables -----

  const SBOX: Box := seq(256, i requires 0 <= i < 256 => Sbox(i as bv8))

  const INV_SBOX: Box := seq(256, i requires 0 <= i < 256 => InvSbox(i as bv8))

  lemma TableAt(x: bv8)
    ensures At(SBOX, x) == Sbox(x) && At(INV_SBOX, x) == InvSbox(x)
  {
    hide Sbox, InvSbox;
    assert (x as int) as bv8 == x;
  }

  lemma TablesInverse()
    ensures Inverse(SBOX, INV_SBOX)
  {
    hide Sbox, InvSbox, SubByte, At;
    forall x: bv8 {:trigger At(SBOX, x)} ensures At(INV_SBOX, At(SBOX, x)) == x {
      TableAt(x);
      TableAt(Sbox(x));
      SboxRight(x);
      InvSboxRight(Sbox(x));
      SubByteInjective(InvSbox(Sbox(x)), x);
    }
  }
}
