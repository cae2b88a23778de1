/** Masking a filled frame and writing the format information (qrcode/mask.c:33-71, 82-176). */
module QrMask {
  import opened Common
  import opened Products
  import opened QrCapacity
  import opened QrFill
  import opened QrDraw

  // ----- the masks -----

  /** Is the module in column x and row y turned over? */
  predicate MaskOn(mask: nat, x: nat, y: nat) {
    match mask
    case 0 => (x + y) % 2 == 0
    case 1 => y % 2 == 0
    case 2 => x % 3 == 0
    case 3 => (x + y) % 3 == 0
    case 4 => (y / 2 + x / 3) % 2 == 0
    case 5 => (x * y) % 2 + (x * y) % 3 == 0
    case 6 => ((x * y) % 2 + (x * y) % 3) % 2 == 0
    case 7 => ((x * y) % 3 + (x + y) % 2) % 2 == 0
    case _ => false
  }

  // ----- the masks as pictures -----

  /** In which columns, counted modulo 6, row y is turned over: the table of mask patterns of
      section 8.8.1 of ISO/IEC 18004, drawn out over its period. */
  function TurnedColumns(mask: nat, y: nat): set<nat> {
    match (mask, y % 6)
    case (0, r) => if r % 2 == 0 then {0, 2, 4} else {1, 3, 5}
    case (1, r) => if r % 2 == 0 then {0, 1, 2, 3, 4, 5} else {}
    case (2, _) => {0, 3}
    case (3, r) => if r % 3 == 0 then {0, 3} else if r % 3 == 1 then {2, 5} else {1, 4}
    case (4, _) => if y % 4 < 2 then {0, 1, 2} else {3, 4, 5}
    case (5, 0) => {0, 1, 2, 3, 4, 5} case (5, 3) => {0, 2, 4}
    case (5, r) => if r == 2 || r == 4 then {0, 3} else {0}
    case (6, 0) => {0, 1, 2, 3, 4, 5} case (6, 1) => {0, 1, 2} case (6, 2) => {0, 1, 3, 4}
    case (6, 3) => {0, 2, 4} case (6, 4) => {0, 2, 3, 5} case (6, _) => {0, 4, 5}
    case (7, 0) => {0, 2, 4} case (7, 1) => {3, 4, 5} case (7, 2) => {0, 4, 5}
    case (7, 3) => {1, 3, 5} case (7, 4) => {0, 1, 2} case (7, _) => {1, 2, 3}
    case _ => {}
  }

  /** A module under a mask: those of no pattern are turned over where the picture says so. */
  function Turned(mask: nat, x: nat, y: nat, m: bv8): bv8 {
    if m & 0x80 == 0 && x % 6 in TurnedColumns(mask, y) then m ^ 1 else m
  }

  lemma ProductModulo(x: nat, y: nat)
    ensures (x * y) % 2 == ((x % 6) * (y % 6)) % 2 && (x * y) % 3 == ((x % 6) * (y % 6)) % 3
  {
    var a, b, c, d := x / 6, x % 6, y / 6, y % 6;
    var q := 6 * a * c + a * d + b * c;
    assert x * y == (6 * a + b) * (6 * c + d) == 6 * q + b * d;
    Modulo2(3 * q, b * d);
    Modulo3(2 * q, b * d);
  }

  lemma Modulo2(q: nat, r: nat)
    ensures (2 * q + r) % 2 == r % 2
  {
  }

  lemma Modulo3(q: nat, r: nat)
    ensures (3 * q + r) % 3 == r % 3
  {
  }

  /** The formulas of the source draw these pictures. */
  lemma MaskPicture(mask: nat, x: nat, y: nat)
    ensures MaskOn(mask, x, y) <==> x % 6 in TurnedColumns(mask, y)
  {
    if mask == 4 {
      BlocksPicture(x, y);
    } else if mask < 8 {
      MaskPeriod(mask, x, y);
      SixRows(mask, y);
      var c, r := x % 6, y % 6;
      hide MaskOn, TurnedColumns;
      if mask < 4 {
        LinesPicture(mask, c, r);
      } else if mask == 5 {
        Picture5(c, r, SmallProduct(c, r));
      } else if mask == 6 {
        Picture6(c, r, SmallProduct(c, r));
      } else {
        Picture7(c, r, SmallProduct(c, r));
      }
    }
  }

  /** Rows and columns may be counted modulo 6. */
  lemma MaskPeriod(mask: nat, x: nat, y: nat)
    requires mask < 8 && mask != 4
    ensures MaskOn(mask, x, y) <==> MaskOn(mask, x % 6, y % 6)
  {
    ProductModulo(x, y);
    var a, b, c, d := x / 6, x % 6, y / 6, y % 6;
    assert x == 6 * a + b && y == 6 * c + d;
    Modulo2(3 * c, d);
    Modulo3(2 * a, b);
    Modulo2(3 * (a + c), b + d);
    Modulo3(2 * (a + c), b + d);
  }

  lemma SixRows(mask: nat, y: nat)
    requires mask < 8 && mask != 4
    ensures TurnedColumns(mask, y) == TurnedColumns(mask, y % 6)
  {
  }

  lemma BlocksPicture(x: nat, y: nat)
    ensures MaskOn(4, x, y) <==> x % 6 in TurnedColumns(4, y)
  {
    hide MaskOn, TurnedColumns;
    BlocksOn(x / 6, x % 6, y / 4, y % 4);
    BlocksCell(x % 6, y);
  }

  lemma BlocksOn(a: nat, c: nat, b: nat, r: nat)
    requires c < 6 && r < 4
    ensures MaskOn(4, 6 * a + c, 4 * b + r) <==> (r / 2 + c / 3) % 2 == 0
  {
    Halves(b, r);
    Thirds(a, c);
    Modulo2(a + b, r / 2 + c / 3);
  }

  lemma BlocksCell(c: nat, y: nat)
    requires c < 6
    ensures (y % 4 / 2 + c / 3) % 2 == 0 <==> c in TurnedColumns(4, y)
  {
  }

  lemma Halves(b: nat, r: nat)
    requires r < 4
    ensures (4 * b + r) / 2 == 2 * b + r / 2
  {
  }

  lemma Thirds(a: nat, c: nat)
    requires c < 6
    ensures (6 * a + c) / 3 == 2 * a + c / 3
  {
  }

  lemma LinesPicture(mask: nat, c: nat, r: nat)
    requires mask < 4 && c < 6 && r < 6
    ensures MaskOn(mask, c, r) <==> c in TurnedColumns(mask, r)
  {
  }

  function SmallProduct(c: nat, r: nat): (p: nat)
    requires c < 6
    ensures p == c * r
  {
    if c == 0 then 0 else if c == 1 then r else if c == 2 then r + r else if c == 3 then r + r + r
    else if c == 4 then r + r + r + r else r + r + r + r + r
  }

  lemma Picture5(c: nat, r: nat, p: nat)
    requires c < 6 && r < 6 && p == SmallProduct(c, r)
    ensures MaskOn(5, c, r) <==> c in TurnedColumns(5, r)
  {
    Cell5(c, r, p);
  }

  lemma Cell5(c: nat, r: nat, p: nat)
    requires c < 6 && r < 6 && p == SmallProduct(c, r)
    ensures p % 2 + p % 3 == 0 <==> c in TurnedColumns(5, r)
  {
  }

  lemma Picture6(c: nat, r: nat, p: nat)
    requires c < 6 && r < 6 && p == SmallProduct(c, r)
    ensures MaskOn(6, c, r) <==> c in TurnedColumns(6, r)
  {
    Cell6(c, r, p);
  }

  lemma Cell6(c: nat, r: nat, p: nat)
    requires c < 6 && r < 6 && p == SmallProduct(c, r)
    ensures (p % 2 + p % 3) % 2 == 0 <==> c in TurnedColumns(6, r)
  {
  }

  lemma Picture7(c: nat, r: nat, p: nat)
    requires c < 6 && r < 6 && p == SmallProduct(c, r)
    ensures MaskOn(7, c, r) <==> c in TurnedColumns(7, r)
  {
    Cell7(c, r, p);
  }

  lemma Cell7(c: nat, r: nat, p: nat)
    requires c < 6 && r < 6 && p == SmallProduct(c, r)
    ensures (p % 3 + (c + r) % 2) % 2 == 0 <==> c in TurnedColumns(7, r)
  {
  }

  /** The same for the module stored at k. */
  predicate MaskAt(mask: nat, w: nat, k: nat)
    requires w > 0
  {
    MaskOn(mask, k % w, k / w)
  }

  function MaskedModule(m: bv8, on: bool): bv8 {
    if m & 0x80 != 0 || !on then m else m ^ 1
  }

  /** The frame with the modules of the mask turned over, the reserved ones kept. */
  function Masked(frame: seq<bv8>, w: nat, mask: nat): (r: seq<bv8>)
    requires w > 0
    ensures |r| == |frame|
  {
    seq(|frame|, k requires 0 <= k < |frame| => MaskedModule(frame[k], MaskAt(mask, w, k)))
  }

  lemma MaskedTwice(m: bv8, on: bool)
    ensures MaskedModule(MaskedModule(m, on), on) == m
    ensures MaskedModule(m, on) & 0x80 == m & 0x80
    ensures m & 0x80 != 0 ==> MaskedModule(m, on) == m
  {
  }

  lemma MaskedAt(frame: seq<bv8>, w: nat, mask: nat, k: nat)
    requires w > 0 && k < |frame|
    ensures Masked(frame, w, mask)[k] == MaskedModule(frame[k], MaskAt(mask, w, k))
  {
  }

  /** Masking again takes the mask away, and reserves nothing new. */
  lemma MaskUndone(frame: seq<bv8>, w: nat, mask: nat)
    requires w > 0
    ensures Masked(Masked(frame, w, mask), w, mask) == frame
    ensures forall k: nat {:trigger Reserved(frame, k)} :: Reserved(frame, k) <==> Reserved(Masked(frame, w, mask), k)
  {
    hide MaskedModule, MaskAt;
    forall k | 0 <= k < |frame| ensures Masked(Masked(frame, w, mask), w, mask)[k] == frame[k]
                                  && Masked(frame, w, mask)[k] & 0x80 == frame[k] & 0x80 {
      MaskedTwice(frame[k], MaskAt(mask, w, k));
    }
  }

  /** A frame without its mask, as a reader takes it away who has the pictures of the masks. */
  function Unmasked(frame: seq<bv8>, w: nat, mask: nat): (r: seq<bv8>)
    requires w > 0
    ensures |r| == |frame|
  {
    seq(|frame|, k requires 0 <= k < |frame| => Turned(mask, k % w, k / w, frame[k]))
  }

  lemma UnmaskedIs(frame: seq<bv8>, w: nat, mask: nat)
    requires w > 0
    ensures Unmasked(frame, w, mask) == Masked(frame, w, mask)
  {
    hide Turned, MaskedModule, MaskOn;
    forall k | 0 <= k < |frame| ensures Unmasked(frame, w, mask)[k] == Masked(frame, w, mask)[k] {
      TurnedIs(mask, k % w, k / w, frame[k]);
    }
  }

  predicate Dark(m: bv8) {
    m & 1 != 0
  }

  /** How many modules are dark. */
  function Blacks(frame: seq<bv8>): nat {
    if |frame| == 0 then 0 else Blacks(frame[..|frame| - 1]) + if Dark(frame[|frame| - 1]) then 1 else 0
  }

  lemma CellParts(x: nat, y: nat, w: nat)
    requires x < w
    ensures CellAt(x, y, w) % w == x && CellAt(x, y, w) / w == y
  {
    var k := CellAt(x, y, w);
    TimesIs(k / w, w);
    SameQuotient(y, x, k / w, k % w, w);
  }

  /** MASKMAKER */
  method MakeMasked(w: nat, s: array<bv8>, d: array<bv8>, mask: nat) returns (b: nat)
    requires w > 0 && s.Length == d.Length == Times(w, w) && s != d
    modifies d
    ensures d[..] == Masked(s[..], w, mask) && b == Blacks(d[..])
    ensures forall x: nat, y: nat {:trigger Pixel(d[..], w, x, y)} :: x < w && y < w ==>
              Pixel(d[..], w, x, y) == Turned(mask, x, y, Pixel(s[..], w, x, y))
  {
    hide MaskedModule, MaskOn, Times, Dark, Turned;
    var k := 0;
    b := 0;
    ghost var all := Masked(s[..], w, mask);
    RowStart(0, w);
    for y: nat := 0 to w
      invariant k == CellAt(0, y, w) <= s.Length && d[..k] == all[..k] && b == Blacks(all[..k])
    {
      for x: nat := 0 to w
        invariant k == CellAt(x, y, w) <= s.Length && d[..k] == all[..k] && b == Blacks(all[..k])
      {
        CellBelow(x, y, w);
        CellParts(x, y, w);
        d[k] := MaskedModule(s[k], MaskOn(mask, x, y));
        assert all[..k + 1][..k] == all[..k];
        assert d[..k + 1] == all[..k + 1];
        b := b + if Dark(d[k]) then 1 else 0;
        k := k + 1;
        NextCell(x, y, w);
      }
      NextRow(y, w);
    }
    assert d[..k] == d[..] && all[..k] == all by { RowStart(w, w); }
    forall x: nat, y: nat {:trigger Pixel(d[..], w, x, y)} | x < w && y < w
      ensures Pixel(d[..], w, x, y) == Turned(mask, x, y, Pixel(s[..], w, x, y))
    {
      MaskedPixel(s[..], w, mask, x, y);
    }
  }

  lemma MaskedPixel(frame: seq<bv8>, w: nat, mask: nat, x: nat, y: nat)
    requires |frame| == Times(w, w) && x < w && y < w
    ensures Pixel(Masked(frame, w, mask), w, x, y) == Turned(mask, x, y, Pixel(frame, w, x, y))
  {
    hide MaskedModule, MaskOn, Times, CellAt, Turned;
    CellBelow(x, y, w);
    CellParts(x, y, w);
    TurnedIs(mask, x, y, frame[CellAt(x, y, w)]);
  }

  lemma TurnedIs(mask: nat, x: nat, y: nat, m: bv8)
    ensures Turned(mask, x, y, m) == MaskedModule(m, MaskOn(mask, x, y))
  {
    MaskPicture(mask, x, y);
    hide MaskOn, TurnedColumns;
  }

  lemma RowStart(y: nat, w: nat)
    ensures CellAt(0, y, w) == Times(y, w) && CellAt(0, 0, w) == 0
  {
  }

  lemma NextCell(x: nat, y: nat, w: nat)
    ensures CellAt(x + 1, y, w) == CellAt(x, y, w) + 1
  {
  }

  lemma NextRow(y: nat, w: nat)
    requires y < w
    ensures CellAt(w, y, w) == CellAt(0, y + 1, w) <= Times(w, w)
  {
    Monotone(y + 1, w, w);
  }

  // ----- the format information -----

  /** QRspec_getFormatInfo */
  function FormatInfo(mask: nat, level: Level): nat {
    match (level, mask)
    case (L, 0) => 0x77c4 case (L, 1) => 0x72f3 case (L, 2) => 0x7daa case (L, 3) => 0x789d
    case (L, 4) => 0x662f case (L, 5) => 0x6318 case (L, 6) => 0x6c41 case (L, 7) => 0x6976
    case (M, 0) => 0x5412 case (M, 1) => 0x5125 case (M, 2) => 0x5e7c case (M, 3) => 0x5b4b
    case (M, 4) => 0x45f9 case (M, 5) => 0x40ce case (M, 6) => 0x4f97 case (M, 7) => 0x4aa0
    case (Q, 0) => 0x355f case (Q, 1) => 0x3068 case (Q, 2) => 0x3f31 case (Q, 3) => 0x3a06
    case (Q, 4) => 0x24b4 case (Q, 5) => 0x2183 case (Q, 6) => 0x2eda case (Q, 7) => 0x2bed
    case (H, 0) => 0x1689 case (H, 1) => 0x13be case (H, 2) => 0x1ce7 case (H, 3) => 0x19d0
    case (H, 4) => 0x0762 case (H, 5) => 0x0255 case (H, 6) => 0x0d0c case (H, 7) => 0x083b
    case _ => 0
  }

  /** The five bits of the format with 10101 added (section 8.9 of ISO/IEC 18004): what the
      format says about the level and the mask. */
  function FormatData(format: nat): nat {
    var n := format / 1024;
    (if n / 16 % 2 == 0 then 16 else 0) + (n / 8 % 2) * 8 + (if n / 4 % 2 == 0 then 4 else 0) + (n / 2 % 2) * 2
      + (if n % 2 == 0 then 1 else 0)
  }

  function LevelBits(level: Level): nat {
    match level case L => 1 case M => 0 case Q => 3 case H => 2
  }

  /** The mask and the level can be read off the format information. */
  lemma FormatRead(mask: nat, level: Level)
    requires mask < 8
    ensures FormatData(FormatInfo(mask, level)) == 8 * LevelBits(level) + mask
  {
    hide FormatData, FormatInfo;
    if mask < 2 {
      FormatRead01(mask, level);
    } else if mask < 4 {
      FormatRead23(mask, level);
    } else if mask < 6 {
      FormatRead45(mask, level);
    } else {
      FormatRead67(mask, level);
    }
  }

  lemma FormatRead01(mask: nat, level: Level)
    requires 0 <= mask <= 1
    ensures FormatData(FormatInfo(mask, level)) == 8 * LevelBits(level) + mask
  {
  }

  lemma FormatRead23(mask: nat, level: Level)
    requires 2 <= mask <= 3
    ensures FormatData(FormatInfo(mask, level)) == 8 * LevelBits(level) + mask
  {
  }

  lemma FormatRead45(mask: nat, level: Level)
    requires 4 <= mask <= 5
    ensures FormatData(FormatInfo(mask, level)) == 8 * LevelBits(level) + mask
  {
  }

  lemma FormatRead67(mask: nat, level: Level)
    requires 6 <= mask <= 7
    ensures FormatData(FormatInfo(mask, level)) == 8 * LevelBits(level) + mask
  {
  }

  /** The bit of the format information a module shows; every bit is shown twice. */
  function FormatBit(w: nat, x: nat, y: nat): Option<nat>
    requires w >= 21 && x < w && y < w
  {
    if y == 8 && w - 8 <= x then Some(w - 1 - x)
    else if x == 8 && y < 6 then Some(y)
    else if x == 8 && (y == 7 || y == 8) then Some(y - 1)
    else if x == 8 && w - 7 <= y then Some(8 + (y - (w - 7)))
    else if y == 8 && x == 7 then Some(8)
    else if y == 8 && x < 6 then Some(14 - x)
    else None
  }

  /** The two modules that show bit k. */
  lemma FormatBitIs(w: nat, x: nat, y: nat, k: nat)
    requires w >= 21 && x < w && y < w && k < 15
    ensures FormatBit(w, x, y) == Some(k) <==>
              if k < 8 then (x == w - 1 - k && y == 8) || (x == 8 && y == if k < 6 then k else k + 1)
              else (x == 8 && y == w - 15 + k) || (x == (if k == 8 then 7 else 14 - k) && y == 8)
  {
  }

  lemma ShiftedOnce(v: nat, k: nat)
    ensures Shifted(v, k + 1) == Shifted(v, k) / 2 && Shifted(v, 0) == v
  {
  }

  function FormatModule(format: nat, k: nat): bv8 {
    if Shifted(format, k) % 2 == 1 then 0x85 else 0x84
  }

  /** A module after the first n bits are written. */
  function WithFormat(format: nat, n: nat, bit: Option<nat>, m: bv8): bv8 {
    if bit.Some? && bit.value < n then FormatModule(format, bit.value) else m
  }

  lemma RowBelow(k: nat, w: nat)
    requires w > 0 && k < Times(w, w)
    ensures k / w < w && k % w < w && CellAt(k % w, k / w, w) == k
  {
    Divide(k, w);
    if k / w >= w {
      Monotone(w, k / w, w);
    }
  }

  /** The frame with the first n bits of the format information. */
  function WithInfo(s: seq<bv8>, w: nat, format: nat, n: nat): (r: seq<bv8>)
    requires w >= 21 && |s| == Times(w, w)
    ensures |r| == |s|
  {
    seq(|s|, k requires 0 <= k < |s| =>
      RowBelow(k, w);
      WithFormat(format, n, FormatBit(w, k % w, k / w), s[k]))
  }

  lemma InfoPixel(s: seq<bv8>, w: nat, format: nat, n: nat, x: nat, y: nat)
    requires w >= 21 && |s| == Times(w, w) && x < w && y < w
    ensures Pixel(WithInfo(s, w, format, n), w, x, y) == WithFormat(format, n, FormatBit(w, x, y), Pixel(s, w, x, y))
  {
    hide WithFormat, FormatBit, Times, CellAt;
    CellBelow(x, y, w);
    CellParts(x, y, w);
  }

  /** Frames with the same modules are equal. */
  lemma SamePixels(s: seq<bv8>, t: seq<bv8>, w: nat)
    requires w > 0 && |s| == |t| == Times(w, w)
    requires forall x: nat, y: nat {:trigger Pixel(s, w, x, y)} :: x < w && y < w ==> Pixel(s, w, x, y) == Pixel(t, w, x, y)
    ensures s == t
  {
    hide Times, CellAt;
    forall k | 0 <= k < |s| ensures s[k] == t[k] {
      RowBelow(k, w);
      assert Pixel(s, w, k % w, k / w) == Pixel(t, w, k % w, k / w);
    }
  }

  /** Mask_writeFormatInformation: twice the number of ones is returned. */
  method WriteFormatInformation(w: nat, frame: array<bv8>, mask: nat, level: Level) returns (blacks: nat)
    requires w >= 21 && frame.Length == Times(w, w)
    modifies frame
    ensures frame[..] == WithInfo(old(frame[..]), w, FormatInfo(mask, level), 15)
    ensures blacks == 2 * Ones(FormatInfo(mask, level), 15)
  {
    hide Pixel, Times, CellAt, FormatInfo, FormatModule, FormatBit, Shifted, WithInfo;
    ghost var was := frame[..];
    ghost var info := FormatInfo(mask, level);
    var format := FormatInfo(mask, level);
    blacks := 0;
    ShiftedOnce(info, 0);
    for i: nat := 0 to 8
      invariant format == Shifted(info, i) && blacks == 2 * Ones(info, i)
      invariant forall a: nat, b: nat {:trigger Pixel(frame[..], w, a, b)} :: a < w && b < w ==>
                  Pixel(frame[..], w, a, b) == WithFormat(info, i, FormatBit(w, a, b), Pixel(was, w, a, b))
    {
      var v := if format % 2 == 1 then 0x85 else 0x84;
      assert v == FormatModule(info, i) by { ModuleOf(info, i); }
      blacks := blacks + if format % 2 == 1 then 2 else 0;
      Put(frame, w, w - 1 - i, 8, v);
      Put(frame, w, 8, if i < 6 then i else i + 1, v);
      forall a: nat, b: nat {:trigger Pixel(frame[..], w, a, b)} | a < w && b < w
        ensures Pixel(frame[..], w, a, b) == WithFormat(info, i + 1, FormatBit(w, a, b), Pixel(was, w, a, b))
      {
        FormatBitIs(w, a, b, i);
      }
      format := format / 2;
      ShiftedOnce(info, i);
    }
    for i: nat := 0 to 7
      invariant format == Shifted(info, 8 + i) && blacks == 2 * Ones(info, 8 + i)
      invariant forall a: nat, b: nat {:trigger Pixel(frame[..], w, a, b)} :: a < w && b < w ==>
                  Pixel(frame[..], w, a, b) == WithFormat(info, 8 + i, FormatBit(w, a, b), Pixel(was, w, a, b))
    {
      var v := if format % 2 == 1 then 0x85 else 0x84;
      assert v == FormatModule(info, 8 + i) by { ModuleOf(info, 8 + i); }
      blacks := blacks + if format % 2 == 1 then 2 else 0;
      Put(frame, w, 8, w - 7 + i, v);
      Put(frame, w, if i == 0 then 7 else 6 - i, 8, v);
      forall a: nat, b: nat {:trigger Pixel(frame[..], w, a, b)} | a < w && b < w
        ensures Pixel(frame[..], w, a, b) == WithFormat(info, 9 + i, FormatBit(w, a, b), Pixel(was, w, a, b))
      {
        FormatBitIs(w, a, b, 8 + i);
      }
      format := format / 2;
      ShiftedOnce(info, 8 + i);
    }
    forall a: nat, b: nat {:trigger Pixel(frame[..], w, a, b)} | a < w && b < w
      ensures Pixel(frame[..], w, a, b) == Pixel(WithInfo(was, w, info, 15), w, a, b)
    {
      InfoPixel(was, w, info, 15, a, b);
    }
    SamePixels(frame[..], WithInfo(was, w, info, 15), w);
  }

  function Ones(v: nat, n: nat): nat {
    if n == 0 then 0 else Ones(v, n - 1) + Shifted(v, n - 1) % 2
  }

  lemma ModuleOf(format: nat, k: nat)
    ensures FormatModule(format, k) == if Shifted(format, k) % 2 == 1 then 0x85 else 0x84
  {
  }

  // ----- both -----

  /** The symbol with a mask and its format information. */
  function MaskedSymbol(frame: seq<bv8>, w: nat, mask: nat, level: Level): (r: seq<bv8>)
    requires w >= 21 && |frame| == Times(w, w)
    ensures |r| == |frame|
  {
    WithInfo(Masked(frame, w, mask), w, FormatInfo(mask, level), 15)
  }

  /** Mask_makeMask */
  method MakeMask(w: nat, frame: array<bv8>, mask: int, level: Level) returns (r: Option<array<bv8>>)
    requires w >= 21 && frame.Length == Times(w, w)
    ensures r.None? <==> mask < 0 || mask >= 8
    ensures r.Some? ==> fresh(r.value) && r.value[..] == MaskedSymbol(frame[..], w, mask, level)
  {
    hide Times, FormatInfo, Masked, WithInfo, Blacks;
    if mask < 0 || mask >= 8 {
      return None;
    }
    var masked := new bv8[frame.Length];
    var b := MakeMasked(w, frame, masked, mask);
    var blacks := WriteFormatInformation(w, masked, mask, level);
    r := Some(masked);
  }

  // ----- the two counts together -----

  /** The modules for the format information are still light. */
  ghost predicate LightFormat(s: seq<bv8>, w: nat)
    requires w >= 21 && |s| == Times(w, w)
  {
    forall x: nat, y: nat {:trigger Pixel(s, w, x, y)} :: x < w && y < w && FormatBit(w, x, y).Some? ==> !Dark(Pixel(s, w, x, y))
  }

  /** The module that shows bit k in the first or the second copy of the format information. */
  function FormatPlace(w: nat, k: nat, copy: nat): (nat, nat)
    requires w >= 21 && k < 15
  {
    if copy == 1 then (if k < 8 then (w - 1 - k, 8) else (8, w - 15 + k))
    else (if k < 8 then (8, if k < 6 then k else k + 1) else (if k == 8 then 7 else 14 - k, 8))
  }

  lemma {:induction false} BlacksUpdate(s: seq<bv8>, k: nat, v: bv8)
    requires k < |s| && !Dark(s[k])
    ensures Blacks(s[k := v]) == Blacks(s) + if Dark(v) then 1 else 0
    decreases |s|
  {
    hide Dark;
    var n := |s| - 1;
    if k == n {
      assert s[k := v][..n] == s[..n];
    } else {
      assert s[k := v][..n] == s[..n][k := v];
      BlacksUpdate(s[..n], k, v);
    }
  }

  lemma FormatDark(format: nat, k: nat)
    ensures Dark(FormatModule(format, k)) <==> Shifted(format, k) % 2 == 1
  {
    hide Shifted;
  }

  /** The two modules of bit n. */
  lemma PlacesOf(w: nat, n: nat)
    requires w >= 21 && n < 15
    ensures
      var p, q := FormatPlace(w, n, 0), FormatPlace(w, n, 1);
      && p.0 < w && p.1 < w && q.0 < w && q.1 < w && p != q
      && FormatBit(w, p.0, p.1) == FormatBit(w, q.0, q.1) == Some(n)
  {
  }

  /** No other module shows bit n. */
  lemma NoOtherPlace(w: nat, n: nat, x: nat, y: nat)
    requires w >= 21 && n < 15 && x < w && y < w && FormatBit(w, x, y) == Some(n)
    ensures (x, y) == FormatPlace(w, n, 0) || (x, y) == FormatPlace(w, n, 1)
  {
    FormatBitIs(w, x, y, n);
    hide FormatBit;
  }

  /** One more bit is two more modules. */
  lemma OneBit(s: seq<bv8>, w: nat, format: nat, n: nat, k: nat, j: nat)
    requires w >= 21 && |s| == Times(w, w) && n < 15
    requires var p := FormatPlace(w, n, 0); k == CellAt(p.0, p.1, w)
    requires var q := FormatPlace(w, n, 1); j == CellAt(q.0, q.1, w)
    ensures k < |s| && j < |s| && k != j
    ensures WithInfo(s, w, format, n)[k] == s[k] && WithInfo(s, w, format, n)[j] == s[j]
    ensures WithInfo(s, w, format, n + 1) == WithInfo(s, w, format, n)[k := FormatModule(format, n)][j := FormatModule(format, n)]
  {
    hide FormatBit, FormatModule, FormatPlace, Times, CellAt, WithFormat, WithInfo;
    PlacesOf(w, n);
    var p, q := FormatPlace(w, n, 0), FormatPlace(w, n, 1);
    CellBelow(p.0, p.1, w);
    CellBelow(q.0, q.1, w);
    CellParts(p.0, p.1, w);
    CellParts(q.0, q.1, w);
    InfoAt(s, w, format, n, k);
    InfoAt(s, w, format, n, j);
    BitWritten(format, n, Some(n), s[k]);
    BitWritten(format, n, Some(n), s[j]);
    var t, u := WithInfo(s, w, format, n + 1), WithInfo(s, w, format, n)[k := FormatModule(format, n)][j := FormatModule(format, n)];
    forall i | 0 <= i < |s| ensures t[i] == u[i] {
      RowBelow(i, w);
      InfoAt(s, w, format, n, i);
      InfoAt(s, w, format, n + 1, i);
      BitWritten(format, n, FormatBit(w, i % w, i / w), s[i]);
      if FormatBit(w, i % w, i / w) == Some(n) {
        NoOtherPlace(w, n, i % w, i / w);
      }
    }
    assert t == u;
  }

  lemma InfoAt(s: seq<bv8>, w: nat, format: nat, n: nat, i: nat)
    requires w >= 21 && |s| == Times(w, w) && i < |s|
    ensures i % w < w && i / w < w
    ensures WithInfo(s, w, format, n)[i] == WithFormat(format, n, FormatBit(w, i % w, i / w), s[i])
  {
    hide Times, CellAt, WithFormat, FormatBit;
    RowBelow(i, w);
  }

  lemma BitWritten(format: nat, n: nat, bit: Option<nat>, m: bv8)
    ensures bit == Some(n) ==> WithFormat(format, n, bit, m) == m && WithFormat(format, n + 1, bit, m) == FormatModule(format, n)
    ensures bit != Some(n) ==> WithFormat(format, n, bit, m) == WithFormat(format, n + 1, bit, m)
  {
    hide FormatModule;
  }

  lemma {:induction false} InfoCounted(s: seq<bv8>, w: nat, format: nat, n: nat)
    requires w >= 21 && |s| == Times(w, w) && n <= 15 && LightFormat(s, w)
    ensures Blacks(WithInfo(s, w, format, n)) == Blacks(s) + 2 * Ones(format, n)
    decreases n
  {
    hide Times, CellAt, FormatBit, FormatModule, FormatPlace, Blacks, Dark, WithInfo, Shifted;
    if n == 0 {
      NoInfo(s, w, format);
    } else {
      InfoCounted(s, w, format, n - 1);
      PlacesOf(w, n - 1);
      var p, q := FormatPlace(w, n - 1, 0), FormatPlace(w, n - 1, 1);
      var k, j := CellAt(p.0, p.1, w), CellAt(q.0, q.1, w);
      OneBit(s, w, format, n - 1, k, j);
      assert Pixel(s, w, p.0, p.1) == s[k] && Pixel(s, w, q.0, q.1) == s[j];
      var v, t := FormatModule(format, n - 1), WithInfo(s, w, format, n - 1);
      FormatDark(format, n - 1);
      BlacksUpdate(t, k, v);
      BlacksUpdate(t[k := v], j, v);
    }
  }

  lemma NoInfo(s: seq<bv8>, w: nat, format: nat)
    requires w >= 21 && |s| == Times(w, w)
    ensures WithInfo(s, w, format, 0) == s
  {
    hide FormatBit, Times;
  }

  /** The dark modules the mask maker and the format writer count between them. */
  function Counted(frame: seq<bv8>, w: nat, mask: nat, level: Level): nat
    requires w > 0
  {
    Blacks(Masked(frame, w, mask)) + 2 * Ones(FormatInfo(mask, level), 15)
  }

  /** On a frame whose format area is reserved and light they are the dark modules of the symbol. */
  lemma CountExact(frame: seq<bv8>, w: nat, mask: nat, level: Level)
    requires w >= 21 && |frame| == Times(w, w) && LightFormat(frame, w)
    requires forall x: nat, y: nat {:trigger Pixel(frame, w, x, y)} ::
               x < w && y < w && FormatBit(w, x, y).Some? ==> Pixel(frame, w, x, y) & 0x80 != 0
    ensures Counted(frame, w, mask, level) == Blacks(MaskedSymbol(frame, w, mask, level))
  {
    hide Times, CellAt, Masked, FormatBit, FormatInfo, Blacks, Ones, WithInfo, Dark, MaskAt, MaskedModule;
    var m := Masked(frame, w, mask);
    forall x: nat, y: nat {:trigger Pixel(m, w, x, y)} | x < w && y < w && FormatBit(w, x, y).Some?
      ensures !Dark(Pixel(m, w, x, y))
    {
      CellBelow(x, y, w);
      var k := CellAt(x, y, w);
      MaskedAt(frame, w, mask, k);
      MaskedTwice(frame[k], MaskAt(mask, w, k));
      assert Pixel(frame, w, x, y) == frame[k];
    }
    InfoCounted(m, w, FormatInfo(mask, level), 15);
  }
}
