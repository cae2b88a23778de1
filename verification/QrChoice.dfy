/** Mask_mask (qrcode/mask.c:221-242, 300-357): the mask with the fewest demerits. */
module QrChoice {
  import opened Products
  import opened QrCapacity
  import opened QrFill
  import opened QrDraw
  import opened QrMask
  import opened QrRuns
  import opened QrDemerits

  /** Side of the largest symbol. */
  const WIDTH_MAX := 177

  const INT_MAX := 0x7fffffff

  // ----- blocks of one colour -----

  /** The module in column x and row y and its three neighbours before it are of one colour. */
  predicate Uniform(s: seq<bv8>, w: nat, x: nat, y: nat)
    requires |s| == Times(w, w) && 1 <= x < w && 1 <= y < w
  {
    && Dark(Pixel(s, w, x, y)) == Dark(Pixel(s, w, x - 1, y))
    && Dark(Pixel(s, w, x, y)) == Dark(Pixel(s, w, x, y - 1))
    && Dark(Pixel(s, w, x, y)) == Dark(Pixel(s, w, x - 1, y - 1))
  }

  /** The blocks of one colour that end before column x of row y. */
  ghost function BlocksBefore(s: seq<bv8>, w: nat, x: nat, y: nat): set<(nat, nat)>
    requires |s| == Times(w, w)
  {
    set a: nat, b: nat | a < w && b < w && 1 <= a && 1 <= b && (b < y || (b == y && a < x)) && Uniform(s, w, a, b) :: (a, b)
  }

  /** All blocks of two by two modules of one colour. */
  ghost function Blocks(s: seq<bv8>, w: nat): set<(nat, nat)>
    requires |s| == Times(w, w)
  {
    BlocksBefore(s, w, 1, w)
  }

  lemma OneMoreBlock(s: seq<bv8>, w: nat, x: nat, y: nat)
    requires |s| == Times(w, w) && 1 <= x < w && 1 <= y < w
    ensures BlocksBefore(s, w, x + 1, y) == BlocksBefore(s, w, x, y) + if Uniform(s, w, x, y) then {(x, y)} else {}
    ensures (x, y) !in BlocksBefore(s, w, x, y)
  {
    hide Uniform;
  }

  lemma NextRowBlocks(s: seq<bv8>, w: nat, y: nat)
    requires |s| == Times(w, w) && 1 <= y < w
    ensures BlocksBefore(s, w, w, y) == BlocksBefore(s, w, 1, y + 1)
  {
    hide Uniform;
  }

  lemma NoBlocks(s: seq<bv8>, w: nat)
    requires |s| == Times(w, w)
    ensures BlocksBefore(s, w, 1, 1) == {}
  {
    hide Uniform;
  }

  /** b22 | (w22 ^ 1) */
  predicate BlockTest(a: bv8, b: bv8, c: bv8, d: bv8) {
    ((a & b & c & d) | ((a | b | c | d) ^ 1)) & 1 != 0
  }

  lemma BlockBits(a: bv8, b: bv8, c: bv8, d: bv8)
    ensures BlockTest(a, b, c, d) <==> Dark(a) == Dark(b) && Dark(a) == Dark(c) && Dark(a) == Dark(d)
  {
  }

  lemma BlockPlaces(x: nat, y: nat, w: nat)
    requires 1 <= x < w && 1 <= y < w
    ensures CellAt(x, y, w) < Times(w, w) && CellAt(x - 1, y, w) == CellAt(x, y, w) - 1
    ensures CellAt(x, y - 1, w) == CellAt(x, y, w) - w && CellAt(x - 1, y - 1, w) == CellAt(x, y, w) - w - 1
  {
    CellBelow(x, y, w);
  }

  /** Mask_calcN2 */
  method CalcN2(w: nat, frame: array<bv8>) returns (demerit: nat)
    requires w >= 1 && frame.Length == Times(w, w)
    ensures demerit == 3 * |Blocks(frame[..], w)| && demerit <= 3 * Times(w, w) + 3
  {
    hide Times, CellAt, BlocksBefore, BlockTest, Dark;
    ghost var s := frame[..];
    demerit := 0;
    NoBlocks(s, w);
    var k := w + 1;
    FirstPlace(w);
    for y: nat := 1 to w
      invariant k == CellAt(1, y, w) && demerit == 3 * |BlocksBefore(s, w, 1, y)| && demerit <= 3 * k
    {
      for x: nat := 1 to w
        invariant k == CellAt(x, y, w) && demerit == 3 * |BlocksBefore(s, w, x, y)| && demerit <= 3 * k
      {
        BlockPlaces(x, y, w);
        BlockBits(frame[k], frame[k - 1], frame[k - w], frame[k - w - 1]);
        OneMoreBlock(s, w, x, y);
        if BlockTest(frame[k], frame[k - 1], frame[k - w], frame[k - w - 1]) {
          demerit := demerit + 3;
        }
        k := k + 1;
        NextCell(x, y, w);
      }
      NextRowBlocks(s, w, y);
      NextRow(y, w);
      k := k + 1;
      NextCell(0, y + 1, w);
    }
    LastPlace(w);
  }

  lemma FirstPlace(w: nat)
    ensures CellAt(1, 1, w) == w + 1
  {
    assert Times(1, w) == Times(0, w) + w;
  }

  lemma LastPlace(w: nat)
    requires w >= 1
    ensures CellAt(1, w, w) == Times(w, w) + 1
  {
  }

  // ----- all demerits but those for the ratio -----

  function LineDemerit(s: seq<bv8>, w: nat, z: nat, across: bool): nat
    requires |s| == Times(w, w) && z < w
  {
    RunDemerits(Runs(Line(s, w, z, across)), |Runs(Line(s, w, z, across))|)
  }

  function LineDemerits(s: seq<bv8>, w: nat, across: bool, n: nat): nat
    requires |s| == Times(w, w) && n <= w
  {
    if n == 0 then 0 else LineDemerits(s, w, across, n - 1) + LineDemerit(s, w, n - 1, across)
  }

  /** They are the demerits of its modules. */
  lemma LineExact(s: seq<bv8>, w: nat, z: nat, across: bool)
    requires |s| == Times(w, w) && z < w
    ensures LineDemerit(s, w, z, across) == LineCost(Line(s, w, z, across), w)
  {
    hide Runs, RunDemerits, LineCost;
    DemeritsExact(Line(s, w, z, across));
  }

  /** For the blocks of one colour, the rows and the columns. */
  ghost function Penalty(s: seq<bv8>, w: nat): nat
    requires |s| == Times(w, w)
  {
    3 * |Blocks(s, w)| + LineDemerits(s, w, true, w) + LineDemerits(s, w, false, w)
  }

  lemma LineBound(s: seq<bv8>, w: nat, z: nat, across: bool)
    requires |s| == Times(w, w) && z < w <= WIDTH_MAX
    ensures LineDemerit(s, w, z, across) <= 40000
  {
    hide Runs, RunDemerits;
    RunDemeritsBound(Line(s, w, z, across), |Runs(Line(s, w, z, across))|);
  }

  /** Mask_evaluateSymbol */
  method EvaluateSymbol(w: nat, frame: array<bv8>) returns (demerit: nat)
    requires 1 <= w <= WIDTH_MAX && frame.Length == Times(w, w)
    ensures demerit == Penalty(frame[..], w) && demerit <= 3 * Times(w, w) + 3 + 80000 * WIDTH_MAX
  {
    hide Times, Blocks, Runs, RunDemerits, Line;
    ghost var s := frame[..];
    var runLength := new int[WIDTH_MAX + 1];
    var blocks := CalcN2(w, frame);
    demerit := blocks;
    for y: nat := 0 to w
      invariant frame[..] == s && demerit == blocks + LineDemerits(s, w, true, y) <= blocks + 40000 * y
    {
      var length := CalcRunLength(w, frame, y, true, runLength);
      var more := CalcN1N3(length, runLength);
      LineBound(s, w, y, true);
      demerit := demerit + more;
    }
    ghost var rows := LineDemerits(s, w, true, w);
    for x: nat := 0 to w
      invariant frame[..] == s && demerit == blocks + rows + LineDemerits(s, w, false, x) <= blocks + rows + 40000 * x
    {
      var length := CalcRunLength(w, frame, x, false, runLength);
      var more := CalcN1N3(length, runLength);
      LineBound(s, w, x, false);
      demerit := demerit + more;
    }
  }

  // ----- the ratio of dark modules -----

  /** The percentage of dark modules as the source rounds it. */
  function Ratio(blacks: nat, w2: nat): nat
    requires w2 > 0
  {
    (200 * blacks + w2) / w2 / 2
  }

  /** It is the nearest whole percentage. */
  lemma RatioRounded(blacks: nat, w2: nat)
    requires w2 > 0
    ensures 0 - w2 <= 2 * (100 * blacks - Ratio(blacks, w2) * w2) <= w2
  {
    var n := 200 * blacks + w2;
    var q, r := n / w2, n / w2 / 2;
    Divide(n, w2);
    TimesIs(q, w2);
    assert q == 2 * r || q == 2 * r + 1;
    assert q * w2 == 2 * (r * w2) || q * w2 == 2 * (r * w2) + w2;
  }

  /** Ten for each five percent away from the half. */
  function RatioDemerit(blacks: nat, w2: nat): nat
    requires w2 > 0
  {
    var r := Ratio(blacks, w2);
    (if r < 50 then 50 - r else r - 50) / 5 * 10
  }

  /** Section 8.8.2 of ISO/IEC 18004: k steps of five percent away from the half. */
  lemma RatioSteps(blacks: nat, w2: nat, k: nat)
    requires w2 > 0
    ensures
      var r := Ratio(blacks, w2);
      (50 + 5 * k <= r < 55 + 5 * k || 45 - 5 * k < r <= 50 - 5 * k) ==> RatioDemerit(blacks, w2) == 10 * k
  {
    hide Ratio;
  }

  lemma RatioBound(blacks: nat, w2: nat)
    requires 0 < w2 <= 40000 && blacks <= w2 + 30
    ensures RatioDemerit(blacks, w2) <= 40000000
  {
    Divide(200 * blacks + w2, w2);
    TimesIs((200 * blacks + w2) / w2, w2);
  }

  lemma {:induction false} BlacksBound(s: seq<bv8>)
    ensures Blacks(s) <= |s|
    decreases |s|
  {
    if |s| > 0 {
      BlacksBound(s[..|s| - 1]);
    }
  }

  lemma {:induction false} OnesBound(v: nat, n: nat)
    ensures Ones(v, n) <= n
    decreases n
  {
    if n > 0 {
      OnesBound(v, n - 1);
    }
  }

  lemma SquareBound(w: nat)
    requires 1 <= w <= WIDTH_MAX
    ensures 0 < Times(w, w) <= 40000
  {
    Monotone(w, WIDTH_MAX, w);
    TimesIs(WIDTH_MAX, w);
    Monotone(1, w, w);
    assert Times(1, w) == Times(0, w) + w;
  }

  // ----- the choice -----

  /** What the source adds up for a mask. */
  ghost function Score(frame: seq<bv8>, w: nat, mask: nat, level: Level): nat
    requires w >= 21 && |frame| == Times(w, w) > 0
  {
    RatioDemerit(Counted(frame, w, mask, level), Times(w, w)) + Penalty(MaskedSymbol(frame, w, mask, level), w)
  }

  /** The demerits of a symbol as it is. */
  ghost function Demerits(s: seq<bv8>, w: nat): nat
    requires |s| == Times(w, w) > 0
  {
    RatioDemerit(Blacks(s), Times(w, w)) + Penalty(s, w)
  }

  /** Of all masks this is the one with the fewest demerits, the first of several. */
  ghost predicate Best(frame: seq<bv8>, w: nat, mask: nat, level: Level)
    requires w >= 21 && |frame| == Times(w, w) > 0
  {
    mask < 8 && forall n: nat {:trigger Score(frame, w, n, level)} :: n < 8 ==>
                  Score(frame, w, mask, level) <= Score(frame, w, n, level)
                  && (n < mask ==> Score(frame, w, mask, level) < Score(frame, w, n, level))
  }

  /** One mask tried: its symbol and its demerits. */
  method TryMask(w: nat, frame: array<bv8>, symbol: array<bv8>, i: nat, level: Level) returns (demerit: nat)
    requires 21 <= w <= WIDTH_MAX && frame.Length == symbol.Length == Times(w, w) > 0 && frame != symbol
    modifies symbol
    ensures symbol[..] == MaskedSymbol(frame[..], w, i, level)
    ensures demerit == Score(frame[..], w, i, level) < INT_MAX
  {
    hide Times, Masked, WithInfo, FormatInfo, Blacks, Ones, Ratio, Penalty;
    var w2 := w * w;
    TimesIs(w, w);
    var blacks := MakeMasked(w, frame, symbol, i);
    var format := WriteFormatInformation(w, symbol, i, level);
    blacks := blacks + format;
    var bratio := Ratio(blacks, w2);
    demerit := (if bratio < 50 then 50 - bratio else bratio - 50) / 5 * 10;
    var more := EvaluateSymbol(w, symbol);
    demerit := demerit + more;
    SquareBound(w);
    BlacksBound(Masked(frame[..], w, i));
    OnesBound(FormatInfo(i, level), 15);
    RatioBound(blacks, w2);
  }

  /** Mask_mask */
  method ChooseMask(w: nat, frame: array<bv8>, level: Level) returns (best: array<bv8>, ghost chosen: nat)
    requires 21 <= w <= WIDTH_MAX && frame.Length == Times(w, w) > 0
    ensures fresh(best) && Best(frame[..], w, chosen, level)
    ensures best[..] == MaskedSymbol(frame[..], w, chosen, level)
  {
    hide Times, MaskedSymbol, Score;
    var symbol := new bv8[frame.Length];
    best := new bv8[frame.Length];
    var minDemerit := INT_MAX;
    chosen := 8;
    ghost var s := frame[..];
    for i: nat := 0 to 8
      invariant frame[..] == s && minDemerit <= INT_MAX
      invariant i == 0 ==> minDemerit == INT_MAX
      invariant i > 0 ==> chosen < i && minDemerit == Score(s, w, chosen, level) && best[..] == MaskedSymbol(s, w, chosen, level)
      invariant forall n: nat {:trigger Score(s, w, n, level)} :: n < i ==>
                  minDemerit <= Score(s, w, n, level) && (n < chosen ==> minDemerit < Score(s, w, n, level))
    {
      var demerit := TryMask(w, frame, symbol, i, level);
      if demerit < minDemerit {
        minDemerit := demerit;
        forall k | 0 <= k < best.Length {
          best[k] := symbol[k];
        }
        assert best[..] == symbol[..];
        chosen := i;
      }
    }
  }

  // ----- in terms of the finished symbol -----

  /** Where the format area is reserved and light, what is added up are the demerits of the symbol. */
  lemma ScoreExact(frame: seq<bv8>, w: nat, mask: nat, level: Level)
    requires w >= 21 && |frame| == Times(w, w) > 0 && LightFormat(frame, w)
    requires forall x: nat, y: nat {:trigger Pixel(frame, w, x, y)} ::
               x < w && y < w && FormatBit(w, x, y).Some? ==> Pixel(frame, w, x, y) & 0x80 != 0
    ensures Score(frame, w, mask, level) == Demerits(MaskedSymbol(frame, w, mask, level), w)
  {
    hide Times, MaskedSymbol, Penalty, RatioDemerit, LightFormat, Blacks, Counted;
    CountExact(frame, w, mask, level);
  }
}
