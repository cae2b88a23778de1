/** Packing entries into symbols in order: what cutting them up costs, and that filling each
    symbol as far as it goes needs the fewest. */
module QrPacking {
  import opened QrBits
  import opened QrEntry
  import opened QrReader
  import opened QrCapacity
  import opened QrInput

  const HEADER_SIZE := 20
  const MAX_SYMBOLS := 16

  predicate DataOnly(es: seq<Entry>) {
    forall i :: 0 <= i < |es| ==> Proper(es[i]) && !es[i].mode.Structure?
  }

  predicate NoKanji(es: seq<Entry>) {
    forall i :: 0 <= i < |es| ==> !es[i].mode.Kanji?
  }

  /** The entries of all symbols. */
  function Flatten(symbols: seq<seq<Entry>>): seq<Entry> {
    if |symbols| == 0 then [] else Flatten(symbols[..|symbols| - 1]) + symbols[|symbols| - 1]
  }

  /** How many bits the entries take in the stream. */
  function BitCount(es: seq<Entry>, version: nat): nat
    requires DataOnly(es)
  {
    |Stream(es, version)|
  }

  lemma {:induction false} StreamConcat(a: seq<Entry>, b: seq<Entry>, version: nat)
    requires AllProper(a) && AllProper(b)
    ensures AllProper(a + b) && Stream(a + b, version) == Stream(a, version) + Stream(b, version)
    decreases |a|
  {
    hide Proper, Stream, Encoded;
    if |a| == 0 {
      assert a + b == b;
      EmptyStream(version);
      assert [] + Stream(b, version) == Stream(b, version);
    } else {
      StreamConcat(a[1..], b, version);
      assert (a + b)[1..] == a[1..] + b;
      StreamStep(a + b, version);
      StreamStep(a, version);
      assert Encoded(a[0], version) + Stream(a[1..], version) + Stream(b, version) ==
             Encoded(a[0], version) + (Stream(a[1..], version) + Stream(b, version));
    }
  }

  lemma OneStream(e: Entry, version: nat)
    requires Proper(e)
    ensures Stream([e], version) == Encoded(e, version)
  {
    hide Proper, Stream, Encoded;
    StreamStep([e], version);
    assert [e][1..] == [];
    EmptyStream(version);
    assert Encoded(e, version) + [] == Encoded(e, version);
  }

  /** Within one symbol: the entries fit, with a structured-append header. */
  predicate Fits(es: seq<Entry>, version: nat, level: Level) {
    DataOnly(es) && BitCount(es, version) + HEADER_SIZE <= 8 * DataLength(version, level)
  }

  lemma FitsMeans(es: seq<Entry>, version: nat, level: Level)
    requires Fits(es, version, level)
    ensures DataOnly(es) && BitCount(es, version) + HEADER_SIZE <= 8 * DataLength(version, level)
  {
  }

  lemma FitsFrom(es: seq<Entry>, version: nat, level: Level)
    requires DataOnly(es) && BitCount(es, version) + HEADER_SIZE <= 8 * DataLength(version, level)
    ensures Fits(es, version, level)
  {
  }

  function TotalSize(es: seq<Entry>): nat {
    if |es| == 0 then 0 else |es[0].data| + TotalSize(es[1..])
  }

  // ----- what fits in a symbol is one segment -----

  lemma FitsIsShort(e: Entry, version: nat, level: Level)
    requires Proper(e) && !e.mode.Structure? && 1 <= version <= VERSION_MAX
    requires EstimatePayload(e.mode, |e.data|) <= 8 * DataLength(version, level) - HEADER_SIZE
    ensures !TooLong(e, version)
  {
    hide DataLength, Check, Header;
    Extremes(level);
    DataGrows(version, if version <= 9 then 9 else if version <= 26 then 26 else 40, level);
    Capacities();
    assert Pow2(9) == 512 && Pow2(12) == 4096 && Pow2(14) == 16384 && Pow2(16) == 65536;
    hide Pow2;
  }

  // ----- positions: how many bytes have been placed -----

  /** Entries of data in modes that may be cut anywhere. */
  predicate Plain(es: seq<Entry>) {
    DataOnly(es) && NoKanji(es)
  }

  /** What is left after the first t bytes. */
  function Beyond(es: seq<Entry>, t: nat): seq<Entry>
    requires t <= TotalSize(es)
    decreases |es|
  {
    if |es| == 0 || t == 0 then es
    else if t < |es[0].data| then [Back(es[0], t)] + es[1..]
    else Beyond(es[1..], t - |es[0].data|)
  }

  /** The pieces are the entries in order, cut up, as far as they go. */
  predicate Covers(es: seq<Entry>, pieces: seq<Entry>)
    decreases |pieces|
  {
    |pieces| == 0
    || (&& |es| > 0 && 0 < |pieces[0].data| <= |es[0].data| && pieces[0] == Front(es[0], |pieces[0].data|)
        && Covers(Beyond(es, |pieces[0].data|), pieces[1..]))
  }

  lemma {:induction false} BeyondSize(es: seq<Entry>, t: nat)
    requires t <= TotalSize(es)
    ensures TotalSize(Beyond(es, t)) == TotalSize(es) - t
    decreases |es|
  {
    if |es| > 0 && t > 0 {
      if t < |es[0].data| {
        assert ([Back(es[0], t)] + es[1..])[1..] == es[1..];
      } else {
        BeyondSize(es[1..], t - |es[0].data|);
      }
    }
  }

  lemma {:induction false} BeyondPlain(es: seq<Entry>, t: nat)
    requires Plain(es) && t <= TotalSize(es)
    ensures Plain(Beyond(es, t))
    decreases |es|
  {
    hide Check, Header;
    if |es| > 0 && t > 0 {
      assert Plain(es[1..]);
      if t < |es[0].data| {
        CutProper(es[0], t);
      } else {
        BeyondPlain(es[1..], t - |es[0].data|);
      }
    }
  }

  lemma {:induction false} BeyondTwice(es: seq<Entry>, a: nat, b: nat)
    requires a + b <= TotalSize(es) && forall i :: 0 <= i < |es| ==> |es[i].data| > 0
    ensures TotalSize(Beyond(es, a)) == TotalSize(es) - a
    ensures Beyond(Beyond(es, a), b) == Beyond(es, a + b)
    decreases |es|
  {
    BeyondSize(es, a);
    if |es| > 0 && a > 0 && b > 0 {
      var n := |es[0].data|;
      if a < n {
        var r := [Back(es[0], a)] + es[1..];
        assert r[1..] == es[1..];
        if a + b < n {
          assert Back(Back(es[0], a), b) == Back(es[0], a + b);
        }
      } else {
        BeyondTwice(es[1..], a - n, b);
      }
    }
  }

  lemma Lengths(es: seq<Entry>)
    requires DataOnly(es)
    ensures forall i :: 0 <= i < |es| ==> |es[i].data| > 0
  {
  }

  lemma {:induction false} CoversSize(es: seq<Entry>, pieces: seq<Entry>)
    requires Covers(es, pieces)
    ensures TotalSize(pieces) <= TotalSize(es)
    decreases |pieces|
  {
    if |pieces| > 0 {
      BeyondSize(es, |pieces[0].data|);
      CoversSize(Beyond(es, |pieces[0].data|), pieces[1..]);
    }
  }

  /** Cutting goes on where it left off. */
  lemma {:induction false} CoversConcat(es: seq<Entry>, a: seq<Entry>, b: seq<Entry>)
    requires forall i :: 0 <= i < |es| ==> |es[i].data| > 0
    ensures TotalSize(a + b) == TotalSize(a) + TotalSize(b)
    ensures Covers(es, a + b) <==>
              Covers(es, a) && TotalSize(a) <= TotalSize(es) && Covers(Beyond(es, TotalSize(a)), b)
    decreases |a|
  {
    if |a| == 0 {
      assert a + b == b;
    } else {
      var n := |a[0].data|;
      assert (a + b)[1..] == a[1..] + b;
      if |es| > 0 && 0 < n <= |es[0].data| {
        BeyondSize(es, n);
        BeyondLengths(es, n);
        CoversConcat(Beyond(es, n), a[1..], b);
        if TotalSize(a) <= TotalSize(es) {
          BeyondTwice(es, n, TotalSize(a[1..]));
        }
      } else {
        CoversConcat(es, a[1..], b);
      }
    }
  }

  lemma {:induction false} BeyondLengths(es: seq<Entry>, t: nat)
    requires t <= TotalSize(es) && forall i :: 0 <= i < |es| ==> |es[i].data| > 0
    ensures forall i :: 0 <= i < |Beyond(es, t)| ==> |Beyond(es, t)[i].data| > 0
    decreases |es|
  {
    if |es| > 0 && t >= |es[0].data| {
      BeyondLengths(es[1..], t - |es[0].data|);
    }
  }

  // ----- what a front part costs, with no more cuts than there are entries -----

  function PieceBits(mode: Mode, version: nat, n: nat): nat {
    4 + LengthIndicator(mode, version) + EstimatePayload(mode, n)
  }

  /** The bits of the first m bytes, as one piece of each entry. */
  function Cost(es: seq<Entry>, version: nat, m: nat): nat
    decreases |es|
  {
    if |es| == 0 || m == 0 then 0
    else if m <= |es[0].data| then PieceBits(es[0].mode, version, m)
    else PieceBits(es[0].mode, version, |es[0].data|) + Cost(es[1..], version, m - |es[0].data|)
  }

  lemma PayloadGrows(mode: Mode, a: nat, b: nat)
    requires a <= b
    ensures EstimatePayload(mode, a) <= EstimatePayload(mode, b)
  {
    match mode
    case Num =>
    case An =>
    case Eight =>
    case Kanji =>
    case Structure =>
  }

  /** Two pieces take no fewer bits of payload than one. */
  lemma PayloadCut(mode: Mode, a: nat, b: nat)
    requires !mode.Kanji?
    ensures EstimatePayload(mode, a + b) <= EstimatePayload(mode, a) + EstimatePayload(mode, b)
  {
    match mode
    case Num =>
    case An =>
    case Eight =>
    case Structure =>
  }

  lemma PieceGrows(mode: Mode, version: nat, a: nat, b: nat)
    requires a <= b
    ensures PieceBits(mode, version, a) <= PieceBits(mode, version, b)
  {
    hide EstimatePayload, LengthIndicator;
    PayloadGrows(mode, a, b);
  }

  lemma {:induction false} CostGrows(es: seq<Entry>, version: nat, m: nat, m': nat)
    requires m <= m'
    ensures Cost(es, version, m) <= Cost(es, version, m')
    decreases |es|
  {
    hide PieceBits;
    if |es| > 0 && m > 0 {
      var n := |es[0].data|;
      if m <= n {
        PieceGrows(es[0].mode, version, m, if m' <= n then m' else n);
      } else {
        CostGrows(es[1..], version, m - n, m' - n);
      }
    }
  }

  /** Beginning later costs no more. */
  lemma {:induction false} CostLater(es: seq<Entry>, version: nat, a: nat, m: nat)
    requires a <= m <= TotalSize(es)
    ensures Cost(Beyond(es, a), version, m - a) <= Cost(es, version, m)
    decreases |es|
  {
    hide PieceBits;
    if |es| > 0 && a > 0 {
      var n := |es[0].data|;
      if a < n {
        var r := [Back(es[0], a)] + es[1..];
        assert r[1..] == es[1..];
        PieceGrows(es[0].mode, version, m - a, m);
        PieceGrows(es[0].mode, version, n - a, n);
      } else {
        CostLater(es[1..], version, a - n, m - n);
      }
    }
  }

  /** Cutting the first entry costs no less. */
  lemma CostCut(es: seq<Entry>, version: nat, n: nat, m: nat)
    requires Plain(es) && |es| > 0 && 0 < n <= |es[0].data| && n <= m <= TotalSize(es)
    ensures Cost(es, version, m) <= PieceBits(es[0].mode, version, n) + Cost(Beyond(es, n), version, m - n)
  {
    hide EstimatePayload, LengthIndicator, Proper;
    var d := |es[0].data|;
    if n < d {
      var r := [Back(es[0], n)] + es[1..];
      assert r[1..] == es[1..];
      if n < m <= d {
        PayloadCut(es[0].mode, n, m - n);
      } else if m > d {
        PayloadCut(es[0].mode, n, d - n);
      }
    } else {
      BeyondFirst(es);
    }
  }

  lemma BeyondFirst(es: seq<Entry>)
    requires |es| > 0 && |es[0].data| > 0
    ensures Beyond(es, |es[0].data|) == es[1..]
  {
  }

  /** An entry takes at least the bits of one piece. */
  lemma {:induction false} EncodedAtLeast(e: Entry, version: nat)
    requires Proper(e) && !e.mode.Structure? && !e.mode.Kanji?
    ensures |Encoded(e, version)| >= PieceBits(e.mode, version, |e.data|)
    decreases |e.data|
  {
    hide Encoded, EstimatePayload, LengthIndicator, Proper, Segment, Pow2;
    if TooLong(e, version) {
      var n := MaximumWords(e.mode, version);
      PiecesOfFront(e, version);
      EncodedAtLeast(Front(e, n), version);
      EncodedAtLeast(Back(e, n), version);
      PayloadCut(e.mode, n, |e.data| - n);
    } else {
      OnePiece(e, version);
      SegmentLength(e, version);
    }
  }

  lemma BitCountStep(es: seq<Entry>, version: nat)
    requires DataOnly(es) && |es| > 0
    ensures BitCount(es, version) == |Encoded(es[0], version)| + BitCount(es[1..], version)
  {
    hide Encoded, Stream, Proper;
    StreamStep(es, version);
  }

  /** Any pieces take at least the bits of the fewest. */
  lemma {:induction false} PiecesCost(es: seq<Entry>, pieces: seq<Entry>, version: nat)
    requires Plain(es) && DataOnly(pieces) && Covers(es, pieces)
    ensures TotalSize(pieces) <= TotalSize(es) && Cost(es, version, TotalSize(pieces)) <= BitCount(pieces, version)
    decreases |pieces|
  {
    hide PieceBits, Encoded, BitCount, Proper;
    CoversSize(es, pieces);
    if |pieces| > 0 {
      var n := |pieces[0].data|;
      BeyondSize(es, n);
      BeyondPlain(es, n);
      PiecesCost(Beyond(es, n), pieces[1..], version);
      BitCountStep(pieces, version);
      EncodedAtLeast(pieces[0], version);
      CostCut(es, version, n, TotalSize(pieces));
    }
  }

  // ----- the fewest symbols -----

  /** The symbols hold a front part of the entries, in order, cut up in any way. */
  predicate Packs(entries: seq<Entry>, symbols: seq<seq<Entry>>, version: nat, level: Level) {
    (forall i :: 0 <= i < |symbols| ==> Fits(symbols[i], version, level)) && Covers(entries, Flatten(symbols))
  }

  /** They hold all of them. */
  predicate PacksAll(entries: seq<Entry>, symbols: seq<seq<Entry>>, version: nat, level: Level) {
    Packs(entries, symbols, version, level) && TotalSize(Flatten(symbols)) == TotalSize(entries)
  }

  /** No k symbols hold more than the first a bytes. */
  ghost predicate AtMost(entries: seq<Entry>, k: nat, a: nat, version: nat, level: Level) {
    forall symbols {:trigger Flatten(symbols)} ::
      |symbols| <= k && Packs(entries, symbols, version, level) ==> TotalSize(Flatten(symbols)) <= a
  }

  /** From byte a on, no symbol holds more than c bytes. */
  ghost predicate Reaches(entries: seq<Entry>, a: nat, c: nat, version: nat, level: Level)
    requires a + c <= TotalSize(entries)
  {
    forall m: nat {:trigger Cost(Beyond(entries, a), version, m)} :: c < m <= TotalSize(entries) - a ==>
      Cost(Beyond(entries, a), version, m) + HEADER_SIZE > 8 * DataLength(version, level)
  }

  lemma AtMostNone(entries: seq<Entry>, version: nat, level: Level)
    ensures AtMost(entries, 0, 0, version, level)
  {
    forall symbols {:trigger Flatten(symbols)} | |symbols| <= 0 && Packs(entries, symbols, version, level)
      ensures TotalSize(Flatten(symbols)) <= 0
    {
      assert symbols == [];
    }
  }

  /** Filling one more symbol as far as it goes stays ahead of every other packing. */
  lemma StaysAhead(entries: seq<Entry>, k: nat, a: nat, c: nat, version: nat, level: Level)
    requires Plain(entries) && a + c <= TotalSize(entries)
    requires AtMost(entries, k, a, version, level) && Reaches(entries, a, c, version, level)
    ensures AtMost(entries, k + 1, a + c, version, level)
  {
    hide Packs, Flatten, Fits, Covers, Cost, Beyond;
    forall symbols {:trigger Flatten(symbols)} | |symbols| <= k + 1 && Packs(entries, symbols, version, level)
      ensures TotalSize(Flatten(symbols)) <= a + c
    {
      if |symbols| == k + 1 {
        OneMoreSymbol(entries, symbols, k, a, c, version, level);
      }
    }
  }

  /** The last symbol holds pieces of what those before it leave. */
  lemma LastSymbol(entries: seq<Entry>, symbols: seq<seq<Entry>>, k: nat, version: nat, level: Level)
    requires Plain(entries) && |symbols| == k + 1 && Packs(entries, symbols, version, level)
    ensures Packs(entries, symbols[..k], version, level) && Fits(symbols[k], version, level)
    ensures
      var b := TotalSize(Flatten(symbols[..k]));
      && TotalSize(Flatten(symbols)) == b + TotalSize(symbols[k])
      && b <= TotalSize(entries) && Covers(Beyond(entries, b), symbols[k])
  {
    hide Fits, Covers, Beyond, TotalSize;
    Lengths(entries);
    CoversConcat(entries, Flatten(symbols[..k]), symbols[k]);
  }

  lemma OneMoreSymbol(entries: seq<Entry>, symbols: seq<seq<Entry>>, k: nat, a: nat, c: nat, version: nat, level: Level)
    requires Plain(entries) && a + c <= TotalSize(entries)
    requires AtMost(entries, k, a, version, level) && Reaches(entries, a, c, version, level)
    requires |symbols| == k + 1 && Packs(entries, symbols, version, level)
    ensures TotalSize(Flatten(symbols)) <= a + c
  {
    hide Fits, Covers, Cost, Beyond, BitCount, Packs, Flatten, TotalSize, DataLength, Proper;
    var last := symbols[k];
    Lengths(entries);
    LastSymbol(entries, symbols, k, version, level);
    var b := TotalSize(Flatten(symbols[..k]));
    assert b <= a;
    var t := b + TotalSize(last);
    FitsMeans(last, version, level);
    BeyondPlain(entries, b);
    BeyondSize(entries, b);
    PiecesCost(Beyond(entries, b), last, version);
    if t > a + c {
      CostLater(Beyond(entries, b), version, a - b, t - b);
      BeyondTwice(entries, b, a - b);
    }
  }

  /** As many symbols as are needed. */
  lemma NotFewer(entries: seq<Entry>, k: nat, a: nat, version: nat, level: Level, symbols: seq<seq<Entry>>)
    requires AtMost(entries, k, a, version, level) && a < TotalSize(entries) && PacksAll(entries, symbols, version, level)
    ensures |symbols| > k
  {
    hide Packs, Flatten;
  }
}
