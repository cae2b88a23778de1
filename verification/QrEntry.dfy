/** Entries of input data and their segments in the bit stream (qrcode/qrinput.c:371-691,
    809-839, 1006-1087), with a reader that takes segments apart again. */
module QrEntry {
  import opened Common
  import opened QrBits

  /** The modes of data, and the structured-append header. */
  datatype Mode = Num | An | Eight | Kanji | Structure

  datatype Entry = Entry(mode: Mode, data: seq<byte>)

  // ----- QRinput_check -----

  predicate IsDigit(c: byte) {
    48 <= c <= 57
  }

  predicate Digits(d: seq<byte>) {
    forall i :: 0 <= i < |d| ==> IsDigit(d[i])
  }

  function Digit(c: byte): nat
    requires IsDigit(c)
  {
    c as int - 48
  }

  /** QRinput_lookAnTable */
  function AnValue(c: byte): int {
    if IsDigit(c) then c - 48
    else if 65 <= c <= 90 then c - 55
    else if c == ' ' as int then 36 else if c == '$' as int then 37 else if c == '%' as int then 38
    else if c == '*' as int then 39 else if c == '+' as int then 40 else if c == '-' as int then 41
    else if c == '.' as int then 42 else if c == '/' as int then 43 else if c == ':' as int then 44
    else -1
  }

  function AnChar(v: nat): byte {
    if v < 10 then v + 48
    else if v < 36 then v + 55
    else if v == 36 then ' ' as int else if v == 37 then '$' as int else if v == 38 then '%' as int
    else if v == 39 then '*' as int else if v == 40 then '+' as int else if v == 41 then '-' as int
    else if v == 42 then '.' as int else if v == 43 then '/' as int else ':' as int
  }

  predicate KanjiPair(a: byte, b: byte) {
    var val := a * 256 + b;
    0x8140 <= val <= 0x9ffc || 0xe040 <= val <= 0xebbf
  }

  predicate AnChars(d: seq<byte>) {
    forall i :: 0 <= i < |d| ==> AnValue(d[i]) >= 0
  }

  predicate KanjiPairs(d: seq<byte>) {
    |d| > 0 ==> |d| >= 2 && KanjiPair(d[0], d[1]) && KanjiPairs(d[2..])
  }

  /** QRinput_check returns 0. */
  predicate Check(e: Entry) {
    && |e.data| > 0
    && match e.mode
       case Num => Digits(e.data)
       case An => AnChars(e.data)
       case Kanji => KanjiPairs(e.data)
       case Eight => true
       case Structure => true
  }

  // ----- length indicators -----

  /** The three ranges of versions. */
  function Range(version: nat): nat {
    if version <= 9 then 0 else if version <= 26 then 1 else 2
  }

  /** QRspec_lengthIndicator: the table lengthTableBits. */
  function LengthIndicator(mode: Mode, version: nat): nat {
    match (mode, Range(version))
    case (Num, 0) => 10 case (Num, 1) => 12 case (Num, _) => 14
    case (An, 0) => 9 case (An, 1) => 11 case (An, _) => 13
    case (Eight, 0) => 8 case (Eight, 1) => 16 case (Eight, _) => 16
    case (Kanji, 0) => 8 case (Kanji, 1) => 10 case (Kanji, _) => 12
    case (Structure, _) => 0
  }

  /** QRspec_maximumWords; 0 for a mode that cannot be split. */
  function MaximumWords(mode: Mode, version: nat): nat {
    if mode.Structure? then 0
    else
      var words := Pow2(LengthIndicator(mode, version)) - 1;
      if mode.Kanji? then 2 * words else words
  }

  // ----- payloads -----

  function NumPayload(d: seq<byte>): seq<bool>
    requires Digits(d)
  {
    if |d| >= 3 then NumBits(10, Digit(d[0]) * 100 + Digit(d[1]) * 10 + Digit(d[2])) + NumPayload(d[3..])
    else if |d| == 2 then NumBits(7, Digit(d[0]) * 10 + Digit(d[1]))
    else if |d| == 1 then NumBits(4, Digit(d[0]))
    else []
  }

  function AnPayload(d: seq<byte>): seq<bool>
    requires AnChars(d)
  {
    if |d| >= 2 then NumBits(11, AnValue(d[0]) * 45 + AnValue(d[1])) + AnPayload(d[2..])
    else if |d| == 1 then NumBits(6, AnValue(d[0]))
    else []
  }

  /** The 13-bit number of a Kanji pair. */
  function KanjiValue(a: byte, b: byte): nat
    requires KanjiPair(a, b)
  {
    var val := a * 256 + b;
    var v := if val <= 0x9ffc then val - 0x8140 else val - 0xc140;
    v % 256 + v / 256 * 0xc0
  }

  function KanjiPayload(d: seq<byte>): seq<bool>
    requires KanjiPairs(d)
  {
    if |d| == 0 then [] else NumBits(13, KanjiValue(d[0], d[1])) + KanjiPayload(d[2..])
  }

  function ModeId(mode: Mode): nat {
    match mode
    case Num => 1 case An => 2 case Eight => 4 case Kanji => 8 case Structure => 3
  }

  function CountOf(e: Entry): nat {
    if e.mode.Kanji? then |e.data| / 2 else |e.data|
  }

  function Payload(e: Entry): seq<bool>
    requires Check(e) && !e.mode.Structure?
  {
    match e.mode
    case Num => NumPayload(e.data)
    case An => AnPayload(e.data)
    case Eight => BytesBits(e.data)
    case Kanji => KanjiPayload(e.data)
  }

  /** A header as QRinput_insertStructuredAppendHeader makes it. */
  predicate Header(e: Entry) {
    e.mode.Structure? && |e.data| == 3 && 1 <= e.data[1] <= e.data[0] <= 16
  }

  predicate Proper(e: Entry) {
    Check(e) && (e.mode.Structure? ==> Header(e))
  }

  /** One segment of the stream. */
  function Segment(e: Entry, version: nat): seq<bool>
    requires Proper(e)
  {
    if e.mode.Structure? then
      NumBits(4, ModeId(e.mode)) + NumBits(4, e.data[1] - 1) + NumBits(4, e.data[0] - 1) + NumBits(8, e.data[2])
    else
      NumBits(4, ModeId(e.mode)) + NumBits(LengthIndicator(e.mode, version), CountOf(e)) + Payload(e)
  }

  // ----- cutting at QRspec_maximumWords -----

  predicate TooLong(e: Entry, version: nat) {
    MaximumWords(e.mode, version) != 0 && |e.data| > MaximumWords(e.mode, version)
  }

  function Front(e: Entry, n: nat): Entry
    requires n <= |e.data|
  {
    e.(data := e.data[..n])
  }

  function Back(e: Entry, n: nat): Entry
    requires n <= |e.data|
  {
    e.(data := e.data[n..])
  }

  lemma {:induction false} KanjiEven(d: seq<byte>)
    requires KanjiPairs(d)
    ensures |d| % 2 == 0
    decreases |d|
  {
    if |d| > 0 {
      KanjiEven(d[2..]);
    }
  }

  lemma {:induction false} KanjiCut(d: seq<byte>, n: nat)
    requires KanjiPairs(d) && n <= |d| && n % 2 == 0
    ensures KanjiPairs(d[..n]) && KanjiPairs(d[n..])
    decreases n
  {
    if n > 0 {
      KanjiCut(d[2..], n - 2);
      assert d[2..][..n - 2] == d[..n][2..] && d[2..][n - 2..] == d[n..];
    } else {
      assert d[0..] == d;
    }
  }

  lemma CutProper(e: Entry, n: nat)
    requires Proper(e) && !e.mode.Structure? && 0 < n < |e.data| && (e.mode.Kanji? ==> n % 2 == 0)
    ensures Proper(Front(e, n)) && Proper(Back(e, n))
  {
    if e.mode.Kanji? {
      KanjiCut(e.data, n);
    }
  }

  /** The entries that one entry is written as. */
  function Pieces(e: Entry, version: nat): (r: seq<Entry>)
    requires Proper(e)
    ensures forall i :: 0 <= i < |r| ==> Proper(r[i]) && !TooLong(r[i], version) && r[i].mode == e.mode
    decreases |e.data|
  {
    if TooLong(e, version) then
      var words := MaximumWords(e.mode, version);
      CutProper(e, words);
      [Front(e, words)] + Pieces(Back(e, words), version)
    else [e]
  }

  function AllPieces(es: seq<Entry>, version: nat): (r: seq<Entry>)
    requires forall i :: 0 <= i < |es| ==> Proper(es[i])
    ensures forall i :: 0 <= i < |r| ==> Proper(r[i]) && !TooLong(r[i], version)
  {
    if |es| == 0 then [] else Pieces(es[0], version) + AllPieces(es[1..], version)
  }

  function Segments(es: seq<Entry>, version: nat): seq<bool>
    requires forall i :: 0 <= i < |es| ==> Proper(es[i])
  {
    if |es| == 0 then [] else Segment(es[0], version) + Segments(es[1..], version)
  }

  /** What QRinput_encodeBitStream appends for an entry. */
  function Encoded(e: Entry, version: nat): seq<bool>
    requires Proper(e)
  {
    Segments(Pieces(e, version), version)
  }
}
