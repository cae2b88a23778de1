/** A reader of QR bit streams, and the proof that it recovers what the encoder was given
    (sections 6.4.3 to 6.4.6 of ISO/IEC 18004). */
module QrReader {
  import opened Common
  import opened QrBits
  import opened QrEntry

  /** A number of n bits, and the bits after it. */
  function Take(bits: seq<bool>, n: nat): Option<(nat, seq<bool>)> {
    if |bits| < n then None else Some((Value(bits[..n]), bits[n..]))
  }

  lemma TakeNum(n: nat, num: nat, rest: seq<bool>)
    requires num < Pow2(n)
    ensures Take(NumBits(n, num) + rest, n) == Some((num, rest))
  {
    ValueOfBits(n, num);
    assert (NumBits(n, num) + rest)[..n] == NumBits(n, num);
  }

  // ----- payloads -----

  type Read = Option<(seq<byte>, seq<bool>)>

  function Prefix(d: seq<byte>, r: Read): Read {
    match r
    case None => None
    case Some((s, rest)) => Some((d + s, rest))
  }

  function ReadNum(bits: seq<bool>, count: nat): Read
    decreases count
  {
    var n := if count >= 3 then 10 else if count == 2 then 7 else if count == 1 then 4 else 0;
    match Take(bits, n)
    case None => None
    case Some((v, rest)) =>
      if count >= 3 then
        if v >= 1000 then None
        else Prefix([48 + v / 100, 48 + v / 10 % 10, 48 + v % 10], ReadNum(rest, count - 3))
      else if count == 2 then if v >= 100 then None else Some(([48 + v / 10, 48 + v % 10], rest))
      else if count == 1 then if v >= 10 then None else Some(([48 + v], rest))
      else Some(([], rest))
  }

  function ReadAn(bits: seq<bool>, count: nat): Read
    decreases count
  {
    var n := if count >= 2 then 11 else if count == 1 then 6 else 0;
    match Take(bits, n)
    case None => None
    case Some((v, rest)) =>
      if count >= 2 then
        if v >= 2025 then None else Prefix([AnChar(v / 45), AnChar(v % 45)], ReadAn(rest, count - 2))
      else if count == 1 then if v >= 45 then None else Some(([AnChar(v)], rest))
      else Some(([], rest))
  }

  function ReadBytes(bits: seq<bool>, count: nat): Read
    decreases count
  {
    if count == 0 then Some(([], bits))
    else
      match Take(bits, 8)
      case None => None
      case Some((v, rest)) => if v >= 256 then None else Prefix([v], ReadBytes(rest, count - 1))
  }

  /** The pair of bytes a 13-bit number stands for. */
  function KanjiBytes(v: nat): seq<byte>
    requires v < 8192
  {
    var val := (if v / 0xc0 < 0x1f then 0x8140 else 0xc140) + v / 0xc0 * 256 + v % 0xc0;
    [val / 256, val % 256]
  }

  function ReadKanji(bits: seq<bool>, count: nat): Read
    decreases count
  {
    if count == 0 then Some(([], bits))
    else
      match Take(bits, 13)
      case None => None
      case Some((v, rest)) => if v >= 8192 then None else Prefix(KanjiBytes(v), ReadKanji(rest, count - 1))
  }

  /** The characters of the alphanumeric mode in the order of their values (table 5 of
      ISO/IEC 18004). */
  const AN_CHARS := "0123456789" + "ABCDEFGHIJKLMNOPQRSTUVWXYZ" + " $%*+-./:"

  /** The encoder knows exactly these, and the reader gives them back. */
  lemma AnExact(c: byte, v: nat)
    ensures |AN_CHARS| == 45
    ensures AnValue(c) == v <==> v < 45 && AN_CHARS[v] as int == c
    ensures v < 45 ==> AnChar(v) == AN_CHARS[v] as int
  {
    assert |AN_CHARS| == 45;
    if v < 15 {
      LowChars(v);
    } else if v < 30 {
      MiddleChars(v);
    } else if v < 45 {
      HighChars(v);
    }
  }

  lemma LowChars(v: nat)
    requires 0 <= v < 15
    ensures |AN_CHARS| == 45 && AN_CHARS[v] as int == AnChar(v) && AnValue(AN_CHARS[v] as int) == v
  {
    match v
    case 0 => case 1 => case 2 => case 3 => case 4 => case 5 => case 6 => case 7 =>
    case 8 => case 9 => case 10 => case 11 => case 12 => case 13 => case 14 =>
  }

  lemma MiddleChars(v: nat)
    requires 15 <= v < 30
    ensures |AN_CHARS| == 45 && AN_CHARS[v] as int == AnChar(v) && AnValue(AN_CHARS[v] as int) == v
  {
    match v
    case 15 => case 16 => case 17 => case 18 => case 19 => case 20 => case 21 => case 22 =>
    case 23 => case 24 => case 25 => case 26 => case 27 => case 28 => case 29 =>
  }

  lemma HighChars(v: nat)
    requires 30 <= v < 45
    ensures |AN_CHARS| == 45 && AN_CHARS[v] as int == AnChar(v) && AnValue(AN_CHARS[v] as int) == v
  {
    match v
    case 30 => case 31 => case 32 => case 33 => case 34 => case 35 => case 36 => case 37 =>
    case 38 => case 39 => case 40 => case 41 => case 42 => case 43 => case 44 =>
  }

  // ----- segments -----

  function Tag(mode: Mode, r: Read): Option<(Entry, seq<bool>)> {
    match r
    case None => None
    case Some((d, rest)) => Some((Entry(mode, d), rest))
  }

  function ModeOf(id: nat): Option<Mode> {
    if id == 1 then Some(Num) else if id == 2 then Some(An) else if id == 4 then Some(Eight)
    else if id == 8 then Some(Kanji) else if id == 3 then Some(Structure) else None
  }

  function ReadHeader(bits: seq<bool>): Option<(Entry, seq<bool>)> {
    match Take(bits, 4)
    case None => None
    case Some((number, b1)) =>
      match Take(b1, 4)
      case None => None
      case Some((size, b2)) =>
        match Take(b2, 8)
        case None => None
        case Some((parity, b3)) =>
          if number >= 16 || size >= 16 || parity >= 256 then None
          else Some((Entry(Structure, [size + 1, number + 1, parity]), b3))
  }

  function ReadPayload(mode: Mode, bits: seq<bool>, count: nat): Option<(Entry, seq<bool>)> {
    match mode
    case Num => Tag(mode, ReadNum(bits, count))
    case An => Tag(mode, ReadAn(bits, count))
    case Eight => Tag(mode, ReadBytes(bits, count))
    case Kanji => Tag(mode, ReadKanji(bits, count))
    case Structure => ReadHeader(bits)
  }

  /** Bits of the character count indicator (table 3 of ISO/IEC 18004): 10, 9, 8 and 8 up to
      version 9; from version 10 on two more, eight more for bytes; from version 27 on two more
      again, but for bytes. */
  function CountWidth(mode: Mode, version: nat): nat {
    var larger := (if version >= 10 then 1 else 0) + if version >= 27 then 1 else 0;
    match mode
    case Num => 10 + 2 * larger
    case An => 9 + 2 * larger
    case Eight => if version >= 10 then 16 else 8
    case Kanji => 8 + 2 * larger
    case Structure => 0
  }

  /** The encoder's table has the standard's twelve widths. */
  lemma WidthsExact(version: nat)
    requires 1 <= version <= 40
    ensures
      var w := (m: Mode) => LengthIndicator(m, version);
      (w(Num), w(An), w(Eight), w(Kanji)) ==
      if version <= 9 then (10, 9, 8, 8) else if version <= 26 then (12, 11, 16, 10) else (14, 13, 16, 12)
  {
  }

  lemma WidthsAgree(mode: Mode, version: nat)
    ensures CountWidth(mode, version) == LengthIndicator(mode, version)
  {
  }

  /** The segment after the mode indicator. */
  function ReadSegment(mode: Mode, bits: seq<bool>, version: nat): Option<(Entry, seq<bool>)> {
    match Take(bits, CountWidth(mode, version))
    case None => None
    case Some((count, rest)) => ReadPayload(mode, rest, count)
  }

  /** All segments up to the terminator: four zeros, or less than four bits. */
  function ReadAll(bits: seq<bool>, version: nat): Option<seq<Entry>>
    decreases |bits|
  {
    if |bits| < 4 || Value(bits[..4]) == 0 then Some([])
    else
      match ModeOf(Value(bits[..4]))
      case None => None
      case Some(mode) =>
        match ReadSegment(mode, bits[4..], version)
        case None => None
        case Some((e, rest)) =>
          if |rest| >= |bits| then None
          else
            match ReadAll(rest, version)
            case None => None
            case Some(es) => Some([e] + es)
  }

  // ----- what is read is what was written -----

  lemma {:induction false} NumRead(d: seq<byte>, rest: seq<bool>)
    requires Digits(d)
    ensures ReadNum(NumPayload(d) + rest, |d|) == Some((d, rest))
    decreases |d|
  {
    hide NumBits, Take;
    Capacities();
    if |d| >= 3 {
      NumRead(d[3..], rest);
      var v := Digit(d[0]) * 100 + Digit(d[1]) * 10 + Digit(d[2]);
      TakeNum(10, v, NumPayload(d[3..]) + rest);
      assert NumPayload(d) + rest == NumBits(10, v) + (NumPayload(d[3..]) + rest);
      ThreeDigits(Digit(d[0]), Digit(d[1]), Digit(d[2]));
      assert d == [d[0], d[1], d[2]] + d[3..];
    } else if |d| == 2 {
      TakeNum(7, Digit(d[0]) * 10 + Digit(d[1]), rest);
      assert d == [d[0], d[1]];
    } else if |d| == 1 {
      TakeNum(4, Digit(d[0]), rest);
      assert d == [d[0]];
    } else {
      assert NumPayload(d) + rest == rest;
      TakeNothing(rest);
    }
  }

  lemma ThreeDigits(a: nat, b: nat, c: nat)
    requires a < 10 && b < 10 && c < 10
    ensures var v := a * 100 + b * 10 + c; v / 100 == a && v / 10 % 10 == b && v % 10 == c
  {
    var v := a * 100 + b * 10 + c;
    assert v / 10 == a * 10 + b;
  }

  lemma TakeNothing(rest: seq<bool>)
    ensures Take(rest, 0) == Some((0, rest))
  {
  }

  lemma Capacities()
    ensures Pow2(4) == 16 && Pow2(6) == 64 && Pow2(7) == 128 && Pow2(8) == 256
    ensures Pow2(10) == 1024 && Pow2(11) == 2048 && Pow2(13) == 8192
  {
    assert Pow2(3) == 8;
  }

  lemma AnInverse(c: byte)
    requires AnValue(c) >= 0
    ensures AnValue(c) < 45 && AnChar(AnValue(c)) == c
  {
  }

  lemma {:induction false} AnRead(d: seq<byte>, rest: seq<bool>)
    requires AnChars(d)
    ensures ReadAn(AnPayload(d) + rest, |d|) == Some((d, rest))
    decreases |d|
  {
    hide NumBits, Take, AnValue, AnChar;
    Capacities();
    if |d| >= 2 {
      AnRead(d[2..], rest);
      AnInverse(d[0]);
      AnInverse(d[1]);
      var v := AnValue(d[0]) * 45 + AnValue(d[1]);
      TakeNum(11, v, AnPayload(d[2..]) + rest);
      assert AnPayload(d) + rest == NumBits(11, v) + (AnPayload(d[2..]) + rest);
      assert d == [d[0], d[1]] + d[2..];
    } else if |d| == 1 {
      AnInverse(d[0]);
      TakeNum(6, AnValue(d[0]), rest);
      assert d == [d[0]];
    } else {
      assert AnPayload(d) + rest == rest;
      TakeNothing(rest);
    }
  }

  lemma {:induction false} BytesRead(d: seq<byte>, rest: seq<bool>)
    ensures ReadBytes(BytesBits(d) + rest, |d|) == Some((d, rest))
    decreases |d|
  {
    hide NumBits, Take;
    Capacities();
    if |d| > 0 {
      BytesRead(d[1..], rest);
      TakeNum(8, d[0], BytesBits(d[1..]) + rest);
      assert d == [d[0]] + d[1..];
      FirstByte(d[0], d[1..]);
      assert BytesBits(d) + rest == NumBits(8, d[0]) + (BytesBits(d[1..]) + rest);
    } else {
      assert BytesBits(d) + rest == rest;
    }
  }

  /** A Kanji pair is recovered exactly if its trail byte is at least 0x40, which
      QRinput_check does not ask for. */
  lemma KanjiExact(a: byte, b: byte)
    requires KanjiPair(a, b)
    ensures KanjiValue(a, b) < 8192
    ensures KanjiBytes(KanjiValue(a, b)) == [a, b] <==> b >= 0x40
  {
    var base := if a <= 0x9f then 0x81 else 0xc1;
    var r := if b >= 0x40 then b - 0x40 else b;
    KanjiNumber(a, b, base);
    KanjiParts(a - base, r);
  }

  lemma KanjiNumber(a: byte, b: byte, base: nat)
    requires KanjiPair(a, b) && base == if a <= 0x9f then 0x81 else 0xc1
    ensures KanjiValue(a, b) == (a - base) * 0xc0 + if b >= 0x40 then b - 0x40 else b
  {
    var v := a * 256 + b - base * 256 - 0x40;
    var q, r := if b >= 0x40 then a - base else a - base - 1, if b >= 0x40 then b - 0x40 else b + 0xc0;
    assert v == q * 256 + r && 0 <= r < 256;
    assert v / 256 == q && v % 256 == r;
  }

  lemma KanjiParts(q: nat, r: nat)
    requires q <= 42 && r < 0xc0 && q * 0xc0 + r < 8192
    ensures KanjiBytes(q * 0xc0 + r) == [(if q < 0x1f then 0x81 else 0xc1) + q, 0x40 + r]
  {
    var v := q * 0xc0 + r;
    assert v / 0xc0 == q && v % 0xc0 == r;
    var base := if q < 0x1f then 0x81 else 0xc1;
    assert (if q < 0x1f then 0x8140 else 0xc140) + q * 256 + r == (base + q) * 256 + (0x40 + r);
  }

  predicate Trails(d: seq<byte>) {
    |d| >= 2 ==> d[1] >= 0x40 && Trails(d[2..])
  }

  /** What the reader makes of Kanji data. */
  function Reread(d: seq<byte>): (r: seq<byte>)
    requires KanjiPairs(d)
    ensures |r| == |d|
  {
    if |d| == 0 then []
    else
      KanjiExact(d[0], d[1]);
      KanjiBytes(KanjiValue(d[0], d[1])) + Reread(d[2..])
  }

  /** The pair 0x82 0x00 is taken, and read back as 0x82 0x40. */
  lemma KanjiExample()
    ensures KanjiPair(0x82, 0) && KanjiBytes(KanjiValue(0x82, 0)) == [0x82, 0x40]
  {
  }

  lemma {:induction false} RereadExact(d: seq<byte>)
    requires KanjiPairs(d)
    ensures Reread(d) == d <==> Trails(d)
    decreases |d|
  {
    hide KanjiBytes, KanjiValue;
    if |d| > 0 {
      KanjiExact(d[0], d[1]);
      RereadExact(d[2..]);
      var first := KanjiBytes(KanjiValue(d[0], d[1]));
      assert |first| == 2 by { PairLength(KanjiValue(d[0], d[1])); }
      assert d == [d[0], d[1]] + d[2..];
      assert Reread(d)[..2] == first && Reread(d)[2..] == Reread(d[2..]);
    }
  }

  lemma PairLength(v: nat)
    requires v < 8192
    ensures |KanjiBytes(v)| == 2
  {
  }

  lemma {:induction false} KanjiRead(d: seq<byte>, rest: seq<bool>)
    requires KanjiPairs(d)
    ensures ReadKanji(KanjiPayload(d) + rest, |d| / 2) == Some((Reread(d), rest))
    decreases |d|
  {
    hide NumBits, Take, KanjiBytes, KanjiValue;
    Capacities();
    if |d| > 0 {
      KanjiRead(d[2..], rest);
      KanjiExact(d[0], d[1]);
      TakeNum(13, KanjiValue(d[0], d[1]), KanjiPayload(d[2..]) + rest);
      assert KanjiPayload(d) + rest == NumBits(13, KanjiValue(d[0], d[1])) + (KanjiPayload(d[2..]) + rest);
    } else {
      assert KanjiPayload(d) + rest == rest;
    }
  }

  // ----- segments -----

  /** Kanji data must have trail bytes from 0x40 on to be readable. */
  predicate Readable(e: Entry) {
    e.mode.Kanji? ==> Trails(e.data)
  }

  lemma CountFits(e: Entry, version: nat)
    requires Proper(e) && !e.mode.Structure? && !TooLong(e, version)
    ensures CountOf(e) < Pow2(LengthIndicator(e.mode, version))
  {
    hide Pow2, Check;
    SomeBits(LengthIndicator(e.mode, version));
  }

  lemma SomeBits(n: nat)
    requires n > 0
    ensures Pow2(n) > 1
  {
  }

  lemma PayloadRead(e: Entry, rest: seq<bool>)
    requires Proper(e) && !e.mode.Structure? && Readable(e)
    ensures ReadPayload(e.mode, Payload(e) + rest, CountOf(e)) == Some((e, rest))
  {
    hide ReadNum, ReadAn, ReadBytes, ReadKanji, NumPayload, AnPayload, KanjiPayload, BytesBits;
    match e.mode
    case Num => NumRead(e.data, rest);
    case An => AnRead(e.data, rest);
    case Eight => BytesRead(e.data, rest);
    case Kanji =>
      KanjiRead(e.data, rest);
      RereadExact(e.data);
  }

  lemma HeaderRead(e: Entry, rest: seq<bool>)
    requires Header(e)
    ensures ReadHeader(NumBits(4, e.data[1] - 1) + NumBits(4, e.data[0] - 1) + NumBits(8, e.data[2]) + rest) == Some((e, rest))
  {
    hide NumBits, Take;
    Capacities();
    var a, b, c := NumBits(4, e.data[1] - 1), NumBits(4, e.data[0] - 1), NumBits(8, e.data[2]);
    assert a + b + c + rest == a + (b + (c + rest));
    TakeNum(4, e.data[1] - 1, b + (c + rest));
    TakeNum(4, e.data[0] - 1, c + rest);
    TakeNum(8, e.data[2], rest);
    assert e.data == [e.data[0], e.data[1], e.data[2]];
  }

  lemma SegmentRead(e: Entry, version: nat, rest: seq<bool>)
    requires Proper(e) && !TooLong(e, version) && Readable(e)
    ensures
      var bits := Segment(e, version) + rest;
      && |bits| >= 4 && Value(bits[..4]) == ModeId(e.mode) && |rest| < |bits|
      && ReadSegment(e.mode, bits[4..], version) == Some((e, rest))
  {
    hide NumBits, Payload, ReadPayload, Value, ReadHeader;
    Capacities();
    var bits := Segment(e, version) + rest;
    var l := LengthIndicator(e.mode, version);
    WidthsAgree(e.mode, version);
    ValueOfBits(4, ModeId(e.mode));
    assert bits[..4] == NumBits(4, ModeId(e.mode));
    if e.mode.Structure? {
      HeaderRead(e, rest);
      assert bits[4..] == NumBits(4, e.data[1] - 1) + NumBits(4, e.data[0] - 1) + NumBits(8, e.data[2]) + rest;
      TakeNothing(bits[4..]);
      StructurePayload(bits[4..]);
    } else {
      CountFits(e, version);
      assert bits[4..] == NumBits(l, CountOf(e)) + (Payload(e) + rest);
      TakeNum(l, CountOf(e), Payload(e) + rest);
      PayloadRead(e, rest);
    }
  }

  lemma StructurePayload(bits: seq<bool>)
    ensures ReadPayload(Structure, bits, 0) == ReadHeader(bits)
  {
  }

  /** A terminator, or what is left of one. */
  predicate Terminated(tail: seq<bool>) {
    |tail| < 4 || Value(tail[..4]) == 0
  }

  lemma {:induction false} AllRead(es: seq<Entry>, version: nat, tail: seq<bool>)
    requires forall i :: 0 <= i < |es| ==> Proper(es[i]) && !TooLong(es[i], version) && Readable(es[i])
    requires Terminated(tail)
    ensures ReadAll(Segments(es, version) + tail, version) == Some(es)
    decreases |es|
  {
    hide Segment, Value, ReadSegment, Proper, TooLong, Readable;
    if |es| == 0 {
      assert Segments(es, version) + tail == tail;
    } else {
      var rest := Segments(es[1..], version) + tail;
      AllRead(es[1..], version, tail);
      SegmentRead(es[0], version, rest);
      assert Segments(es, version) + tail == Segment(es[0], version) + rest;
      assert es == [es[0]] + es[1..];
    }
  }

  // ----- nothing is lost in cutting entries -----

  /** Every byte of the entries in order, with the mode it is in. */
  function Content(es: seq<Entry>): seq<(Mode, byte)> {
    if |es| == 0 then [] else Tagged(es[0]) + Content(es[1..])
  }

  function Tagged(e: Entry): seq<(Mode, byte)> {
    seq(|e.data|, i requires 0 <= i < |e.data| => (e.mode, e.data[i]))
  }

  lemma {:induction false} ContentConcat(a: seq<Entry>, b: seq<Entry>)
    ensures Content(a + b) == Content(a) + Content(b)
    decreases |a|
  {
    if |a| == 0 {
      assert a + b == b;
    } else {
      ContentConcat(a[1..], b);
      assert (a + b)[1..] == a[1..] + b;
    }
  }

  lemma {:induction false} PiecesContent(e: Entry, version: nat)
    requires Proper(e)
    ensures Content(Pieces(e, version)) == Tagged(e)
    decreases |e.data|
  {
    hide MaximumWords, Proper;
    if TooLong(e, version) {
      var words := MaximumWords(e.mode, version);
      WordsCut(e, version);
      PiecesContent(Back(e, words), version);
      var p := Pieces(Back(e, words), version);
      assert ([Front(e, words)] + p)[1..] == p;
      assert Tagged(e) == Tagged(Front(e, words)) + Tagged(Back(e, words));
    } else {
      assert [e][1..] == [] && Content([]) == [];
    }
  }

  lemma {:induction false} AllPiecesContent(es: seq<Entry>, version: nat)
    requires forall i :: 0 <= i < |es| ==> Proper(es[i])
    ensures Content(AllPieces(es, version)) == Content(es)
    decreases |es|
  {
    hide Proper, Tagged;
    if |es| > 0 {
      AllPiecesContent(es[1..], version);
      PiecesContent(es[0], version);
      ContentConcat(Pieces(es[0], version), AllPieces(es[1..], version));
    }
  }

  lemma {:induction false} PiecesReadable(e: Entry, version: nat)
    requires Proper(e) && Readable(e)
    ensures forall i :: 0 <= i < |Pieces(e, version)| ==> Readable(Pieces(e, version)[i])
    decreases |e.data|
  {
    hide Proper, Trails, Check, KanjiPairs, Header;
    if TooLong(e, version) {
      var words := MaximumWords(e.mode, version);
      WordsCut(e, version);
      if e.mode.Kanji? {
        TrailsCut(e.data, words);
      }
      PiecesReadable(Back(e, words), version);
    }
  }

  lemma WordsCut(e: Entry, version: nat)
    requires Proper(e) && TooLong(e, version)
    ensures !e.mode.Structure? && 0 < MaximumWords(e.mode, version) < |e.data|
    ensures e.mode.Kanji? ==> MaximumWords(e.mode, version) % 2 == 0
    ensures Proper(Back(e, MaximumWords(e.mode, version)))
  {
    CutProper(e, MaximumWords(e.mode, version));
  }

  lemma TrailsStep(d: seq<byte>)
    requires |d| >= 2
    ensures Trails(d) <==> d[1] >= 0x40 && Trails(d[2..])
  {
  }

  lemma {:induction false} TrailsCut(d: seq<byte>, n: nat)
    requires Trails(d) && n <= |d| && n % 2 == 0
    ensures Trails(d[..n]) && Trails(d[n..])
    decreases n
  {
    if n > 0 {
      var front := d[..n];
      TrailsStep(d);
      TrailsStep(front);
      hide Trails;
      TrailsCut(d[2..], n - 2);
      assert front[2..] == d[2..][..n - 2] && front[1] == d[1];
      assert d[2..][n - 2..] == d[n..];
    } else {
      assert d[0..] == d && d[..0] == [];
    }
  }

  lemma {:induction false} AllPiecesReadable(es: seq<Entry>, version: nat)
    requires forall i :: 0 <= i < |es| ==> Proper(es[i]) && Readable(es[i])
    ensures forall i :: 0 <= i < |AllPieces(es, version)| ==> Readable(AllPieces(es, version)[i])
    decreases |es|
  {
    hide Proper, Readable;
    if |es| > 0 {
      PiecesReadable(es[0], version);
      AllPiecesReadable(es[1..], version);
    }
  }

  /** The bits of all entries, whatever their lengths, give back all their data. */
  lemma Decodes(es: seq<Entry>, version: nat, tail: seq<bool>)
    requires forall i :: 0 <= i < |es| ==> Proper(es[i]) && Readable(es[i])
    requires Terminated(tail)
    ensures
      var r := ReadAll(Segments(AllPieces(es, version), version) + tail, version);
      r.Some? && r.value == AllPieces(es, version) && Content(r.value) == Content(es)
  {
    hide Proper, Readable, Terminated;
    AllPiecesReadable(es, version);
    AllRead(AllPieces(es, version), version, tail);
    AllPiecesContent(es, version);
  }
}
