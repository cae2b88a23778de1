/** From entries to the padded byte stream (qrcode/qrinput.c:371-691, 850-945, 1006-1173,
    1296-1316): encoding, version search and padding. */
module QrInput {
  import opened Common
  import opened Products
  import opened QrBits
  import opened QrEntry
  import opened QrPadding
  import opened QrReader
  import opened QrCapacity

  // ----- encoding one entry -----

  /** The loop over groups of three digits, and the rest. */
  method AppendDigits(d: seq<byte>, bs: BitStream)
    requires bs.Valid() && Digits(d)
    modifies bs, bs.data
    ensures bs.Valid() && (bs.data == old(bs.data) || fresh(bs.data))
    ensures bs.Contents() == old(bs.Contents()) + NumPayload(d)
  {
    hide NumBits;
    var words := |d| / 3;
    assert d[3 * 0..] == d;
    for i := 0 to words
      invariant bs.Valid() && (bs.data == old(bs.data) || fresh(bs.data))
      invariant bs.Contents() + NumPayload(d[3 * i..]) == old(bs.Contents()) + NumPayload(d)
    {
      var val := Digit(d[i * 3]) * 100;
      val := val + Digit(d[i * 3 + 1]) * 10;
      val := val + Digit(d[i * 3 + 2]);
      assert d[3 * i..][3..] == d[3 * (i + 1)..];
      bs.AppendNum(10, val);
    }
    if |d| - words * 3 == 1 {
      bs.AppendNum(4, Digit(d[words * 3]));
    } else if |d| - words * 3 == 2 {
      var val := Digit(d[words * 3]) * 10;
      val := val + Digit(d[words * 3 + 1]);
      bs.AppendNum(7, val);
    }
  }

  method AppendAnChars(d: seq<byte>, bs: BitStream)
    requires bs.Valid() && AnChars(d)
    modifies bs, bs.data
    ensures bs.Valid() && (bs.data == old(bs.data) || fresh(bs.data))
    ensures bs.Contents() == old(bs.Contents()) + AnPayload(d)
  {
    hide NumBits, AnValue;
    var words := |d| / 2;
    assert d[2 * 0..] == d;
    for i := 0 to words
      invariant bs.Valid() && (bs.data == old(bs.data) || fresh(bs.data))
      invariant bs.Contents() + AnPayload(d[2 * i..]) == old(bs.Contents()) + AnPayload(d)
    {
      AnInverse(d[i * 2]);
      AnInverse(d[i * 2 + 1]);
      var val := AnValue(d[i * 2]) * 45;
      val := val + AnValue(d[i * 2 + 1]);
      assert d[2 * i..][2..] == d[2 * (i + 1)..];
      bs.AppendNum(11, val);
    }
    if |d| % 2 == 1 {
      AnInverse(d[words * 2]);
      bs.AppendNum(6, AnValue(d[words * 2]));
    }
  }

  method AppendKanji(d: seq<byte>, bs: BitStream)
    requires bs.Valid() && KanjiPairs(d)
    modifies bs, bs.data
    ensures bs.Valid() && (bs.data == old(bs.data) || fresh(bs.data))
    ensures bs.Contents() == old(bs.Contents()) + KanjiPayload(d)
  {
    hide NumBits;
    KanjiEven(d);
    var i := 0;
    assert d[0..] == d;
    while i < |d|
      invariant 0 <= i <= |d| && i % 2 == 0 && KanjiPairs(d[i..])
      invariant bs.Valid() && (bs.data == old(bs.data) || fresh(bs.data))
      invariant bs.Contents() + KanjiPayload(d[i..]) == old(bs.Contents()) + KanjiPayload(d)
    {
      assert d[i..][0] == d[i] && d[i..][1] == d[i + 1] && d[i..][2..] == d[i + 2..];
      var val := d[i] as int * 256 + d[i + 1];
      if val <= 0x9ffc {
        val := val - 0x8140;
      } else {
        val := val - 0xc140;
      }
      var h := val / 256 * 0xc0;
      val := val % 256 + h;
      bs.AppendNum(13, val);
      i := i + 2;
    }
    assert d[i..] == [];
  }

  /** The mode indicator and the length. */
  method Head(e: Entry, bs: BitStream, version: nat)
    requires bs.Valid() && Proper(e) && !e.mode.Structure? && !TooLong(e, version)
    modifies bs, bs.data
    ensures bs.Valid() && (bs.data == old(bs.data) || fresh(bs.data))
    ensures bs.Contents() ==
              old(bs.Contents()) + NumBits(4, ModeId(e.mode)) + NumBits(LengthIndicator(e.mode, version), CountOf(e))
  {
    hide NumBits, Proper, TooLong;
    CountSmall(e, version);
    bs.AppendNum(4, ModeId(e.mode));
    bs.AppendNum(LengthIndicator(e.mode, version), CountOf(e));
  }

  lemma CountSmall(e: Entry, version: nat)
    requires Proper(e) && !e.mode.Structure? && !TooLong(e, version)
    ensures CountOf(e) < 65536
  {
    hide Proper, TooLong;
    CountFits(e, version);
    Grows(LengthIndicator(e.mode, version), 16);
    assert Pow2(8) == 256 by { Capacities(); }
    assert Pow2(12) == 4096;
    assert Pow2(16) == 65536;
  }

  lemma {:induction false} Grows(a: nat, b: nat)
    requires a <= b
    ensures Pow2(a) <= Pow2(b)
    decreases b
  {
    if a < b {
      Grows(a, b - 1);
    }
  }

  /** QRinput_encodeModeStructure */
  method EncodeHeader(e: Entry, bs: BitStream, version: nat)
    requires bs.Valid() && Header(e)
    modifies bs, bs.data
    ensures bs.Valid() && (bs.data == old(bs.data) || fresh(bs.data))
    ensures bs.Contents() == old(bs.Contents()) + Segment(e, version)
  {
    hide NumBits;
    bs.AppendNum(4, 3);
    bs.AppendNum(4, e.data[1] - 1);
    bs.AppendNum(4, e.data[0] - 1);
    bs.AppendNum(8, e.data[2]);
  }

  /** QRinput_encodeModeNum, An, 8, Kanji and Structure. */
  method EncodeMode(e: Entry, bs: BitStream, version: nat)
    requires bs.Valid() && Proper(e) && !TooLong(e, version)
    modifies bs, bs.data
    ensures bs.Valid() && (bs.data == old(bs.data) || fresh(bs.data))
    ensures bs.Contents() == old(bs.Contents()) + Segment(e, version)
  {
    hide NumBits, TooLong, NumPayload, AnPayload, KanjiPayload, BytesBits;
    if e.mode.Structure? {
      EncodeHeader(e, bs, version);
      return;
    }
    Head(e, bs, version);
    match e.mode {
      case Num => AppendDigits(e.data, bs);
      case An => AppendAnChars(e.data, bs);
      case Eight => bs.AppendBytes(e.data);
      case Kanji => AppendKanji(e.data, bs);
    }
  }

  /** QRinput_encodeBitStream: the number of bits appended. */
  method EncodeBitStream(e: Entry, bs: BitStream, version: nat) returns (bits: nat)
    requires bs.Valid() && Proper(e)
    modifies bs, bs.data
    ensures bs.Valid() && (bs.data == old(bs.data) || fresh(bs.data))
    ensures bs.Contents() == old(bs.Contents()) + Encoded(e, version) && bits == |Encoded(e, version)|
    decreases |e.data|
  {
    hide Segment, Proper, Encoded, MaximumWords;
    var prevsize := bs.length;
    var words := MaximumWords(e.mode, version);
    if words != 0 && |e.data| > words {
      PiecesOfFront(e, version);
      var st1 := Front(e, words);
      var st2 := Back(e, words);
      var n := EncodeBitStream(st1, bs, version);
      n := EncodeBitStream(st2, bs, version);
    } else {
      EncodeMode(e, bs, version);
      OnePiece(e, version);
    }
    bits := bs.length - prevsize;
  }

  lemma OnePiece(e: Entry, version: nat)
    requires Proper(e) && !TooLong(e, version)
    ensures Encoded(e, version) == Segment(e, version)
  {
    hide Proper, TooLong, Segment;
    assert [e][1..] == [];
    assert Segments([e], version) == Segment(e, version) + Segments([], version);
  }

  lemma PiecesOfFront(e: Entry, version: nat)
    requires Proper(e) && TooLong(e, version)
    ensures
      var n := MaximumWords(e.mode, version);
      && 0 < n < |e.data| && Proper(Front(e, n)) && Proper(Back(e, n))
      && Encoded(e, version) == Encoded(Front(e, n), version) + Encoded(Back(e, n), version)
  {
    var n := MaximumWords(e.mode, version);
    CutProper(e, n);
    hide Proper, Segment;
    OnePiece(Front(e, n), version);
    var p := Pieces(Back(e, n), version);
    assert ([Front(e, n)] + p)[1..] == p;
  }

  // ----- estimates -----

  function EstimateNum(size: nat): nat {
    size / 3 * 10 + (if size % 3 == 1 then 4 else if size % 3 == 2 then 7 else 0)
  }

  function EstimateAn(size: nat): nat {
    size / 2 * 11 + if size % 2 == 1 then 6 else 0
  }

  /** The payload of size bytes in a mode. */
  function EstimatePayload(mode: Mode, size: nat): nat {
    match mode
    case Num => EstimateNum(size)
    case An => EstimateAn(size)
    case Eight => size * 8
    case Kanji => size / 2 * 13
    case Structure => 0
  }

  /** QRinput_estimateBitStreamSizeOfEntry: assumes one head for every 2^l bytes. */
  function EstimateEntry(e: Entry, version: nat): nat {
    if e.mode.Structure? then 20
    else
      var v := if version == 0 then 1 else version;
      var l := LengthIndicator(e.mode, v);
      var m := Pow2(l);
      EstimatePayload(e.mode, |e.data|) + Times(Heads(|e.data|, m), 4 + l)
  }

  /** One head for every m bytes. */
  function Heads(size: nat, m: nat): nat
    requires m > 0
  {
    (size + m - 1) / m
  }

  function Estimate(es: seq<Entry>, version: nat): nat {
    if |es| == 0 then 0 else Estimate(es[..|es| - 1], version) + EstimateEntry(es[|es| - 1], version)
  }

  lemma {:induction false} NumLength(d: seq<byte>)
    requires Digits(d)
    ensures |NumPayload(d)| == EstimateNum(|d|)
    decreases |d|
  {
    if |d| >= 3 {
      NumLength(d[3..]);
      assert (|d| - 3) / 3 == |d| / 3 - 1 && (|d| - 3) % 3 == |d| % 3;
    }
  }

  lemma {:induction false} AnLength(d: seq<byte>)
    requires AnChars(d)
    ensures |AnPayload(d)| == EstimateAn(|d|)
    decreases |d|
  {
    hide AnValue;
    if |d| >= 2 {
      AnLength(d[2..]);
      assert (|d| - 2) / 2 == |d| / 2 - 1 && (|d| - 2) % 2 == |d| % 2;
    }
  }

  lemma {:induction false} KanjiLength(d: seq<byte>)
    requires KanjiPairs(d)
    ensures |KanjiPayload(d)| == |d| / 2 * 13
    decreases |d|
  {
    hide NumBits, KanjiPair, KanjiValue;
    if |d| > 0 {
      KanjiLength(d[2..]);
      assert |d[2..]| / 2 == |d| / 2 - 1;
    }
  }

  /** The bits of one segment: exactly the estimate, for a size below 2^l. */
  lemma SegmentLength(e: Entry, version: nat)
    requires Proper(e)
    ensures |Segment(e, version)| ==
              if e.mode.Structure? then 20 else 4 + LengthIndicator(e.mode, version) + EstimatePayload(e.mode, |e.data|)
  {
    hide NumBits, EstimateNum, EstimateAn, NumPayload, AnPayload, KanjiPayload, BytesBits;
    match e.mode
    case Num => NumLength(e.data);
    case An => AnLength(e.data);
    case Eight =>
    case Kanji => KanjiLength(e.data);
    case Structure =>
  }

  // ----- the input -----

  predicate AllProper(es: seq<Entry>) {
    forall i :: 0 <= i < |es| ==> Proper(es[i])
  }

  /** The unpadded stream of all entries. */
  function Stream(es: seq<Entry>, version: nat): seq<bool>
    requires AllProper(es)
  {
    Segments(AllPieces(es, version), version)
  }

  lemma {:induction false} SegmentsConcat(a: seq<Entry>, b: seq<Entry>, version: nat)
    requires AllProper(a) && AllProper(b)
    ensures AllProper(a + b) && Segments(a + b, version) == Segments(a, version) + Segments(b, version)
    decreases |a|
  {
    hide Proper, Segment;
    if |a| == 0 {
      assert a + b == b;
    } else {
      SegmentsConcat(a[1..], b, version);
      assert (a + b)[1..] == a[1..] + b;
    }
  }

  lemma StreamStep(es: seq<Entry>, version: nat)
    requires AllProper(es) && |es| > 0
    ensures Stream(es, version) == Encoded(es[0], version) + Stream(es[1..], version)
  {
    hide Proper, Segment, Pieces;
    SegmentsConcat(Pieces(es[0], version), AllPieces(es[1..], version), version);
  }

  class Input {
    var version: nat
    var level: Level
    var entries: seq<Entry>

    ghost predicate Valid()
      reads this
    {
      version <= VERSION_MAX && AllProper(entries)
    }

    /** QRinput_new2 */
    constructor (version: nat, level: Level)
      requires version <= VERSION_MAX
      ensures Valid() && this.version == version && this.level == level && entries == []
    {
      this.version, this.level, entries := version, level, [];
    }

    /** QRinput_append for the modes of data. */
    method Append(mode: Mode, data: seq<byte>) returns (ret: int)
      requires Valid() && !mode.Structure?
      modifies this`entries
      ensures Valid() && ret == if Check(Entry(mode, data)) then 0 else -1
      ensures entries == if ret == 0 then old(entries) + [Entry(mode, data)] else old(entries)
    {
      if !Check(Entry(mode, data)) {
        return -1;
      }
      entries := entries + [Entry(mode, data)];
      ret := 0;
    }

    /** QRinput_estimateBitStreamSize */
    method EstimateBitStreamSize(version: nat) returns (bits: nat)
      ensures bits == Estimate(entries, version)
    {
      bits := 0;
      for i := 0 to |entries|
        invariant bits == Estimate(entries[..i], version)
      {
        bits := bits + EstimateEntry(entries[i], version);
        assert entries[..i + 1][..i] == entries[..i];
      }
      assert entries[..|entries|] == entries;
    }

    /** QRinput_estimateVersion: the version strictly rises until it is enough for its own
        estimate. */
    method EstimateVersion() returns (version: nat)
      ensures 1 <= version <= VERSION_MAX
      ensures exists prev: nat :: version <= prev <= VERSION_MAX
                && version == MinimumVersion((Estimate(entries, prev) + 7) / 8, level)
    {
      hide Estimate, MinimumVersion;
      version := 0;
      var prev := 0;
      var again := true;
      while again
        invariant prev <= VERSION_MAX && version <= VERSION_MAX
        invariant !again ==> 1 <= version <= prev && version == MinimumVersion((Estimate(entries, prev) + 7) / 8, level)
        decreases if again then 1 + VERSION_MAX - version else 0
      {
        prev := version;
        var bits := EstimateBitStreamSize(prev);
        version := GetMinimumVersion((bits + 7) / 8, level);
        again := version > prev;
      }
    }

    /** QRinput_createBitStream */
    method CreateBitStream(bs: BitStream) returns (total: nat)
      requires Valid() && bs.Valid() && bs.Contents() == []
      modifies bs, bs.data
      ensures bs.Valid() && (bs.data == old(bs.data) || fresh(bs.data))
      ensures bs.Contents() == Stream(entries, version) && total == |bs.Contents()|
    {
      hide Stream, Encoded, Proper;
      total := 0;
      assert entries[0..] == entries;
      for i := 0 to |entries|
        invariant bs.Valid() && (bs.data == old(bs.data) || fresh(bs.data))
        invariant bs.Contents() + Stream(entries[i..], version) == Stream(entries, version)
        invariant total == |bs.Contents()|
      {
        StreamStep(entries[i..], version);
        assert entries[i..][1..] == entries[i + 1..];
        var bits := EncodeBitStream(entries[i], bs, version);
        total := total + bits;
      }
      assert entries[|entries|..] == [];
      EmptyStream(version);
    }

    /** QRinput_convertData */
    method ConvertData(bs: BitStream)
      requires Valid() && bs.Valid()
      modifies this`version, bs, bs.data
      ensures Valid() && bs.Valid() && (bs.data == old(bs.data) || fresh(bs.data))
      ensures version >= old(version) && version >= 1 && bs.Contents() == Stream(entries, version)
      ensures MinimumVersion((|bs.Contents()| + 7) / 8, level) <= version
    {
      hide Stream, Proper, MinimumVersion;
      var ver := EstimateVersion();
      if ver > version {
        version := ver;
      }
      var again := true;
      while again
        invariant Valid() && bs.Valid() && (bs.data == old(bs.data) || fresh(bs.data))
        invariant version >= old(version) && version >= 1
        invariant !again ==> bs.Contents() == Stream(entries, version)
                             && MinimumVersion((|bs.Contents()| + 7) / 8, level) <= version
        decreases if again then 1 + VERSION_MAX - version else 0
      {
        bs.Reset();
        var bits := CreateBitStream(bs);
        ver := GetMinimumVersion((bits + 7) / 8, level);
        if ver > version {
          version := ver;
        } else {
          again := false;
        }
      }
    }

    /** QRinput_appendPaddingBit */
    method AppendPaddingBit(bs: BitStream) returns (ret: int)
      requires Valid() && bs.Valid()
      modifies bs, bs.data
      ensures bs.Valid() && (bs.data == old(bs.data) || fresh(bs.data))
      ensures ret == if |old(bs.Contents())| <= 8 * DataLength(version, level) then 0 else -1
      ensures ret == 0 ==>
                bs.Contents() == old(bs.Contents()) + Padding(|old(bs.Contents())|, DataLength(version, level))
    {
      hide NumBits, DataLength, Proper, BytesBits, PadBytes;
      var bits := bs.length;
      ghost var was := bs.Contents();
      var maxwords := DataLength(version, level);
      var maxbits := maxwords * 8;
      if maxbits < bits {
        return -1;
      }
      if maxbits == bits {
        NoPadding(was);
        return 0;
      }
      if maxbits - bits <= 4 {
        bs.AppendNum(maxbits - bits, 0);
        return 0;
      }
      var words := (bits + 4 + 7) / 8;
      bs.AppendNum(words * 8 - bits, 0);
      AppendPadBytes(bs, maxwords - words);
      ret := 0;
    }

    /** padlen bytes 0xec and 0x11 in turn. */
    method AppendPadBytes(bs: BitStream, padlen: int)
      requires bs.Valid()
      modifies bs, bs.data
      ensures bs.Valid() && (bs.data == old(bs.data) || fresh(bs.data))
      ensures bs.Contents() == old(bs.Contents()) + BytesBits(PadBytes(padlen))
    {
      hide NumBits, BytesBits, PadBytes;
      ghost var mid := bs.Contents();
      NoBytes(mid);
      if padlen > 0 {
        for i := 0 to padlen
          invariant bs.Valid() && (bs.data == old(bs.data) || fresh(bs.data))
          invariant bs.Contents() == mid + BytesBits(PadBytes(i))
        {
          bs.AppendNum(8, if i % 2 == 1 then 0x11 else 0xec);
          OnePadByte(i);
        }
      }
    }

    /** QRinput_getByteStream */
    method GetByteStream() returns (r: Option<array<byte>>)
      requires Valid()
      modifies this`version
      ensures Valid() && 1 <= version && version >= old(version)
      ensures r.Some? <==> |Stream(entries, version)| <= 8 * DataLength(version, level)
      ensures r.None? ==> version == VERSION_MAX
      ensures r.Some? ==>
                r.value.Length == DataLength(version, level) && Filled(r.value[..], Stream(entries, version))
    {
      hide Stream, Proper, DataLength, Padding, BytesBits, Packed, Filled;
      var bs := new BitStream();
      ConvertData(bs);
      CapacityReached((|bs.Contents()| + 7) / 8, version, level);
      var ret := AppendPaddingBit(bs);
      if ret < 0 {
        return None;
      }
      var a := bs.ToByte();
      PaddingFills(|Stream(entries, version)|, DataLength(version, level));
      Unpacked(bs.Contents());
      PaddingIs(a[..], Stream(entries, version));
      r := Some(a);
    }
  }

  lemma EmptyStream(version: nat)
    ensures Stream([], version) == []
  {
  }

  /** Where the version search ends, the data fits, or no version is left. */
  lemma CapacityReached(size: nat, version: nat, level: Level)
    requires MinimumVersion(size, level) <= version <= VERSION_MAX
    ensures version < VERSION_MAX ==> size <= DataLength(version, level)
  {
    hide DataLength;
    DataGrows(MinimumVersion(size, level), version, level);
  }

  /** The byte stream holds all the data: a reader of its bits recovers every entry. */
  lemma StreamDecodes(es: seq<Entry>, version: nat, bytes: seq<byte>)
    requires AllProper(es) && forall i :: 0 <= i < |es| ==> Readable(es[i])
    requires Filled(bytes, Stream(es, version))
    ensures var r := ReadAll(BytesBits(bytes), version); r.Some? && Content(r.value) == Content(es)
  {
    hide Proper, Readable, Segments, Terminated;
    var stream := Stream(es, version);
    FilledTerminates(bytes, stream);
    Decodes(es, version, BytesBits(bytes)[|stream|..]);
    assert BytesBits(bytes) == stream + BytesBits(bytes)[|stream|..];
  }
}
