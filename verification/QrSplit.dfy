/** Structured append (qrcode/qrinput.c:248-326, 947-994, 1420-1601): cutting input that is too
    large for one symbol into up to 16 symbols. */
module QrSplit {
  import opened Common
  import opened Products
  import opened QrBits
  import opened QrEntry
  import opened QrReader
  import opened QrCapacity
  import opened QrInput
  import opened QrPacking

  // ----- QRinput_lengthOfCode -----

  /** Division in C. */
  function Trunc(a: int, b: nat): int
    requires b > 0
  {
    if a >= 0 then a / b else -(-a / b)
  }

  /** How many bytes a payload of so many bits holds; it may be negative. */
  function PayloadSize(mode: Mode, payload: int): int {
    match mode
    case Num =>
      var chunks := Trunc(payload, 10);
      var remain := payload - chunks * 10;
      chunks * 3 + if remain >= 7 then 2 else if remain >= 4 then 1 else 0
    case An =>
      var chunks := Trunc(payload, 11);
      var remain := payload - chunks * 11;
      chunks * 2 + if remain >= 6 then 1 else 0
    case Eight => Trunc(payload, 8)
    case Kanji => Trunc(payload, 13) * 2
    case Structure => Trunc(payload, 8)
  }

  /** QRinput_lengthOfCode: how many bytes fit in so many bits, with the head. */
  function LengthOfCode(mode: Mode, version: nat, bits: int): nat {
    var size := PayloadSize(mode, bits - 4 - LengthIndicator(mode, version));
    var maxsize := MaximumWords(mode, version);
    if size < 0 then 0 else if maxsize > 0 && size > maxsize then maxsize else size
  }

  /** lengthOfCode is adjoint to the estimate: so many bytes fit in the bits if and only if
      their segment is that long at most. */
  lemma Adjoint(mode: Mode, version: nat, bits: int, size: nat)
    requires !mode.Structure? && 0 < size <= MaximumWords(mode, version) && (mode.Kanji? ==> size % 2 == 0)
    ensures size <= LengthOfCode(mode, version, bits) <==>
              4 + LengthIndicator(mode, version) + EstimatePayload(mode, size) <= bits
  {
    hide MaximumWords, LengthIndicator, PayloadSize, EstimatePayload;
    PayloadAdjoint(mode, bits - 4 - LengthIndicator(mode, version), size);
  }

  lemma PayloadAdjoint(mode: Mode, payload: int, size: nat)
    requires !mode.Structure? && 0 < size && (mode.Kanji? ==> size % 2 == 0)
    ensures size <= PayloadSize(mode, payload) <==> EstimatePayload(mode, size) <= payload
  {
    match mode
    case Num =>
    case An =>
    case Eight =>
    case Kanji =>
  }

  lemma LengthBounds(mode: Mode, version: nat, bits: int)
    requires !mode.Structure?
    ensures LengthOfCode(mode, version, bits) <= MaximumWords(mode, version)
    ensures mode.Kanji? ==> LengthOfCode(mode, version, bits) % 2 == 0
  {
    SomeBits(LengthIndicator(mode, version));
    hide LengthIndicator, Pow2, PayloadSize;
    KanjiSize(bits - 4 - LengthIndicator(mode, version));
  }

  lemma KanjiSize(payload: int)
    ensures PayloadSize(Kanji, payload) % 2 == 0
  {
  }

  /** In any symbol there is room for some data in every mode. */
  lemma RoomInEmpty(mode: Mode, version: nat, level: Level)
    requires !mode.Structure? && 1 <= version <= VERSION_MAX
    ensures 8 * DataLength(version, level) >= 72
    ensures LengthOfCode(mode, version, 8 * DataLength(version, level) - HEADER_SIZE) > 0
  {
    Extremes(level);
    DataGrows(1, version, level);
    SomeBits(LengthIndicator(mode, version));
    hide Pow2, DataLength;
  }

  lemma HeadsOnce(size: nat, m: nat)
    requires 0 < size && m > 0
    ensures Heads(size, m) >= 1 && (size <= m ==> Heads(size, m) == 1)
  {
    if size <= m {
      Quotient(size + m - 1, m, 1, size - 1);
    } else {
      Ordered(Heads(size, m) + 1, 1, m);
      assert size + m - 1 == m * Heads(size, m) + (size + m - 1) % m;
    }
  }

  // ----- parity -----

  /** Exclusive or of the low n bits. */
  function Xor(n: nat, a: nat, b: nat): (r: nat)
    ensures r < Pow2(n)
  {
    if n == 0 then 0 else 2 * Xor(n - 1, a / 2, b / 2) + (a + b) % 2
  }

  lemma {:induction false} XorLaws(n: nat, a: nat, b: nat, c: nat)
    ensures Xor(n, a, b) == Xor(n, b, a)
    ensures Xor(n, Xor(n, a, b), c) == Xor(n, a, Xor(n, b, c))
    decreases n
  {
    if n > 0 {
      XorLaws(n - 1, a / 2, b / 2, c / 2);
      var u, v := Xor(n, a, b), Xor(n, b, c);
      XorStep(n, a, b);
      XorStep(n, b, a);
      XorStep(n, b, c);
      XorStep(n, u, c);
      XorStep(n, a, v);
      hide Xor;
      Odd(a, b, c, u, v);
    }
  }

  lemma XorStep(n: nat, a: nat, b: nat)
    requires n > 0
    ensures Xor(n, a, b) == 2 * Xor(n - 1, a / 2, b / 2) + (a + b) % 2
    ensures Xor(n, a, b) / 2 == Xor(n - 1, a / 2, b / 2) && Xor(n, a, b) % 2 == (a + b) % 2
  {
  }

  lemma Odd(a: nat, b: nat, c: nat, u: nat, v: nat)
    requires u % 2 == (a + b) % 2 && v % 2 == (b + c) % 2
    ensures (u + c) % 2 == (a + v) % 2
  {
  }

  /** The parity of a text: the exclusive or of its bytes. */
  function Parity(content: seq<(Mode, byte)>): (r: nat)
    ensures r < 256
  {
    Capacities();
    if |content| == 0 then 0 else Xor(8, Parity(content[..|content| - 1]), content[|content| - 1].1)
  }

  /** Of how many bytes bit k is set. */
  function BitsSet(content: seq<(Mode, byte)>, k: nat): nat {
    if |content| == 0 then 0 else BitsSet(content[..|content| - 1], k) + BitOf(content[|content| - 1].1, k)
  }

  function BitOf(a: nat, k: nat): (r: nat)
    ensures r < 2
  {
    a / Pow2(k) % 2
  }

  lemma {:induction false} XorBit(n: nat, a: nat, b: nat, k: nat)
    requires k < n
    ensures BitOf(Xor(n, a, b), k) == (BitOf(a, k) + BitOf(b, k)) % 2
    decreases k
  {
    XorStep(n, a, b);
    var m, x := Pow2(k), Xor(n, a, b);
    if k == 0 {
      assert m == 1;
      hide *;
      assert x / 1 == x && a / 1 == a && b / 1 == b;
      LastBits(x, a, b);
    } else {
      var h := Pow2(k - 1);
      assert m == 2 * h;
      XorBit(n - 1, a / 2, b / 2, k - 1);
      hide *;
      Halve(a, h);
      Halve(b, h);
      Halve(x, h);
    }
  }

  lemma LastBits(x: nat, a: nat, b: nat)
    ensures x % 2 == (a + b) % 2 <==> x % 2 == (a % 2 + b % 2) % 2
  {
  }

  /** Each bit of the parity tells whether it is set in an odd number of bytes. */
  lemma {:induction false} ParityBits(content: seq<(Mode, byte)>, k: nat)
    requires k < 8
    ensures BitOf(Parity(content), k) == BitsSet(content, k) % 2
    decreases |content|
  {
    hide Xor, BitOf;
    if |content| == 0 {
      NoBit(k);
    } else {
      var n := |content| - 1;
      ParityBits(content[..n], k);
      XorBit(8, Parity(content[..n]), content[n].1, k);
      LastBits(BitOf(Parity(content), k), BitsSet(content[..n], k), BitOf(content[n].1, k));
    }
  }

  lemma NoBit(k: nat)
    ensures BitOf(0, k) == 0
  {
  }

  lemma {:induction false} XorZero(n: nat, a: nat)
    requires a < Pow2(n)
    ensures Xor(n, a, 0) == a
    decreases n
  {
    if n > 0 {
      XorZero(n - 1, a / 2);
    }
  }

  lemma {:induction false} ParityConcat(a: seq<(Mode, byte)>, b: seq<(Mode, byte)>)
    ensures Parity(a + b) == Xor(8, Parity(a), Parity(b))
    decreases |b|
  {
    hide Xor;
    Capacities();
    if |b| == 0 {
      assert a + b == a;
      XorZero(8, Parity(a));
    } else {
      var n := |b| - 1;
      ParityConcat(a, b[..n]);
      assert (a + b)[..|a| + n] == a + b[..n];
      XorLaws(8, Parity(a), Parity(b[..n]), b[n].1);
    }
  }

  lemma {:induction false} ParityFront(x: (Mode, byte), b: seq<(Mode, byte)>)
    ensures Parity([x] + b) == Xor(8, Parity(b), x.1)
  {
    hide Xor;
    Capacities();
    ParityConcat([x], b);
    assert [x][..0] == [];
    XorLaws(8, 0, x.1, 0);
    XorZero(8, x.1);
    XorLaws(8, x.1, Parity(b), 0);
  }

  /** QRinput_calcParity: the bytes of each entry from the last to the first. */
  method CalcParity(es: seq<Entry>) returns (parity: byte)
    requires forall i :: 0 <= i < |es| ==> !es[i].mode.Structure?
    ensures parity == Parity(Content(es))
  {
    hide Xor, Parity;
    parity := 0;
    EmptyParity();
    for k := 0 to |es|
      invariant parity == Parity(Content(es[..k]))
    {
      var d := es[k].data;
      ghost var before := Content(es[..k]);
      var i := |d|;
      assert before + Tagged(es[k])[i..] == before;
      while i > 0
        invariant 0 <= i <= |d|
        invariant parity == Xor(8, Parity(before), Parity(Tagged(es[k])[i..]))
      {
        i := i - 1;
        ghost var t := Tagged(es[k]);
        assert t[i..] == [t[i]] + t[i + 1..];
        ParityFront(t[i], t[i + 1..]);
        XorLaws(8, Parity(before), Parity(t[i + 1..]), d[i]);
        Capacities();
        parity := Xor(8, parity, d[i]);
      }
      assert Tagged(es[k])[0..] == Tagged(es[k]);
      ParityConcat(before, Tagged(es[k]));
      ContentConcat(es[..k], [es[k]]);
      OneContent(es[k]);
      assert es[..k + 1] == es[..k] + [es[k]];
    }
    assert es[..|es|] == es;
  }

  lemma EmptyParity()
    ensures Parity(Content([])) == 0
    ensures forall a: nat {:trigger Xor(8, a, 0)} :: a < 256 ==> Xor(8, a, 0) == a
    ensures Parity([]) == 0
  {
    Capacities();
    forall a: nat {:trigger Xor(8, a, 0)} | a < 256 ensures Xor(8, a, 0) == a {
      XorZero(8, a);
    }
  }

  lemma OneContent(e: Entry)
    ensures Content([e]) == Tagged(e)
  {
    assert [e][1..] == [] && Content([]) == [];
  }

  // ----- the symbols -----

  /** An entry whose estimate fits takes no more bits than that. */
  lemma EstimateHolds(e: Entry, version: nat, level: Level)
    requires Proper(e) && !e.mode.Structure? && 1 <= version <= VERSION_MAX
    requires EstimateEntry(e, version) <= 8 * DataLength(version, level) - HEADER_SIZE
    ensures |Encoded(e, version)| <= EstimateEntry(e, version)
  {
    hide Proper, Encoded, Segment, DataLength, TooLong;
    var l := LengthIndicator(e.mode, version);
    AtLeastOneHead(e, version);
    FitsIsShort(e, version, level);
    OnePiece(e, version);
    SegmentLength(e, version);
  }

  lemma AtLeastOneHead(e: Entry, version: nat)
    requires Proper(e) && !e.mode.Structure? && version >= 1
    ensures
      var l := LengthIndicator(e.mode, version);
      && EstimateEntry(e, version) >= EstimatePayload(e.mode, |e.data|) + 4 + l
      && (|e.data| <= Pow2(l) ==> EstimateEntry(e, version) == EstimatePayload(e.mode, |e.data|) + 4 + l)
  {
    hide EstimatePayload, LengthIndicator, Pow2;
    var l := LengthIndicator(e.mode, version);
    var h := Heads(|e.data|, Pow2(l));
    HeadsOnce(|e.data|, Pow2(l));
    TimesIs(h, 4 + l);
    Ordered(1, h, 4 + l);
    assert Times(1, 4 + l) == 4 + l;
  }

  /** A cut falls inside the entry, for digits, alphanumerics and bytes. */
  lemma CutInside(e: Entry, version: nat, room: int)
    requires Proper(e) && !e.mode.Structure? && !e.mode.Kanji? && version >= 1
    requires EstimateEntry(e, version) > room
    ensures LengthOfCode(e.mode, version, room) < |e.data|
  {
    hide EstimatePayload, LengthIndicator, LengthOfCode, EstimateEntry, Pow2;
    AtLeastOneHead(e, version);
    LengthBounds(e.mode, version, room);
    if |e.data| <= MaximumWords(e.mode, version) {
      Adjoint(e.mode, version, room, |e.data|);
    }
  }

  /** The first half of a cut fits in the room that was left. */
  lemma FrontFits(e: Entry, version: nat, room: int)
    requires Proper(e) && !e.mode.Structure? && version >= 1
    requires 0 < LengthOfCode(e.mode, version, room) < |e.data|
    ensures
      var n := LengthOfCode(e.mode, version, room);
      Proper(Front(e, n)) && Proper(Back(e, n)) && |Encoded(Front(e, n), version)| <= room
  {
    var n := LengthOfCode(e.mode, version, room);
    LengthBounds(e.mode, version, room);
    hide EstimatePayload, LengthIndicator, LengthOfCode, Pow2, Encoded, Segment, Check;
    CutProper(e, n);
    Adjoint(e.mode, version, room, n);
    OnePiece(Front(e, n), version);
    SegmentLength(Front(e, n), version);
  }

  /** QRinput_Struct, its inputs as the lists of their entries. */
  datatype Struct = Struct(parity: byte, symbols: seq<seq<Entry>>)

  function HeaderEntry(size: byte, number: byte, parity: byte): Entry {
    Entry(Structure, [size, number, parity])
  }

  /** The finished symbols, the entries of the current one, and the entries to come. */
  ghost predicate Splitting(entries: seq<Entry>, done: seq<seq<Entry>>, cur: seq<Entry>, rest: seq<Entry>,
                            version: nat, level: Level) {
    && (forall i :: 0 <= i < |done| ==> Fits(done[i], version, level))
    && Fits(cur, version, level) && DataOnly(rest)
    && Content(Flatten(done)) + Content(cur) + Content(rest) == Content(entries)
  }

  lemma Begin(entries: seq<Entry>, version: nat, level: Level)
    requires DataOnly(entries) && 8 * DataLength(version, level) >= HEADER_SIZE
    ensures Splitting(entries, [], [], entries, version, level) && BitCount([], version) == 0
  {
    hide Proper, DataLength, Stream;
    EmptyStream(version);
    assert Content([]) + Content([]) + Content(entries) == Content(entries);
  }

  /** The next entry goes into the current symbol. */
  lemma TakeEntry(entries: seq<Entry>, done: seq<seq<Entry>>, cur: seq<Entry>, rest: seq<Entry>, version: nat, level: Level)
    requires Splitting(entries, done, cur, rest, version, level) && |rest| > 0
    requires BitCount(cur, version) + |Encoded(rest[0], version)| + HEADER_SIZE <= 8 * DataLength(version, level)
    ensures Splitting(entries, done, cur + [rest[0]], rest[1..], version, level)
    ensures BitCount(cur + [rest[0]], version) == BitCount(cur, version) + |Encoded(rest[0], version)|
    ensures TotalSize(rest[1..]) < TotalSize(rest)
  {
    hide Proper, Encoded, Stream, DataLength, Tagged, Fits;
    FitsMeans(cur, version, level);
    StreamConcat(cur, [rest[0]], version);
    OneStream(rest[0], version);
    ContentConcat(cur, [rest[0]]);
    OneContent(rest[0]);
    ProperSize(rest[0]);
    FitsFrom(cur + [rest[0]], version, level);
    assert Content(Flatten(done)) + (Content(cur) + Tagged(rest[0])) + Content(rest[1..]) ==
           Content(Flatten(done)) + Content(cur) + (Tagged(rest[0]) + Content(rest[1..]));
  }

  lemma ProperSize(e: Entry)
    requires Proper(e)
    ensures |e.data| > 0
  {
  }

  /** The current symbol is finished. */
  lemma FinishSymbol(entries: seq<Entry>, done: seq<seq<Entry>>, cur: seq<Entry>, rest: seq<Entry>, version: nat, level: Level)
    requires Splitting(entries, done, cur, rest, version, level)
    ensures Splitting(entries, done + [cur], [], rest, version, level) && BitCount([], version) == 0
    ensures Flatten(done + [cur]) == Flatten(done) + cur
  {
    hide Proper, Stream, DataLength, Tagged;
    EmptyStream(version);
    assert (done + [cur])[..|done|] == done;
    ContentConcat(Flatten(done), cur);
    assert Content(Flatten(done)) + Content(cur) + [] == Content(Flatten(done)) + Content(cur);
  }

  /** An entry is replaced by its two halves. */
  lemma CutEntry(entries: seq<Entry>, done: seq<seq<Entry>>, cur: seq<Entry>, rest: seq<Entry>, n: nat, version: nat, level: Level)
    requires Splitting(entries, done, cur, rest, version, level) && |rest| > 0 && 0 < n < |rest[0].data|
    requires Proper(Front(rest[0], n)) && Proper(Back(rest[0], n))
    ensures Splitting(entries, done, cur, [Front(rest[0], n), Back(rest[0], n)] + rest[1..], version, level)
    ensures TotalSize([Back(rest[0], n)] + rest[1..]) < TotalSize(rest)
    ensures ([Front(rest[0], n), Back(rest[0], n)] + rest[1..])[1..] == [Back(rest[0], n)] + rest[1..]
  {
    hide Proper, Splitting, Tagged;
    var f, b, tail := Front(rest[0], n), Back(rest[0], n), rest[1..];
    assert ([f, b] + tail)[1..] == [b] + tail;
    assert ([b] + tail)[1..] == tail;
    TaggedCut(rest[0], n);
    assert Content([f, b] + tail) == Tagged(f) + (Tagged(b) + Content(tail));
    assert Tagged(f) + (Tagged(b) + Content(tail)) == Tagged(rest[0]) + Content(tail);
    SplittingParts(entries, done, cur, rest, version, level);
    SameContent(entries, done, cur, rest, [f, b] + tail, version, level);
  }

  lemma SameContent(entries: seq<Entry>, done: seq<seq<Entry>>, cur: seq<Entry>, rest: seq<Entry>, rest': seq<Entry>,
                    version: nat, level: Level)
    requires Splitting(entries, done, cur, rest, version, level) && DataOnly(rest') && Content(rest') == Content(rest)
    ensures Splitting(entries, done, cur, rest', version, level)
  {
    hide Fits, Content, DataOnly;
  }

  lemma TaggedCut(e: Entry, n: nat)
    requires n <= |e.data|
    ensures Tagged(Front(e, n)) + Tagged(Back(e, n)) == Tagged(e)
  {
  }

  // ----- each symbol is filled as far as it goes -----

  /** The finished symbols and the current one hold a front part of the entries, cut up. */
  ghost predicate Cutting(entries: seq<Entry>, done: seq<seq<Entry>>, cur: seq<Entry>, rest: seq<Entry>) {
    var pieces := Flatten(done) + cur;
    && TotalSize(pieces) == TotalSize(Flatten(done)) + TotalSize(cur) <= TotalSize(entries)
    && Covers(entries, pieces) && rest == Beyond(entries, TotalSize(pieces))
  }

  /** No packing is ahead of the finished symbols, and the current one costs no more than it
      must. */
  ghost predicate Tight(entries: seq<Entry>, done: seq<seq<Entry>>, cur: seq<Entry>, rest: seq<Entry>, version: nat, level: Level)
    requires DataOnly(cur)
  {
    var a, c := TotalSize(Flatten(done)), TotalSize(cur);
    && a + c + TotalSize(rest) == TotalSize(entries) && (|done| > 0 ==> a < TotalSize(entries))
    && AtMost(entries, |done|, a, version, level)
    && forall x: nat {:trigger Cost(rest, version, x)} :: x <= TotalSize(rest) ==>
         Cost(Beyond(entries, a), version, c + x) == BitCount(cur, version) + Cost(rest, version, x)
  }

  lemma BeginTight(entries: seq<Entry>, version: nat, level: Level)
    requires DataOnly(entries)
    ensures Cutting(entries, [], [], entries) && Tight(entries, [], [], entries, version, level)
  {
    hide Proper, Cost;
    EmptyStream(version);
    AtMostNone(entries, version, level);
  }

  /** One more piece of the next entry. */
  lemma TakePiece(entries: seq<Entry>, done: seq<seq<Entry>>, cur: seq<Entry>, rest: seq<Entry>, n: nat)
    requires DataOnly(entries) && Cutting(entries, done, cur, rest) && |rest| > 0 && 0 < n <= |rest[0].data|
    ensures n <= TotalSize(rest)
    ensures Cutting(entries, done, cur + [Front(rest[0], n)], Beyond(rest, n))
    ensures TotalSize(cur + [Front(rest[0], n)]) == TotalSize(cur) + n
  {
    hide Proper;
    var pieces, f := Flatten(done) + cur, Front(rest[0], n);
    Lengths(entries);
    BeyondSize(entries, TotalSize(pieces));
    OneSize(f);
    CoversConcat(entries, pieces, [f]);
    CoversConcat([], cur, [f]);
    CoversConcat([], Flatten(done), cur + [f]);
    assert pieces + [f] == Flatten(done) + (cur + [f]);
    BeyondTwice(entries, TotalSize(pieces), n);
    assert [f][1..] == [];
  }

  lemma OneSize(e: Entry)
    ensures TotalSize([e]) == |e.data|
  {
    assert [e][1..] == [];
  }

  /** A whole entry, at the cost of one piece. */
  lemma TakeTight(entries: seq<Entry>, done: seq<seq<Entry>>, cur: seq<Entry>, rest: seq<Entry>, version: nat, level: Level)
    requires DataOnly(cur) && DataOnly(rest) && |rest| > 0 && Tight(entries, done, cur, rest, version, level)
    requires |Encoded(rest[0], version)| == PieceBits(rest[0].mode, version, |rest[0].data|)
    requires TotalSize(cur + [rest[0]]) == TotalSize(cur) + |rest[0].data|
    requires BitCount(cur + [rest[0]], version) == BitCount(cur, version) + |Encoded(rest[0], version)|
    ensures Tight(entries, done, cur + [rest[0]], rest[1..], version, level)
  {
    hide Proper, BitCount, Encoded, AtMost, Flatten, PieceBits;
    ProperSize(rest[0]);
    var n, c := |rest[0].data|, TotalSize(cur);
    forall x: nat {:trigger Cost(rest[1..], version, x)} | x <= TotalSize(rest[1..])
      ensures Cost(Beyond(entries, TotalSize(Flatten(done))), version, c + n + x) ==
              BitCount(cur + [rest[0]], version) + Cost(rest[1..], version, x)
    {
      assert Cost(rest, version, n + x) == PieceBits(rest[0].mode, version, n) + Cost(rest[1..], version, x);
      assert c + (n + x) == c + n + x;
    }
  }

  /** Beyond the length computed for the room that is left, no byte fits. */
  lemma NoMore(rest: seq<Entry>, version: nat, level: Level, room: int, n: nat, x: nat)
    requires Plain(rest) && |rest| > 0 && 1 <= version <= VERSION_MAX
    requires room <= 8 * DataLength(version, level) - HEADER_SIZE
    requires n == LengthOfCode(rest[0].mode, version, room) < |rest[0].data| && n < x
    ensures Cost(rest, version, x) > room
  {
    hide LengthOfCode, EstimatePayload, LengthIndicator, DataLength, Proper;
    var e := rest[0];
    CostGrows(rest, version, n + 1, x);
    if n + 1 <= MaximumWords(e.mode, version) {
      Adjoint(e.mode, version, room, n + 1);
    } else {
      LongIsLarge(e, n + 1, version, level);
    }
  }

  lemma LongIsLarge(e: Entry, n: nat, version: nat, level: Level)
    requires Proper(e) && !e.mode.Structure? && !e.mode.Kanji? && 1 <= version <= VERSION_MAX
    requires 0 < n <= |e.data| && MaximumWords(e.mode, version) < n
    ensures EstimatePayload(e.mode, n) > 8 * DataLength(version, level) - HEADER_SIZE
  {
    SomeBits(LengthIndicator(e.mode, version));
    hide EstimatePayload, LengthIndicator, DataLength, Pow2;
    if n < |e.data| {
      CutProper(e, n);
    } else {
      assert Front(e, n) == e;
    }
    if EstimatePayload(e.mode, n) <= 8 * DataLength(version, level) - HEADER_SIZE {
      FitsIsShort(Front(e, n), version, level);
    }
  }

  /** The piece that is cut off to fill the current symbol, if there is room for any. */
  function LastPiece(e: Entry, n: nat): seq<Entry>
    requires n <= |e.data|
  {
    if n == 0 then [] else [Front(e, n)]
  }

  /** A symbol is finished. */
  lemma FinishCutting(entries: seq<Entry>, done: seq<seq<Entry>>, cur: seq<Entry>, rest: seq<Entry>, n: nat)
    requires DataOnly(entries) && Cutting(entries, done, cur, rest) && |rest| > 0 && n <= |rest[0].data|
    ensures n <= TotalSize(rest)
    ensures Cutting(entries, done + [cur + LastPiece(rest[0], n)], [], Beyond(rest, n))
    ensures TotalSize(Flatten(done + [cur + LastPiece(rest[0], n)])) == TotalSize(Flatten(done)) + TotalSize(cur) + n
    ensures Beyond(rest, n) == Beyond(entries, TotalSize(Flatten(done)) + TotalSize(cur) + n)
  {
    hide DataOnly, Covers;
    var full := cur + LastPiece(rest[0], n);
    if n > 0 {
      TakePiece(entries, done, cur, rest, n);
    } else {
      assert full == cur && Beyond(rest, 0) == rest;
    }
    FlattenMore(done, full);
    assert Flatten(done + [full]) + [] == Flatten(done + [full]);
  }

  lemma FlattenMore(done: seq<seq<Entry>>, full: seq<Entry>)
    ensures Flatten(done + [full]) == Flatten(done) + full
  {
    assert (done + [full])[..|done|] == done;
  }

  /** No packing is ahead of the finished symbol. */
  lemma FinishTight(entries: seq<Entry>, done: seq<seq<Entry>>, cur: seq<Entry>, rest: seq<Entry>, n: nat, version: nat, level: Level)
    requires Plain(entries) && DataOnly(cur) && |rest| > 0 && 1 <= version <= VERSION_MAX
    requires Cutting(entries, done, cur, rest) && Tight(entries, done, cur, rest, version, level) && Plain(rest)
    requires n == LengthOfCode(rest[0].mode, version, 8 * DataLength(version, level) - HEADER_SIZE - BitCount(cur, version)) < |rest[0].data|
    ensures n <= TotalSize(rest)
    ensures Tight(entries, done + [cur + LastPiece(rest[0], n)], [], Beyond(rest, n), version, level)
  {
    hide LengthOfCode, DataLength, Proper, BitCount, AtMost, Cost, Reaches, Beyond, Flatten, Cutting, LastPiece;
    var a, c, full := TotalSize(Flatten(done)), TotalSize(cur), cur + LastPiece(rest[0], n);
    FinishCutting(entries, done, cur, rest, n);
    ReachesFull(entries, done, cur, rest, n, version, level);
    StaysAhead(entries, |done|, a, c + n, version, level);
    BeyondSize(entries, a + c + n);
    EmptyCount(version);
  }

  lemma EmptyCount(version: nat)
    ensures DataOnly([]) && BitCount([], version) == 0 && TotalSize([]) == 0
  {
    EmptyStream(version);
  }

  lemma ReachesFull(entries: seq<Entry>, done: seq<seq<Entry>>, cur: seq<Entry>, rest: seq<Entry>, n: nat, version: nat, level: Level)
    requires DataOnly(cur) && |rest| > 0 && 1 <= version <= VERSION_MAX && Plain(rest)
    requires Tight(entries, done, cur, rest, version, level)
    requires n == LengthOfCode(rest[0].mode, version, 8 * DataLength(version, level) - HEADER_SIZE - BitCount(cur, version)) < |rest[0].data|
    requires n <= TotalSize(rest)
    ensures Reaches(entries, TotalSize(Flatten(done)), TotalSize(cur) + n, version, level)
  {
    hide LengthOfCode, DataLength, Proper, BitCount, AtMost, Cost, Beyond, Flatten, TotalSize;
    var room := 8 * DataLength(version, level) - HEADER_SIZE - BitCount(cur, version);
    var a, c := TotalSize(Flatten(done)), TotalSize(cur);
    forall m: nat {:trigger Cost(Beyond(entries, a), version, m)} | c + n < m <= TotalSize(entries) - a
      ensures Cost(Beyond(entries, a), version, m) + HEADER_SIZE > 8 * DataLength(version, level)
    {
      NoMore(rest, version, level, room, n, m - c);
      assert Cost(Beyond(entries, a), version, c + (m - c)) == BitCount(cur, version) + Cost(rest, version, m - c);
    }
  }

  /** The next entry as a whole. */
  lemma WholeEntry(entries: seq<Entry>, done: seq<seq<Entry>>, cur: seq<Entry>, rest: seq<Entry>, version: nat, level: Level)
    requires DataOnly(entries) && DataOnly(cur) && DataOnly(rest) && |rest| > 0 && 1 <= version <= VERSION_MAX
    requires Cutting(entries, done, cur, rest)
    requires EstimateEntry(rest[0], version) <= 8 * DataLength(version, level) - HEADER_SIZE
    requires DataOnly(cur + [rest[0]])
    requires BitCount(cur + [rest[0]], version) == BitCount(cur, version) + |Encoded(rest[0], version)|
    ensures Cutting(entries, done, cur + [rest[0]], rest[1..])
    ensures Tight(entries, done, cur, rest, version, level) ==> Tight(entries, done, cur + [rest[0]], rest[1..], version, level)
  {
    hide Proper, BitCount, Encoded, Tight, Cutting, DataLength, EstimateEntry, Segment;
    var e := rest[0];
    ProperSize(e);
    TakePiece(entries, done, cur, rest, |e.data|);
    assert Front(e, |e.data|) == e;
    BeyondFirst(rest);
    AtLeastOneHead(e, version);
    FitsIsShort(e, version, level);
    OnePiece(e, version);
    SegmentLength(e, version);
    if Tight(entries, done, cur, rest, version, level) {
      TakeTight(entries, done, cur, rest, version, level);
    }
  }

  /** All entries are placed. */
  lemma AllPlaced(entries: seq<Entry>, done: seq<seq<Entry>>, cur: seq<Entry>, version: nat, level: Level)
    requires DataOnly(entries) && Cutting(entries, done, cur, [])
    requires forall i :: 0 <= i < |done + [cur]| ==> Fits((done + [cur])[i], version, level)
    ensures PacksAll(entries, done + [cur], version, level)
  {
    hide Fits, Covers, DataOnly;
    FlattenMore(done, cur);
    BeyondSize(entries, TotalSize(Flatten(done) + cur));
  }

  lemma Needed(entries: seq<Entry>, done: seq<seq<Entry>>, cur: seq<Entry>, rest: seq<Entry>, version: nat, level: Level)
    requires DataOnly(cur) && Tight(entries, done, cur, rest, version, level)
    ensures forall symbols {:trigger PacksAll(entries, symbols, version, level)} ::
              |symbols| > 0 && PacksAll(entries, symbols, version, level) ==> |symbols| > |done|
  {
    hide PacksAll, AtMost, Cost, BitCount;
    forall symbols {:trigger PacksAll(entries, symbols, version, level)} | |symbols| > 0 && PacksAll(entries, symbols, version, level)
      ensures |symbols| > |done|
    {
      if |done| > 0 {
        NotFewer(entries, |done|, TotalSize(Flatten(done)), version, level, symbols);
      }
    }
  }

  /** The entries fit in so many symbols, in order, cut up in any way. */
  ghost predicate Packable(entries: seq<Entry>, k: nat, version: nat, level: Level) {
    exists symbols {:trigger PacksAll(entries, symbols, version, level)} ::
      0 < |symbols| <= k && PacksAll(entries, symbols, version, level)
  }

  /** QRinput_splitQRinputToStruct. bodies are the symbols without their headers: of all ways
      to cut the entries up and pack them in order, the fewest. */
  method SplitToStruct(input: Input) returns (r: Option<Struct>, ghost bodies: seq<seq<Entry>>)
    requires input.Valid() && DataOnly(input.entries)
    ensures r.Some? ==>
              && 1 <= |bodies| <= MAX_SYMBOLS && r.value.parity == Parity(Content(input.entries))
              && r.value.symbols == WithHeaders(bodies, r.value.parity)
              && PacksAll(input.entries, bodies, input.version, input.level)
              && Content(Flatten(bodies)) == Content(input.entries)
              && forall i :: 0 <= i < |bodies| ==> Fits(bodies[i], input.version, input.level)
    ensures r.Some? && NoKanji(input.entries) ==>
              forall k: nat {:trigger Packable(input.entries, k, input.version, input.level)} ::
                Packable(input.entries, k, input.version, input.level) <==> |bodies| <= k
    ensures input.version == 0 ==> r.None?
    ensures input.version > 0 && NoKanji(input.entries) ==>
              (r.Some? <==> Packable(input.entries, MAX_SYMBOLS, input.version, input.level))
  {
    hide Splitting, Fits, DataLength, Content, Flatten, Stream, Encoded, Proper, Parity, TotalSize, LengthOfCode, EstimateEntry,
      DataOnly, Cutting, Tight, PacksAll;
    var version, level := input.version, input.level;
    bodies := [];
    var parity := Parities(input.entries);
    var maxbits := DataLength(version, level) * 8 - HEADER_SIZE;
    if maxbits <= 0 {
      SomeVersion(version, level);
      return None, [];
    }
    AnyVersion(version, level);
    var bs := new BitStream();
    var done: seq<seq<Entry>>, cur: seq<Entry>, rest, bits: nat := [], [], input.entries, 0;
    Begin(input.entries, version, level);
    SplittingParts(input.entries, done, cur, rest, version, level);
    BeginTight(input.entries, version, level);
    while |rest| > 0
      invariant bs.Valid() && fresh(bs.data)
      invariant Splitting(input.entries, done, cur, rest, version, level)
      invariant DataOnly(cur) && DataOnly(rest) && bits == BitCount(cur, version) <= maxbits
      invariant Cutting(input.entries, done, cur, rest)
      invariant NoKanji(input.entries) ==> NoKanji(rest) && Tight(input.entries, done, cur, rest, version, level)
      decreases TotalSize(rest), |cur|
    {
      var e := rest[0];
      DataEntry(rest);
      var nextbits := EstimateEntry(e, version);
      if bits + nextbits <= maxbits {
        EstimateHolds(e, version, level);
        TakeEntry(input.entries, done, cur, rest, version, level);
        SplittingParts(input.entries, done, cur + [e], rest[1..], version, level);
        WholeEntry(input.entries, done, cur, rest, version, level);
        bs.Reset();
        var ret := EncodeBitStream(e, bs, version);
        bits := bits + ret;
        cur, rest := cur + [e], rest[1..];
      } else {
        var bytes := LengthOfCode(e.mode, version, maxbits - bits);
        if bytes > 0 {
          // QRinput_splitEntry checks the second half
          if bytes >= |e.data| {
            if !e.mode.Kanji? {
              CutInside(e, version, maxbits - bits);
            }
            assert !NoKanji(input.entries);
            return None, [];
          }
          FrontFits(e, version, maxbits - bits);
          Finish(input.entries, done, cur, rest, bytes, version, level);
          CutEntry(input.entries, done, cur, rest, bytes, version, level);
          ghost var halves := [Front(e, bytes), Back(e, bytes)] + rest[1..];
          TakeEntry(input.entries, done, cur, halves, version, level);
          FinishSymbol(input.entries, done, cur + [Front(e, bytes)], [Back(e, bytes)] + rest[1..], version, level);
          done, cur, rest := done + [cur + [Front(e, bytes)]], [], [Back(e, bytes)] + rest[1..];
        } else {
          NotFirst(cur, e.mode, version, level);
          Finish(input.entries, done, cur, rest, 0, version, level);
          FinishSymbol(input.entries, done, cur, rest, version, level);
          done, cur := done + [cur], [];
        }
        SplittingParts(input.entries, done, cur, rest, version, level);
        bits := 0;
      }
    }
    Finished(input.entries, done, cur, version, level);
    AllPlaced(input.entries, done, cur, version, level);
    if NoKanji(input.entries) {
      Needed(input.entries, done, cur, rest, version, level);
    }
    done := done + [cur];
    bodies := done;
    if |done| > MAX_SYMBOLS {
      return None, bodies;
    }
    var symbols := InsertHeaders(done, parity);
    r := Some(Struct(parity, symbols));
  }

  /** The current symbol is finished, with n bytes of the next entry. */
  lemma Finish(entries: seq<Entry>, done: seq<seq<Entry>>, cur: seq<Entry>, rest: seq<Entry>, n: nat, version: nat, level: Level)
    requires DataOnly(entries) && DataOnly(cur) && DataOnly(rest) && |rest| > 0 && 1 <= version <= VERSION_MAX
    requires Cutting(entries, done, cur, rest)
    requires n == LengthOfCode(rest[0].mode, version, 8 * DataLength(version, level) - HEADER_SIZE - BitCount(cur, version)) < |rest[0].data|
    ensures
      var done' := done + [if n == 0 then cur else cur + [Front(rest[0], n)]];
      var rest' := if n == 0 then rest else [Back(rest[0], n)] + rest[1..];
      && Cutting(entries, done', [], rest') && DataOnly([])
      && (NoKanji(entries) && NoKanji(rest) && Tight(entries, done, cur, rest, version, level) ==>
           NoKanji(rest') && Tight(entries, done', [], rest', version, level))
  {
    hide LengthOfCode, DataLength, Proper, BitCount, Cutting, Tight;
    assert cur + [] == cur;
    FinishCutting(entries, done, cur, rest, n);
    if NoKanji(entries) && NoKanji(rest) && Tight(entries, done, cur, rest, version, level) {
      FinishTight(entries, done, cur, rest, n, version, level);
    }
  }

  method Parities(es: seq<Entry>) returns (parity: byte)
    requires DataOnly(es)
    ensures parity == Parity(Content(es))
  {
    hide Content, Parity;
    parity := CalcParity(es);
  }

  lemma SomeVersion(version: nat, level: Level)
    requires version <= VERSION_MAX && 8 * DataLength(version, level) <= HEADER_SIZE
    ensures version == 0
  {
    if version > 0 {
      RoomInEmpty(Num, version, level);
    }
  }

  lemma AnyVersion(version: nat, level: Level)
    requires version <= VERSION_MAX && 8 * DataLength(version, level) > HEADER_SIZE
    ensures version > 0
  {
    assert DataLength(0, level) == 0;
    hide DataLength;
  }

  lemma DataEntry(rest: seq<Entry>)
    requires DataOnly(rest) && |rest| > 0
    ensures Proper(rest[0]) && !rest[0].mode.Structure? && |rest[0].data| > 0
  {
  }

  lemma SplittingParts(entries: seq<Entry>, done: seq<seq<Entry>>, cur: seq<Entry>, rest: seq<Entry>, version: nat, level: Level)
    requires Splitting(entries, done, cur, rest, version, level)
    ensures DataOnly(cur) && DataOnly(rest)
  {
    hide Content, Proper, Stream;
  }

  /** Nothing is ever moved to the next symbol from an empty one. */
  lemma NotFirst(cur: seq<Entry>, mode: Mode, version: nat, level: Level)
    requires DataOnly(cur) && !mode.Structure? && 1 <= version <= VERSION_MAX
    requires LengthOfCode(mode, version, 8 * DataLength(version, level) - HEADER_SIZE - BitCount(cur, version)) == 0
    ensures cur != []
  {
    hide LengthOfCode, DataLength;
    RoomInEmpty(mode, version, level);
    EmptyStream(version);
  }

  lemma Finished(entries: seq<Entry>, done: seq<seq<Entry>>, cur: seq<Entry>, version: nat, level: Level)
    requires Splitting(entries, done, cur, [], version, level)
    ensures Content(Flatten(done + [cur])) == Content(entries)
    ensures forall i :: 0 <= i < |done + [cur]| ==> Fits((done + [cur])[i], version, level)
  {
    hide Fits, Tagged;
    FinishSymbol(entries, done, cur, [], version, level);
    ContentConcat(Flatten(done), cur);
    assert Content(Flatten(done)) + Content(cur) + [] == Content(Flatten(done)) + Content(cur);
  }

  /** Symbol i of n begins with a header that says so; a single symbol has none. */
  function WithHeaders(bodies: seq<seq<Entry>>, parity: byte): seq<seq<Entry>>
    requires |bodies| <= MAX_SYMBOLS
  {
    if |bodies| == 1 then bodies
    else seq(|bodies|, i requires 0 <= i < |bodies| => [HeaderEntry(|bodies|, i + 1, parity)] + bodies[i])
  }

  /** QRinput_Struct_insertStructuredAppendHeaders */
  method InsertHeaders(inputs: seq<seq<Entry>>, parity: byte) returns (r: seq<seq<Entry>>)
    requires 1 <= |inputs| <= MAX_SYMBOLS
    ensures r == WithHeaders(inputs, parity)
  {
    r := inputs;
    if |inputs| == 1 {
      return;
    }
    var size := |inputs|;
    for i := 1 to size + 1
      invariant |r| == size && forall k :: 0 <= k < size ==>
                  r[k] == if k + 1 < i then [HeaderEntry(size, k + 1, parity)] + inputs[k] else inputs[k]
    {
      r := r[i - 1 := [HeaderEntry(size, i, parity)] + r[i - 1]];
    }
  }

  /** With its header, every symbol fits in the version that was asked for. */
  lemma SymbolFits(bodies: seq<seq<Entry>>, parity: byte, i: nat, version: nat, level: Level)
    requires i < |bodies| <= MAX_SYMBOLS && Fits(bodies[i], version, level)
    ensures
      var es := WithHeaders(bodies, parity)[i];
      AllProper(es) && |Stream(es, version)| <= 8 * DataLength(version, level)
  {
    hide Stream, Encoded, Proper, DataLength;
    var body := bodies[i];
    FitsMeans(body, version, level);
    if |bodies| > 1 {
      var h := HeaderEntry(|bodies|, i + 1, parity);
      HeaderLength(h, version);
      assert ([h] + body)[1..] == body;
      StreamStep([h] + body, version);
    }
  }

  lemma HeaderLength(h: Entry, version: nat)
    requires Header(h)
    ensures Proper(h) && |Encoded(h, version)| == HEADER_SIZE
  {
    OnePiece(h, version);
    SegmentLength(h, version);
  }
}
