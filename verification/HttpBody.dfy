/** Body framing: what the parser makes of chunked bodies (section 3.6.1 of RFC 2616) and
    of bodies with a length, however the input is cut. */
module HttpBody {
  import opened Common
  import opened HttpTypes
  import opened HttpSwitch
  import opened HttpInvariant
  import opened HttpRun
  import opened HttpSpec
  import opened HttpFragment

  // ----- reading one piece after another -----

  /** From p, the bytes w lead to q and the callbacks es, up to joining. */
  ghost predicate Reads(p: Parser, w: seq<byte>, hc: Settings, q: Parser, es: seq<Event>) {
    Valid(p) && Meaning(Run(p, w, hc, false)) == Meaning(Running(q, false, es))
  }

  lemma ReadsNothing(p: Parser, hc: Settings)
    requires Valid(p)
    ensures Reads(p, [], hc, p, [])
  {
    hide Valid, Switch;
    EmptyRun(p, hc);
  }

  lemma ReadsByte(p: Parser, ch: byte, hc: Settings)
    requires Valid(p) && Switch(p, false, ch, hc).fin.Next?
    ensures
      var m := Switch(p, false, ch, hc);
      Valid(m.p) && Reads(p, [ch], hc, m.p, ByteEvents(OpenKind(p.state), m.ops, ch))
  {
    hide Valid, Switch, ByteEvents, Join;
    EmptyRun(p, hc);
    RunOne(p, [ch], 0, hc, false);
    assert [ch][..0] == [] && [ch][..1] == [ch];
    var es := ByteEvents(OpenKind(p.state), Switch(p, false, ch, hc).ops, ch);
    assert [] + es == es;
  }

  lemma ReadsKeeps(p: Parser, w: seq<byte>, hc: Settings, q: Parser, es: seq<Event>)
    requires Reads(p, w, hc, q, es)
    ensures Valid(p) && Valid(q)
  {
    hide Valid, Switch, Join;
  }

  lemma Then(p: Parser, a: seq<byte>, q: Parser, es: seq<Event>, b: seq<byte>, r: Parser, fs: seq<Event>, hc: Settings)
    requires Reads(p, a, hc, q, es) && Reads(q, b, hc, r, fs)
    ensures Reads(p, a + b, hc, r, es + fs)
  {
    hide Valid, Switch, Join;
    StrictConcat(p, a, b, hc);
    JoinBoth(Run(p, a, hc, false).events, es, Run(q, b, hc, false).events, fs);
  }

  /** After bytes without a callback. */
  lemma ThenOn(p: Parser, a: seq<byte>, q: Parser, b: seq<byte>, r: Parser, fs: seq<Event>, hc: Settings)
    requires Reads(p, a, hc, q, []) && Reads(q, b, hc, r, fs)
    ensures Reads(p, a + b, hc, r, fs)
  {
    hide Reads;
    Then(p, a, q, [], b, r, fs, hc);
    assert [] + fs == fs;
  }

  /** The callbacks of the usual bytes. */
  lemma EventsOf(k: Kind, e: Event, ch: byte)
    ensures ByteEvents(None, [], ch) == []
    ensures ByteEvents(None, [Fire(e)], ch) == [e]
    ensures ByteEvents(None, [Mark(k)], ch) == [Data(k, [ch])]
    ensures ByteEvents(Some(k), [], ch) == [Data(k, [ch])]
    ensures ByteEvents(Some(k), [Flush(k, false)], ch) == [Data(k, [])]
    ensures ByteEvents(None, [Flush(k, false)], ch) == []
  {
    var none: seq<Op> := [];
    assert [Mark(k)][1..] == none && [Fire(e)][1..] == none && [Flush(k, false)][1..] == none;
  }

  lemma Quiet(p: Parser, ch: byte, q: Parser, hc: Settings)
    requires Valid(p) && OpenKind(p.state) == None && Switch(p, false, ch, hc) == Go(q)
    ensures Reads(p, [ch], hc, q, []) && Valid(q)
  {
    hide Valid, Switch, Reads, ByteEvents;
    ReadsByte(p, ch, hc);
    EventsOf(Body, ChunkComplete, ch);
  }

  lemma Fires(p: Parser, ch: byte, q: Parser, e: Event, hc: Settings)
    requires Valid(p) && OpenKind(p.state) == None
    requires Switch(p, false, ch, hc) == Micro(q, [Fire(e)], Next, true)
    ensures Reads(p, [ch], hc, q, [e]) && Valid(q)
  {
    hide Valid, Switch, Reads, ByteEvents;
    ReadsByte(p, ch, hc);
    EventsOf(Body, e, ch);
  }

  /** Data that goes on. */
  lemma ThenMore(p: Parser, a: seq<byte>, q: Parser, es: seq<Event>, k: Kind, x: seq<byte>,
                 b: seq<byte>, r: Parser, y: seq<byte>, hc: Settings)
    requires Reads(p, a, hc, q, es + [Data(k, x)]) && Reads(q, b, hc, r, [Data(k, y)])
    ensures Reads(p, a + b, hc, r, es + [Data(k, x + y)])
  {
    hide Valid, Switch, Join, Run;
    Then(p, a, q, es + [Data(k, x)], b, r, [Data(k, y)], hc);
    JoinPair(es, k, x, y);
  }

  /** One more byte of the data in progress. */
  lemma DataMore(p: Parser, w: seq<byte>, q: Parser, k: Kind, ch: byte, r: Parser, hc: Settings)
    requires Reads(p, w, hc, q, [Data(k, w)]) && OpenKind(q.state) == Some(k) && Switch(q, false, ch, hc) == Go(r)
    ensures Reads(p, w + [ch], hc, r, [Data(k, w + [ch])])
  {
    hide Valid, Switch, Reads, ByteEvents;
    var none: seq<Event> := [];
    ReadsKeeps(p, w, hc, q, [Data(k, w)]);
    ReadsByte(q, ch, hc);
    EventsOf(k, ChunkComplete, ch);
    assert none + [Data(k, w)] == [Data(k, w)] && none + [Data(k, w + [ch])] == [Data(k, w + [ch])];
    ThenMore(p, w, q, none, k, w, [ch], r, [ch], hc);
  }

  /** The first byte of data. */
  lemma DataFirst(p: Parser, k: Kind, ch: byte, r: Parser, hc: Settings)
    requires Valid(p) && OpenKind(p.state) == None && Switch(p, false, ch, hc) == Micro(r, [Mark(k)], Next)
    ensures Reads(p, [ch], hc, r, [Data(k, [ch])])
  {
    hide Valid, Switch, Reads, ByteEvents;
    ReadsByte(p, ch, hc);
    EventsOf(k, ChunkComplete, ch);
  }

  // ----- success is independent of cuts -----

  /** What the parser accepts byte by byte, or refuses for another reason than a byte of a header,
      hides nothing, so the same input cut in any other way has the same meaning. */
  lemma AcceptedIsNotHidden(p: Parser, w: seq<byte>, hc: Settings)
    requires Valid(p) && var r := Run(p, w, hc, false); r.Failed? ==> r.errno != INVALID_HEADER_TOKEN
    ensures !Hidden(p, w, hc)
  {
    hide Switch, Valid, Run, IsHeaderChar, InGeneral;
    if Hidden(p, w, hc) {
      var i: nat :| HiddenAt(p, w, hc, i);
      NatIndex(p, w, hc, i);
      StrictNeverSkips(p, w[..i], hc);
      IllegalStops(Run(p, w[..i], hc, false).p, w[i], hc);
      RunOne(p, w, i, hc, false);
      RunEnded(p, w, i + 1, hc, false);
    }
  }

  lemma FeedFed(p: Parser, fs: seq<seq<byte>>, hc: Settings)
    requires Valid(p) && !Hidden(p, Concat(fs), hc)
    ensures Unskipped(Feed(p, fs, hc)) == Run(p, Concat(fs), hc, false)
  {
    hide Switch, Valid, Run, Join, HiddenAt;
    FeedIsEqual(p, fs, hc);
  }

  // ----- numbers -----

  predicate HexDigits(s: seq<byte>) {
    forall i :: 0 <= i < |s| ==> Unhex(s[i]) != -1
  }

  /** The number with these hexadecimal digits. */
  function Hex(s: seq<byte>): nat
    requires HexDigits(s)
  {
    if |s| == 0 then 0 else 16 * Hex(s[..|s| - 1]) + Unhex(s[|s| - 1])
  }

  /** A chunk size is taken exactly if it is at most 2^64 - 17; up to there it never wraps. */
  lemma {:induction false} HexAccepted(p: Parser, s: seq<byte>, hc: Settings)
    requires Valid(p) && p.state == ChunkSizeStart && |s| > 0 && HexDigits(s)
    ensures Hex(s) <= ULLONG_MAX - 16 ==> Reads(p, s, hc, p.(state := ChunkSize, contentLength := Hex(s)), [])
    ensures Hex(s) > ULLONG_MAX - 16 ==>
              var r := Run(p, s, hc, false); r.Failed? && r.errno == INVALID_CONTENT_LENGTH
    decreases |s|
  {
    hide Valid, Unhex, Join, Switch, Run, Reads;
    var n := |s| - 1;
    assert s == s[..n] + [s[n]];
    UnhexRange(s[n]);
    if n == 0 {
      assert s[..n] == [] && Hex([]) == 0;
      HexFirst(p, s[0], hc);
    } else {
      HexAccepted(p, s[..n], hc);
      var v := Hex(s[..n]);
      if v <= ULLONG_MAX - 16 {
        HexNext(p.(state := ChunkSize, contentLength := v), s[n], hc);
        HexStep(p, s[..n], s[n], hc, v);
      } else {
        RunEnded(p, s, n, hc, false);
      }
    }
  }

  lemma HexFirst(p: Parser, ch: byte, hc: Settings)
    requires Valid(p) && p.state == ChunkSizeStart && Unhex(ch) != -1
    ensures Reads(p, [ch], hc, p.(state := ChunkSize, contentLength := Unhex(ch)), [])
  {
    hide Valid, Unhex, Join, Run, Reads;
    assert Switch(p, false, ch, hc) == OnChunkSizeStart(p, ch);
    hide Switch;
    ReadsByte(p, ch, hc);
  }

  lemma HexNext(q: Parser, ch: byte, hc: Settings)
    requires q.state == ChunkSize && Unhex(ch) != -1
    ensures 16 * q.contentLength + Unhex(ch) <= ULLONG_MAX - 16 ==>
              Switch(q, false, ch, hc) == Go(q.(contentLength := 16 * q.contentLength + Unhex(ch)))
    ensures 16 * q.contentLength + Unhex(ch) > ULLONG_MAX - 16 ==>
              Switch(q, false, ch, hc) == Stop(q, INVALID_CONTENT_LENGTH)
  {
    UnhexRange(ch);
    assert Unhex(CR) == -1;
    hide Unhex;
    assert Switch(q, false, ch, hc) == OnChunkSize(q, ch);
  }

  lemma HexStep(p: Parser, s: seq<byte>, ch: byte, hc: Settings, v: nat)
    requires Unhex(ch) != -1 && var q := p.(state := ChunkSize, contentLength := v); Reads(p, s, hc, q, [])
    ensures
      var q := p.(state := ChunkSize, contentLength := v);
      var t := 16 * v + Unhex(ch);
      && (t <= ULLONG_MAX - 16 ==> t >= 0 && Reads(p, s + [ch], hc, q.(contentLength := t), []))
      && (t > ULLONG_MAX - 16 ==> Run(p, s + [ch], hc, false) == Failed(INVALID_CONTENT_LENGTH, |s|))
  {
    hide Valid, Unhex, Join, Switch, ByteEvents;
    var q := p.(state := ChunkSize, contentLength := v);
    UnhexRange(ch);
    HexNext(q, ch, hc);
    if 16 * v + Unhex(ch) <= ULLONG_MAX - 16 {
      ReadsKeeps(p, s, hc, q, []);
      ReadsByte(q, ch, hc);
      EventsOf(Body, ChunkComplete, ch);
      ThenOn(p, s, q, [ch], q.(contentLength := 16 * v + Unhex(ch)), [], hc);
    } else {
      StrictNeverSkips(p, s, hc);
      assert (s + [ch])[..|s|] == s;
    }
  }

  // ----- one chunk -----

  /** A chunk on the wire: its size in hexadecimal, an extension or nothing, its data. */
  datatype Chunk = Chunk(size: seq<byte>, extension: seq<byte>, data: seq<byte>)

  predicate SizeLine(size: seq<byte>, extension: seq<byte>, n: nat) {
    && |size| > 0 && HexDigits(size) && Hex(size) == n <= ULLONG_MAX - 16
    && (|extension| > 0 ==> extension[0] == ';' as int || extension[0] == SP)
    && CR !in extension
  }

  predicate WellFormed(c: Chunk) {
    SizeLine(c.size, c.extension, |c.data|) && |c.data| > 0
  }

  function Encode(c: Chunk): seq<byte> {
    c.size + c.extension + [CR, LF] + c.data + [CR, LF]
  }

  lemma ExtensionBegins(p: Parser, ch: byte, hc: Settings)
    requires p.state == ChunkSize && (ch == ';' as int || ch == SP)
    ensures Switch(p, false, ch, hc) == Go(p.(state := ChunkParameters))
  {
    assert Switch(p, false, ch, hc) == OnChunkSize(p, ch);
  }

  lemma ExtensionGoesOn(p: Parser, ch: byte, hc: Settings)
    requires p.state == ChunkParameters && ch != CR
    ensures Switch(p, false, ch, hc) == Go(p)
  {
  }

  lemma LineEnds(p: Parser, hc: Settings)
    requires p.state == ChunkSize || p.state == ChunkParameters
    ensures Switch(p, false, CR, hc) == Go(p.(state := ChunkSizeAlmostDone))
  {
  }

  lemma LineEnded(p: Parser, hc: Settings)
    requires p.state == ChunkSizeAlmostDone
    ensures Switch(p, false, LF, hc) ==
              Micro(Announced(p, p.contentLength), [Fire(ChunkHeader(p.contentLength))], Next, true)
  {
  }

  lemma {:induction false} Extension(p: Parser, s: seq<byte>, hc: Settings)
    requires Valid(p) && p.state == ChunkSize && |s| > 0 && CR !in s && (s[0] == ';' as int || s[0] == SP)
    ensures Reads(p, s, hc, p.(state := ChunkParameters), [])
    decreases |s|
  {
    hide Valid, Join, Run, Reads, Switch, ByteEvents;
    var n := |s| - 1;
    assert s == s[..n] + [s[n]];
    EventsOf(Body, ChunkComplete, s[n]);
    if n == 0 {
      assert s == [s[0]];
      ExtensionBegins(p, s[0], hc);
      ReadsByte(p, s[0], hc);
    } else {
      Extension(p, s[..n], hc);
      var q := p.(state := ChunkParameters);
      ReadsKeeps(p, s[..n], hc, q, []);
      ExtensionGoesOn(q, s[n], hc);
      ReadsByte(q, s[n], hc);
      ThenOn(p, s[..n], q, [s[n]], q, [], hc);
    }
  }

  /** The line of a chunk: afterwards its data, or the trailer after the last chunk. */
  function Announced(p: Parser, n: nat): Parser {
    if n == 0 then p.(flags := p.flags.(trailing := true), state := HeaderFieldStart, contentLength := 0)
    else p.(state := ChunkData, contentLength := n)
  }

  lemma LineEnd(p: Parser, hc: Settings)
    requires Valid(p) && (p.state == ChunkSize || p.state == ChunkParameters)
    ensures Reads(p, [CR, LF], hc, Announced(p, p.contentLength), [ChunkHeader(p.contentLength)])
  {
    hide Valid, Reads, Switch;
    var q := p.(state := ChunkSizeAlmostDone);
    LineEnds(p, hc);
    Quiet(p, CR, q, hc);
    LineEnded(q, hc);
    Fires(q, LF, Announced(p, p.contentLength), ChunkHeader(p.contentLength), hc);
    ThenOn(p, [CR], q, [LF], Announced(p, p.contentLength), [ChunkHeader(p.contentLength)], hc);
    assert [CR as byte] + [LF] == [CR, LF];
  }

  lemma Line(p: Parser, size: seq<byte>, extension: seq<byte>, n: nat, hc: Settings)
    requires Valid(p) && p.state == ChunkSizeStart && SizeLine(size, extension, n)
    ensures Reads(p, size + extension + [CR, LF], hc, Announced(p, n), [ChunkHeader(n)])
  {
    hide Valid, Join, Run, Reads, Switch, HexDigits, Hex;
    HexAccepted(p, size, hc);
    var q := p.(state := ChunkSize, contentLength := n);
    ReadsKeeps(p, size, hc, q, []);
    if |extension| > 0 {
      Extension(q, extension, hc);
      var r := q.(state := ChunkParameters);
      ThenOn(p, size, q, extension, r, [], hc);
      ReadsKeeps(q, extension, hc, r, []);
      LineEnd(r, hc);
      ThenOn(p, size + extension, r, [CR, LF], Announced(p, n), [ChunkHeader(n)], hc);
    } else {
      assert size + extension == size;
      LineEnd(q, hc);
      ThenOn(p, size, q, [CR, LF], Announced(p, n), [ChunkHeader(n)], hc);
    }
  }

  /** The data of a chunk. */
  lemma ChunkByte(q: Parser, ch: byte, hc: Settings)
    requires q.state == ChunkData && q.contentLength > 0
    ensures
      var left := q.contentLength - 1;
      Switch(q, false, ch, hc) ==
        Micro(q.(contentLength := left, state := if left == 0 then ChunkDataAlmostDone else ChunkData), [Mark(Body)], Next)
  {
  }

  lemma {:induction false} ChunkBytes(p: Parser, d: seq<byte>, hc: Settings)
    requires Valid(p) && p.state == ChunkData && 0 < |d| <= p.contentLength
    ensures
      var left := p.contentLength - |d|;
      Reads(p, d, hc, p.(contentLength := left, state := if left == 0 then ChunkDataAlmostDone else ChunkData), [Data(Body, d)])
    decreases |d|
  {
    hide Valid, Reads, Switch;
    var n, left := |d| - 1, p.contentLength - |d|;
    assert d == d[..n] + [d[n]];
    var q := p.(contentLength := p.contentLength - n);
    var r := q.(contentLength := left, state := if left == 0 then ChunkDataAlmostDone else ChunkData);
    ChunkByte(q, d[n], hc);
    if n == 0 {
      assert d == [d[0]];
      DataFirst(q, Body, d[n], r, hc);
    } else {
      ChunkBytes(p, d[..n], hc);
      ReadsKeeps(p, d[..n], hc, q, [Data(Body, d[..n])]);
      DataFirst(q, Body, d[n], r, hc);
      var none: seq<Event> := [];
      assert none + [Data(Body, d[..n])] == [Data(Body, d[..n])] && none + [Data(Body, d)] == [Data(Body, d)];
      ThenMore(p, d[..n], q, none, Body, d[..n], [d[n]], r, [d[n]], hc);
    }
  }

  lemma ChunkEnding(p: Parser, hc: Settings)
    requires p.state == ChunkDataAlmostDone
    ensures Switch(p, false, CR, hc) == Micro(p.(state := ChunkDataDone), [Flush(Body, false)], Next)
  {
  }

  lemma ChunkEnded(p: Parser, hc: Settings)
    requires p.state == ChunkDataDone
    ensures Switch(p, false, LF, hc) == Micro(p.(state := ChunkSizeStart), [Fire(ChunkComplete)], Next, true)
  {
  }

  lemma ChunkEnds(p: Parser, hc: Settings)
    requires Valid(p) && p.state == ChunkDataAlmostDone
    ensures Reads(p, [CR, LF], hc, p.(state := ChunkSizeStart), [ChunkComplete])
  {
    hide Valid, Reads, ByteEvents, Switch;
    var q := p.(state := ChunkDataDone);
    ChunkEnding(p, hc);
    ReadsByte(p, CR, hc);
    EventsOf(Body, ChunkComplete, CR);
    ChunkEnded(q, hc);
    Fires(q, LF, p.(state := ChunkSizeStart), ChunkComplete, hc);
    ThenOn(p, [CR], q, [LF], p.(state := ChunkSizeStart), [ChunkComplete], hc);
    assert [CR as byte] + [LF] == [CR, LF];
  }

  function ChunkEvents(c: Chunk): seq<Event> {
    [ChunkHeader(|c.data|), Data(Body, c.data), ChunkComplete]
  }

  lemma OneChunk(p: Parser, c: Chunk, hc: Settings)
    requires Valid(p) && p.state == ChunkSizeStart && WellFormed(c)
    ensures Reads(p, Encode(c), hc, p.(contentLength := 0), ChunkEvents(c))
  {
    hide Valid, Join, Run, Reads, SizeLine;
    var n := |c.data|;
    var q, r := Announced(p, n), p.(contentLength := 0, state := ChunkDataAlmostDone);
    var line := c.size + c.extension + [CR, LF];
    Line(p, c.size, c.extension, n, hc);
    ReadsKeeps(p, line, hc, q, [ChunkHeader(n)]);
    ChunkBytes(q, c.data, hc);
    Then(p, line, q, [ChunkHeader(n)], c.data, r, [Data(Body, c.data)], hc);
    ReadsKeeps(q, c.data, hc, r, [Data(Body, c.data)]);
    ChunkEnds(r, hc);
    Then(p, line + c.data, r, [ChunkHeader(n)] + [Data(Body, c.data)], [CR, LF], p.(contentLength := 0), [ChunkComplete], hc);
    assert [ChunkHeader(n)] + [Data(Body, c.data)] + [ChunkComplete] == ChunkEvents(c);
  }

  // ----- a chunked body -----

  function EncodeAll(cs: seq<Chunk>): seq<byte> {
    if |cs| == 0 then [] else Encode(cs[0]) + EncodeAll(cs[1..])
  }

  function AllEvents(cs: seq<Chunk>): seq<Event> {
    if |cs| == 0 then [] else ChunkEvents(cs[0]) + AllEvents(cs[1..])
  }

  function AllData(cs: seq<Chunk>): seq<byte> {
    if |cs| == 0 then [] else cs[0].data + AllData(cs[1..])
  }

  lemma {:induction false} Chunks(p: Parser, cs: seq<Chunk>, hc: Settings)
    requires Valid(p) && p.state == ChunkSizeStart && forall i :: 0 <= i < |cs| ==> WellFormed(cs[i])
    ensures Reads(p, EncodeAll(cs), hc, if cs == [] then p else p.(contentLength := 0), AllEvents(cs))
    decreases |cs|
  {
    hide Valid, Join, Run, Reads, WellFormed, ChunkEvents, Encode;
    if |cs| == 0 {
      ReadsNothing(p, hc);
    } else {
      var q := p.(contentLength := 0);
      OneChunk(p, cs[0], hc);
      ReadsKeeps(p, Encode(cs[0]), hc, q, ChunkEvents(cs[0]));
      Chunks(q, cs[1..], hc);
      Then(p, Encode(cs[0]), q, ChunkEvents(cs[0]), EncodeAll(cs[1..]), q, AllEvents(cs[1..]), hc);
    }
  }

  /** A message has been read to its end from p: what the outcome is. */
  ghost predicate Completes(r: Outcome, p: Parser, es: seq<Event>, n: nat) {
    var q := p.(state := NewMessage(p));
    Meaning(r) == Meaning(if p.upgrade then Upgraded(q, es + [MessageComplete], n) else Running(q, false, es + [MessageComplete]))
  }

  /** The end of a message, read after other bytes. */
  lemma ThenCompletes(p: Parser, a: seq<byte>, q: Parser, es: seq<Event>, b: seq<byte>, r: Parser, fs: seq<Event>, hc: Settings)
    requires Reads(p, a, hc, q, es) && Valid(q) && Completes(Run(q, b, hc, false), r, fs, |b|)
    ensures Completes(Run(p, a + b, hc, false), r, es + fs, |a| + |b|)
  {
    hide Valid, Join, Run, NewMessage;
    StrictConcat(p, a, b, hc);
    var before, after := Run(p, a, hc, false).events, Run(q, b, hc, false).events;
    JoinBoth(before, es, after, fs + [MessageComplete]);
    assert es + fs + [MessageComplete] == es + (fs + [MessageComplete]);
  }

  /** The last byte of a trailer. */
  lemma HeadEndSwitch(p: Parser, hc: Settings)
    requires p.state == HeadersAlmostDone
    ensures Switch(p, false, LF, hc) == OnHeadersAlmostDone(p, LF, hc)
  {
  }

  lemma TrailerSwitch(p: Parser, hc: Settings)
    requires p.state == HeadersAlmostDone && p.flags.trailing
    ensures
      var m := Switch(p, false, LF, hc);
      && m.p == p.(state := NewMessage(p)) && m.fin == (if p.upgrade then Exit else Next)
      && m.ops == [Fire(ChunkComplete), Fire(MessageComplete)]
  {
    HeadEndSwitch(p, hc);
    hide Switch, NewMessage;
    NewMessageIgnoresState(p.(state := MessageDone), p);
  }

  lemma TrailerEnds(p: Parser, w: seq<byte>, es: seq<Event>, q: Parser, hc: Settings)
    requires Reads(p, w, hc, q, es) && q.state == HeadersAlmostDone && q.flags.trailing
    ensures Completes(Run(p, w + [LF], hc, false), q, es + [ChunkComplete], |w| + 1)
  {
    hide Valid, Join, Switch, NewMessage, ByteEvents;
    TrailerSwitch(q, hc);
    StrictNeverSkips(p, w, hc);
    assert (w + [LF])[..|w|] == w;
    var events := Run(p, w, hc, false).events;
    TwoEvents(ChunkComplete, MessageComplete, LF);
    JoinCongruent(events, es, [ChunkComplete, MessageComplete]);
    assert es + [ChunkComplete] + [MessageComplete] == es + [ChunkComplete, MessageComplete];
  }

  lemma TwoEvents(e: Event, f: Event, ch: byte)
    ensures ByteEvents(None, [Fire(e), Fire(f)], ch) == [e, f]
  {
    assert [Fire(e), Fire(f)][1..] == [Fire(f)];
    EventsOf(Body, f, ch);
  }

  lemma CompletesAnyState(r: Outcome, p: Parser, q: Parser, es: seq<Event>, n: nat)
    requires p == q.(state := p.state) && Completes(r, p, es, n)
    ensures Completes(r, q, es, n)
  {
    hide Join;
    NewMessageIgnoresState(p, q);
  }

  lemma NewMessageIgnoresState(p: Parser, q: Parser)
    requires p == q.(state := p.state)
    ensures NewMessage(p) == NewMessage(q)
  {
  }

  // ----- what the application sees -----

  /** The body bytes handed over, and how many messages were completed. */
  function BodyOf(es: seq<Event>): seq<byte> {
    if |es| == 0 then []
    else
      var e := es[|es| - 1];
      BodyOf(es[..|es| - 1]) + if e.Data? && e.kind == Body then e.bytes else []
  }

  function Completed(es: seq<Event>): nat {
    if |es| == 0 then 0
    else Completed(es[..|es| - 1]) + if es[|es| - 1].MessageComplete? then 1 else 0
  }

  lemma SeenOne(a: seq<Event>, e: Event)
    ensures BodyOf(a + [e]) == BodyOf(a) + if e.Data? && e.kind == Body then e.bytes else []
    ensures Completed(a + [e]) == Completed(a) + if e.MessageComplete? then 1 else 0
  {
    assert (a + [e])[..|a|] == a;
  }

  /** Joining hides nothing. */
  lemma {:induction false} SeenJoined(es: seq<Event>)
    ensures BodyOf(Join(es)) == BodyOf(es) && Completed(Join(es)) == Completed(es)
    decreases |es|
  {
    if |es| > 0 {
      var n := |es| - 1;
      var j, e := Join(es[..n]), es[n];
      SeenJoined(es[..n]);
      hide BodyOf, Completed;
      assert es == es[..n] + [e];
      SeenOne(es[..n], e);
      SeenAppended(j, e);
    }
  }

  lemma SeenAppended(j: seq<Event>, e: Event)
    ensures
      var k := Joined(j, e);
      && BodyOf(k) == BodyOf(j) + (if e.Data? && e.kind == Body then e.bytes else [])
      && Completed(k) == Completed(j) + if e.MessageComplete? then 1 else 0
  {
    hide BodyOf, Completed;
    if |j| > 0 && j[|j| - 1].Data? && e.Data? && j[|j| - 1].kind == e.kind {
      var m := |j| - 1;
      var x, y := j[m].bytes, e.bytes;
      assert j == j[..m] + [j[m]];
      SeenOne(j[..m], j[m]);
      SeenOne(j[..m], Data(e.kind, x + y));
      assert BodyOf(j[..m]) + (x + y) == BodyOf(j[..m]) + x + y;
      assert BodyOf(j[..m]) + [] == BodyOf(j[..m]);
    } else {
      SeenOne(j, e);
    }
  }

  lemma {:induction false} SeenConcat(a: seq<Event>, b: seq<Event>)
    ensures BodyOf(a + b) == BodyOf(a) + BodyOf(b) && Completed(a + b) == Completed(a) + Completed(b)
    decreases |b|
  {
    if |b| == 0 {
      assert a + b == a;
    } else {
      var n := |b| - 1;
      assert b == b[..n] + [b[n]];
      assert a + b == (a + b[..n]) + [b[n]];
      SeenConcat(a, b[..n]);
      SeenOne(a + b[..n], b[n]);
      SeenOne(b[..n], b[n]);
    }
  }

  lemma SeenChunk(c: Chunk)
    ensures BodyOf(ChunkEvents(c)) == c.data && Completed(ChunkEvents(c)) == 0
  {
    var none: seq<Event> := [];
    SeenOne(none, ChunkHeader(|c.data|));
    SeenOne([ChunkHeader(|c.data|)], Data(Body, c.data));
    SeenOne([ChunkHeader(|c.data|), Data(Body, c.data)], ChunkComplete);
    assert none + [ChunkHeader(|c.data|)] == [ChunkHeader(|c.data|)];
    assert [ChunkHeader(|c.data|)] + [Data(Body, c.data)] == [ChunkHeader(|c.data|), Data(Body, c.data)];
    assert [ChunkHeader(|c.data|), Data(Body, c.data)] + [ChunkComplete] == ChunkEvents(c);
    assert BodyOf(none) == [] && [] + c.data == c.data;
  }

  lemma {:induction false} SeenChunks(cs: seq<Chunk>)
    ensures BodyOf(AllEvents(cs)) == AllData(cs) && Completed(AllEvents(cs)) == 0
  {
    if |cs| > 0 {
      SeenChunks(cs[1..]);
      hide BodyOf, Completed;
      SeenConcat(ChunkEvents(cs[0]), AllEvents(cs[1..]));
      SeenChunk(cs[0]);
    }
  }

  /** A message read to its end byte by byte is delivered the same however it is cut. */
  lemma Delivered(p: Parser, w: seq<byte>, q: Parser, es: seq<Event>, hc: Settings, fs: seq<seq<byte>>)
    requires Valid(p) && Completes(Run(p, w, hc, false), q, es, |w|) && Concat(fs) == w
    ensures
      var r := Feed(p, fs, hc);
      && !r.Failed? && (r.Upgraded? <==> q.upgrade) && r.p == q.(state := NewMessage(q))
      && Join(r.events) == Join(es + [MessageComplete])
      && BodyOf(r.events) == BodyOf(es) && Completed(r.events) == Completed(es) + 1
  {
    hide Valid, Join, Run, Switch, NewMessage, Hidden, BodyOf, Completed, HiddenAt;
    AcceptedIsNotHidden(p, w, hc);
    FeedFed(p, fs, hc);
    SeenJoined(Feed(p, fs, hc).events);
    SeenJoined(es + [MessageComplete]);
    SeenOne(es, MessageComplete);
    assert BodyOf(es) + [] == BodyOf(es);
  }

  // ----- a body with a length -----

  lemma IdentitySwitch(p: Parser, ch: byte, hc: Settings)
    requires p.state == BodyIdentity && p.contentLength > 0
    ensures
      var m := Switch(p, false, ch, hc);
      if p.contentLength > 1 then m == Micro(p.(contentLength := p.contentLength - 1), [Mark(Body)], Next)
      else
        var q := p.(contentLength := 0);
        && m.p == q.(state := NewMessage(q)) && m.fin == (if q.upgrade then Exit else Next)
        && m.ops == [Mark(Body), Flush(Body, true), Fire(MessageComplete)]
  {
    assert Switch(p, false, ch, hc) == OnBodyIdentity(p);
    NewMessageIgnoresState(p.(contentLength := 0, state := MessageDone), p.(contentLength := 0));
  }

  lemma {:induction false} IdentityBytes(p: Parser, d: seq<byte>, hc: Settings)
    requires Valid(p) && p.state == BodyIdentity && 0 < |d| < p.contentLength
    ensures Reads(p, d, hc, p.(contentLength := p.contentLength - |d|), [Data(Body, d)])
    decreases |d|
  {
    hide Valid, Run, Reads, Switch, ByteEvents;
    var n := |d| - 1;
    assert d == d[..n] + [d[n]];
    var q := p.(contentLength := p.contentLength - n);
    if n == 0 {
      assert d == [d[0]];
    } else {
      IdentityBytes(p, d[..n], hc);
      ReadsKeeps(p, d[..n], hc, q, [Data(Body, d[..n])]);
    }
    IdentitySwitch(q, d[n], hc);
    ReadsByte(q, d[n], hc);
    EventsOf(Body, ChunkComplete, d[n]);
    if n > 0 {
      var none: seq<Event> := [];
      assert forall x :: none + [Data(Body, x)] == [Data(Body, x)];
      ThenMore(p, d[..n], q, none, Body, d[..n], [d[n]], q.(contentLength := q.contentLength - 1), [d[n]], hc);
    }
  }

  lemma LastEvents(ch: byte)
    ensures ByteEvents(None, [Mark(Body), Flush(Body, true), Fire(MessageComplete)], ch) == [Data(Body, [ch]), MessageComplete]
  {
    var ops := [Mark(Body), Flush(Body, true), Fire(MessageComplete)];
    assert ops[1..] == [Flush(Body, true), Fire(MessageComplete)];
    assert ops[1..][1..] == [Fire(MessageComplete)];
    EventsOf(Body, MessageComplete, ch);
  }

  lemma IdentityLast(p: Parser, w: seq<byte>, q: Parser, ch: byte, hc: Settings)
    requires q.state == BodyIdentity && q.contentLength == 1
    requires Reads(p, w, hc, q, if w == [] then [] else [Data(Body, w)])
    ensures Completes(Run(p, w + [ch], hc, false), q.(contentLength := 0), [Data(Body, w + [ch])], |w| + 1)
  {
    hide Valid, Join, Switch, NewMessage, ByteEvents;
    IdentitySwitch(q, ch, hc);
    StrictNeverSkips(p, w, hc);
    assert (w + [ch])[..|w|] == w;
    LastEvents(ch);
    var events, es := Run(p, w, hc, false).events, if w == [] then [] else [Data(Body, w)];
    JoinCongruent(events, es, [Data(Body, [ch]), MessageComplete]);
    if w == [] {
      assert es + [Data(Body, [ch]), MessageComplete] == [Data(Body, w + [ch])] + [MessageComplete];
    } else {
      var none: seq<Event> := [];
      JoinPair(none, Body, w, [ch]);
      assert none + [Data(Body, w)] + [Data(Body, [ch])] == es + [Data(Body, [ch])];
      assert none + [Data(Body, w + [ch])] == [Data(Body, w + [ch])];
      JoinCongruent(es + [Data(Body, [ch])], [Data(Body, w + [ch])], [MessageComplete]);
      assert es + [Data(Body, [ch]), MessageComplete] == es + [Data(Body, [ch])] + [MessageComplete];
    }
  }

  lemma SomethingLeft(p: Parser)
    requires Valid(p) && p.state == BodyIdentity
    ensures p.contentLength > 0
  {
  }

  lemma IdentityRead(p: Parser, d: seq<byte>, hc: Settings)
    requires Valid(p) && p.state == BodyIdentity && |d| == p.contentLength
    ensures Completes(Run(p, d, hc, false), p.(contentLength := 0), [Data(Body, d)], |d|)
  {
    hide Valid, Join, Run, Reads, Switch, NewMessage, Completes;
    SomethingLeft(p);
    var n := |d| - 1;
    assert d == d[..n] + [d[n]];
    if n == 0 {
      ReadsNothing(p, hc);
      assert d[..n] == [];
    } else {
      IdentityBytes(p, d[..n], hc);
    }
    IdentityLast(p, d[..n], p.(contentLength := 1), d[n], hc);
  }

  /** A body of exactly content_length bytes, however it is cut into calls. */
  lemma IdentityDelivery(p: Parser, d: seq<byte>, hc: Settings, fs: seq<seq<byte>>)
    requires Valid(p) && p.state == BodyIdentity && |d| == p.contentLength && Concat(fs) == d
    ensures
      var r, q := Feed(p, fs, hc), p.(contentLength := 0);
      && !r.Failed? && (r.Upgraded? <==> p.upgrade) && r.p == q.(state := NewMessage(q))
      && Join(r.events) == Join([Data(Body, d)] + [MessageComplete])
      && BodyOf(r.events) == d && Completed(r.events) == 1
  {
    hide Valid, Join, Run, Reads, Switch, NewMessage, BodyOf, Completed, Completes, Feed;
    IdentityRead(p, d, hc);
    Delivered(p, d, p.(contentLength := 0), [Data(Body, d)], hc, fs);
    SeenBody(d);
  }

  lemma SeenBody(d: seq<byte>)
    ensures BodyOf([Data(Body, d)]) == d && Completed([Data(Body, d)]) == 0
  {
    var none: seq<Event> := [];
    SeenOne(none, Data(Body, d));
    assert none + [Data(Body, d)] == [Data(Body, d)];
    assert BodyOf(none) == [] && [] + d == d;
  }
}
