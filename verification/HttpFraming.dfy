/** From the headers that frame a message to its body: Content-Length and Transfer-Encoding,
    found by name anywhere in a head, and the bytes that are delivered because of them. */
module HttpFraming {
  import opened Common
  import opened HttpTypes
  import opened HttpSwitch
  import opened HttpInvariant
  import opened HttpSpec
  import opened HttpFragment
  import opened HttpBody
  import opened HttpTrailer
  import opened HttpLength
  import opened HttpNames
  import opened HttpHeaders
  import opened HttpCoding
  import opened HttpHead

  // ----- a field somewhere in a head -----

  /** The bytes of a head around a field: what stands before it, its name, the spaces after
      the colon, its value and what stands after it. */
  datatype HeaderAt = HeaderAt(before: seq<byte>, name: seq<byte>, spaces: seq<byte>, value: seq<byte>, after: seq<byte>)

  function Key(f: HeaderAt): seq<byte> {
    (f.name + [':' as int]) + f.spaces
  }

  function Head(f: HeaderAt): seq<byte> {
    f.before + Key(f) + f.value
  }

  function Whole(f: HeaderAt): seq<byte> {
    Head(f) + f.after
  }

  /** A field with that name, in any mixture of cases, where a field may begin. */
  ghost predicate FieldIn(p: Parser, f: HeaderAt, word: string, hc: Settings)
    requires Valid(p)
  {
    && |f.name| > 0 && AllTokens(f.name) && Spells(Lowered(f.name), word) && Spaces(f.spaces)
    && Run(p, f.before, hc, false).Running? && FieldStart(Run(p, f.before, hc, false).p.state)
  }

  /** The record after the name and the spaces. */
  lemma KeyRead(p: Parser, f: HeaderAt, word: string, hc: Settings) returns (q: Parser)
    requires Valid(p) && FieldIn(p, f, word, hc)
    ensures Valid(q) && Run(p, f.before + Key(f), hc, false).Running? && Run(p, f.before + Key(f), hc, false).p == q
    ensures q.state == HeaderValueDiscardWs && Named(q.headerState, Lowered(f.name))
    ensures Rises(Run(p, f.before, hc, false).p, q)
  {
    hide Valid, Switch, Run, Reads, Named, Lowered, AllTokens, Spaces, Spells;
    var b := Run(p, f.before, hc, false).p;
    var s := Settled(b);
    SettledValid(b);
    q := HeaderNameExact(s, f.name, hc);
    SpacesSkipped(q, f.spaces, hc);
    Then(s, f.name + [':' as int], q, [Data(Field, f.name)], f.spaces, q, [], hc);
    ReadsRun(s, Key(f), hc, q, [Data(Field, f.name)] + []);
    TokenFirst(f.name);
    SettledRun(b, Key(f), hc);
    StrictConcat(p, f.before, Key(f), hc);
    SetFlagMoves(b);
    hide SetHeaderFlag, FlagsRise;
    MovesSelf(b);
  }

  lemma TokenFirst(name: seq<byte>)
    requires |name| > 0 && AllTokens(name)
    ensures name[0] != SP && name[0] != TAB
  {
    NoSpaceToken(name[0]);
  }

  /** A Content-Length field with all its digits. */
  ghost predicate LengthField(p: Parser, f: HeaderAt, hc: Settings)
    requires Valid(p)
  {
    FieldIn(p, f, CONTENT_LENGTH, hc) && |f.value| > 0 && Digits(f.value) && |f.after| > 0 && !IsNum(f.after[0])
  }

  /** A line end and the first byte of the next line, which does not go on with this one. */
  predicate LineOver(w: seq<byte>) {
    if |w| > 0 && w[0] == CR then |w| > 2 && w[1] == LF && w[2] != SP && w[2] != TAB
    else |w| > 1 && w[0] == LF && w[1] != SP && w[1] != TAB
  }

  /** A Transfer-Encoding field that says "chunked". */
  ghost predicate ChunkedField(p: Parser, f: HeaderAt, hc: Settings)
    requires Valid(p)
  {
    FieldIn(p, f, TRANSFER_ENCODING, hc) && SaysChunked(f.value) && LineOver(f.after)
  }

  // ----- what a length field leaves -----

  lemma NumberEnds(q: Parser, ch: byte, hc: Settings)
    requires q.state == HeaderValue && q.headerState == ContentLengthNum && q.flags.contentLength && !IsNum(ch)
    requires Switch(q, false, ch, hc).fin.Next?
    ensures
      var r := Switch(q, false, ch, hc).p;
      Fixed(r) && r.contentLength == q.contentLength
  {
    assert Switch(q, false, ch, hc) == OnHeaderValue(q, ch, false, hc);
    hide Switch, IsHeaderChar;
  }

  lemma NumberRead(q: Parser, s: seq<byte>, hc: Settings)
    requires Valid(q) && q.state == HeaderValueDiscardWs && q.headerState == ContentLength && |s| > 0 && Digits(s)
    requires Run(q, s, hc, false).Running?
    ensures !q.flags.contentLength && Decimal(s) <= LONGEST && Run(q, s, hc, false).p == Measured(q, Decimal(s))
  {
    hide Valid, Switch, Run, Reads, Decimal;
    if q.flags.contentLength {
      assert IsNum(s[0]);
      SecondLength(q, s[0], hc);
      assert s[..1] == [s[0]];
      PrefixRuns(q, s, hc, 1);
    } else {
      LengthAccepted(q, s, hc);
      if Decimal(s) <= LONGEST {
        ReadsRun(q, s, hc, Measured(q, Decimal(s)), [Data(Value, s)]);
      }
    }
  }

  /** The field up to the byte after its number. */
  lemma LengthRead(p: Parser, f: HeaderAt, hc: Settings)
    requires Valid(p) && LengthField(p, f, hc) && Run(p, Head(f) + [f.after[0]], hc, false).Running?
    ensures
      var a := Run(p, Head(f) + [f.after[0]], hc, false).p;
      Fixed(a) && Decimal(f.value) <= LONGEST && a.contentLength == Decimal(f.value)
  {
    hide Valid, Switch, Run, Reads, Decimal, Key, Fixed, FieldIn, Named, Lowered, Digits, ByteEvents;
    var q := KeyRead(p, f, CONTENT_LENGTH, hc);
    NamedLength(p, f, q, hc);
    StrictConcat(p, f.before + Key(f), f.value, hc);
    StrictConcat(p, Head(f), [f.after[0]], hc);
    NumberRead(q, f.value, hc);
    var a := Measured(q, Decimal(f.value));
    OneByte(a, f.after[0], hc);
    NumberEnds(a, f.after[0], hc);
  }

  /** A length field anywhere in a head: at the end of the head the length is its number. */
  lemma LengthKept(p: Parser, w: seq<byte>, hc: Settings, r: Parser, es: seq<Event>, f: HeaderAt)
    requires Fields(p, w, hc, r, es)
    requires Valid(p) && LengthField(p, f, hc) && w == Whole(f)
    ensures r.flags.contentLength && Decimal(f.value) <= LONGEST && r.contentLength == Decimal(f.value)
  {
    hide Valid, Switch, Run, Reads, Decimal, Fields, Key, Fixed, Moves, FieldIn, Digits;
    var n := |Head(f)|;
    assert w[..n + 1] == Head(f) + [f.after[0]] && w[..|w|] == w;
    FieldsRun(p, w, hc, r, es);
    PrefixMoves(p, w, hc, r, es, n + 1, |w|);
    LengthRead(p, f, hc);
    FixedMeans(Run(p, w[..n + 1], hc, false).p, r);
  }

  lemma NamedLength(p: Parser, f: HeaderAt, q: Parser, hc: Settings)
    requires Valid(p) && FieldIn(p, f, CONTENT_LENGTH, hc) && Named(q.headerState, Lowered(f.name))
    ensures q.headerState == ContentLength
  {
    hide Valid, Run, Lowered;
  }

  lemma FixedMeans(a: Parser, r: Parser)
    requires Moves(a, r) && Fixed(a)
    ensures Fixed(r) && r.flags.contentLength && r.contentLength == a.contentLength
  {
    hide Rises;
  }

  // ----- what a coding field leaves -----

  lemma NamedCoding(p: Parser, f: HeaderAt, q: Parser, hc: Settings)
    requires Valid(p) && FieldIn(p, f, TRANSFER_ENCODING, hc) && Named(q.headerState, Lowered(f.name))
    ensures q.headerState == TransferEncoding
  {
    hide Valid, Run, Lowered;
  }

  lemma CodingRead(q: Parser, v: seq<byte>, hc: Settings)
    requires Valid(q) && q.state == HeaderValueDiscardWs && q.headerState == TransferEncoding && SaysChunked(v)
    ensures
      var o := Run(q, v, hc, false);
      o.Running? && Valid(o.p) && o.p.state == HeaderValue && o.p.headerState == TransferEncodingChunked
  {
    hide Valid, Switch, Run, Reads, SaysChunked, Text;
    ChunkedText(v, hc);
    var r := CodingExact(q, v, hc);
    ReadsRun(q, v, hc, r, [Data(Value, v)]);
    ReadsKeeps(q, v, hc, r, [Data(Value, v)]);
  }

  lemma LineFeed(q: Parser, hc: Settings)
    requires q.state == HeaderValue
    ensures
      var m := Switch(q, false, LF, hc);
      m.fin.Next? && m.p == q.(state := HeaderValueLws)
  {
    assert Switch(q, false, LF, hc) == OnHeaderValue(q, LF, false, hc);
  }

  /** The line end after a value, of one byte or two. */
  lemma ValueLineEnds(q: Parser, line: seq<byte>, hc: Settings)
    requires Valid(q) && q.state == HeaderValue && (line == [LF] || line == [CR, LF])
    ensures
      var o := Run(q, line, hc, false);
      o.Running? && Valid(o.p) && o.p == q.(state := HeaderValueLws)
  {
    hide Valid, Switch, Run;
    if line == [LF] {
      LineFeed(q, hc);
      OneByte(q, LF, hc);
    } else {
      var r := q.(state := HeaderAlmostDone);
      ValueEnds(q, hc);
      OneByte(q, CR, hc);
      HttpLength.LineEnded(r, hc);
      OneByte(r, LF, hc);
      assert line == [CR] + [LF];
      StrictConcat(q, [CR], [LF], hc);
    }
  }

  lemma FlagNoted(q: Parser, ch: byte, hc: Settings)
    requires q.state == HeaderValueLws && q.headerState == TransferEncodingChunked && ch != SP && ch != TAB
    requires StaysIn(q, Switch(q, false, ch, hc))
    ensures Switch(q, false, ch, hc).p.flags.chunked
  {
    assert Switch(q, false, ch, hc) == OnHeaderValueLws(q, ch, hc);
    hide Switch, OnHeaderFieldStart;
    FieldStartQuiet(SetHeaderFlag(q).(state := HeaderFieldStart), ch, hc);
  }

  /** The field up to the end of its line. */
  lemma CodingLine(p: Parser, f: HeaderAt, line: seq<byte>, hc: Settings)
    requires Valid(p) && ChunkedField(p, f, hc) && (line == [LF] || line == [CR, LF])
    ensures
      var o := Run(p, Head(f) + line, hc, false);
      o.Running? && Valid(o.p) && o.p.state == HeaderValueLws && o.p.headerState == TransferEncodingChunked
  {
    hide Valid, Switch, Run, Reads, Key, FieldIn, Named, Lowered, SaysChunked;
    var q := KeyRead(p, f, TRANSFER_ENCODING, hc);
    NamedCoding(p, f, q, hc);
    CodingRead(q, f.value, hc);
    StrictConcat(p, f.before + Key(f), f.value, hc);
    StrictConcat(p, Head(f), line, hc);
    ValueLineEnds(Run(q, f.value, hc, false).p, line, hc);
  }

  /** And to the first byte of the next line, at which the flag is set. */
  lemma ChunkedRead(p: Parser, f: HeaderAt, line: seq<byte>, ch: byte, hc: Settings)
    requires Valid(p) && ChunkedField(p, f, hc) && (line == [LF] || line == [CR, LF]) && ch != SP && ch != TAB
    requires
      var o := Run(p, Head(f) + line + [ch], hc, false);
      o.Running? && (InHeader(o.p.state) || o.p.state == HeadersAlmostDone)
    ensures Run(p, Head(f) + line + [ch], hc, false).p.flags.chunked
  {
    hide Valid, Switch, Run, ChunkedField, Head, InHeader;
    CodingLine(p, f, line, hc);
    StrictConcat(p, Head(f) + line, [ch], hc);
    var b := Run(p, Head(f) + line, hc, false).p;
    OneByte(b, ch, hc);
    FlagNoted(b, ch, hc);
  }

  /** A coding field anywhere in a head: at the end of the head the message is chunked. */
  lemma ChunkedKept(p: Parser, w: seq<byte>, hc: Settings, r: Parser, es: seq<Event>, f: HeaderAt)
    requires Fields(p, w, hc, r, es)
    requires Valid(p) && ChunkedField(p, f, hc) && w == Whole(f)
    ensures r.flags.chunked
  {
    hide Valid, Switch, Run, Reads, Fields, Key, Moves, FieldIn, SaysChunked;
    var line := if f.after[0] == CR then [CR, LF] else [LF];
    var ch := f.after[|line|];
    var n := |Head(f)| + |line| + 1;
    assert w[..n] == Head(f) + line + [ch] && w[..|w|] == w;
    FieldsRun(p, w, hc, r, es);
    InHeadAt(p, w, hc, r, es, n);
    PrefixMoves(p, w, hc, r, es, n, |w|);
    ChunkedRead(p, f, line, ch, hc);
    ChunkedMeans(Run(p, w[..n], hc, false).p, r);
  }

  lemma ChunkedMeans(a: Parser, r: Parser)
    requires Moves(a, r) && a.flags.chunked
    ensures r.flags.chunked
  {
  }

  lemma FieldsRun(p: Parser, w: seq<byte>, hc: Settings, r: Parser, es: seq<Event>)
    requires Fields(p, w, hc, r, es)
    ensures Valid(p) && Run(p, w, hc, false).Running? && Run(p, w, hc, false).p == r
    ensures Valid(r) && Reads(p, w, hc, r, es) && r.state == HeadersAlmostDone
  {
    hide Valid, Run, Reads;
    ReadsRun(p, w, hc, r, es);
    ReadsKeeps(p, w, hc, r, es);
  }

  // ----- both -----

  lemma EndRefused(q: Parser, hc: Settings)
    requires q.state == HeadersAlmostDone && !q.flags.trailing && q.flags.chunked && q.flags.contentLength
    ensures Switch(q, false, LF, hc) == Stop(q, UNEXPECTED_CONTENT_LENGTH)
  {
    HeadEndSwitch(q, hc);
    hide Switch;
  }

  /** A head that has both a length field and a coding field, wherever they stand in it and in
      either order: however the message is cut, it is refused at the last byte of the head. */
  lemma BothRefused(p: Parser, w: seq<byte>, hc: Settings, r: Parser, es: seq<Event>, f: HeaderAt, g: HeaderAt,
                    more: seq<byte>, fs: seq<seq<byte>>)
    requires Fields(p, w, hc, r, es)
    requires Valid(p) && !p.flags.trailing
    requires LengthField(p, f, hc) && w == Whole(f)
    requires ChunkedField(p, g, hc) && w == Whole(g)
    requires Concat(fs) == w + [LF] + more
    ensures Feed(p, fs, hc) == Failed(UNEXPECTED_CONTENT_LENGTH, |w|)
  {
    hide Valid, Switch, Run, Reads, Fields, LengthField, ChunkedField, Whole, Decimal, Feed;
    LengthKept(p, w, hc, r, es, f);
    ChunkedKept(p, w, hc, r, es, g);
    FieldsRun(p, w, hc, r, es);
    TrailerQuiet(p, w, hc, r, es);
    EndRefused(r, hc);
    FailsAfter(p, w, r, es, LF, UNEXPECTED_CONTENT_LENGTH, hc);
    StrictConcat(p, w + [LF], more, hc);
    AcceptedIsNotHidden(p, Concat(fs), hc);
    FeedFed(p, fs, hc);
  }

  /** A head that is read to its end has one length field: a second would begin inside it. */
  lemma OneLength(p: Parser, w: seq<byte>, hc: Settings, r: Parser, es: seq<Event>, f: HeaderAt, g: HeaderAt)
    requires Fields(p, w, hc, r, es) && Valid(p)
    requires LengthField(p, f, hc) && w == Whole(f)
    requires LengthField(p, g, hc) && w == Whole(g)
    ensures |g.before| <= |Head(f)|
  {
    hide Valid, Switch, Run, Reads, Fields, Decimal, Moves, Fixed, FieldIn, Digits;
    if |g.before| > |Head(f)| {
      var n := |Head(f)| + 1;
      assert w[..n] == Head(f) + [f.after[0]] && w[..|g.before|] == g.before && w[..|Head(g)|] == Head(g);
      FieldsRun(p, w, hc, r, es);
      PrefixMoves(p, w, hc, r, es, n, |g.before|);
      LengthRead(p, f, hc);
      FixedMeans(Run(p, w[..n], hc, false).p, Run(p, g.before, hc, false).p);
      PrefixRuns(p, w, hc, |Head(g)|);
      LengthTaken(p, g, hc);
    }
  }

  /** The number of a length field is read only if no other was read before it. */
  lemma LengthTaken(p: Parser, g: HeaderAt, hc: Settings)
    requires Valid(p) && LengthField(p, g, hc) && Run(p, Head(g), hc, false).Running?
    ensures Run(p, g.before, hc, false).Running? && !Run(p, g.before, hc, false).p.flags.contentLength
  {
    hide Valid, Switch, Run, Reads, Decimal, Key, FieldIn, Named, Lowered, Digits;
    var q := KeyRead(p, g, CONTENT_LENGTH, hc);
    NamedLength(p, g, q, hc);
    FieldInRuns(p, g, CONTENT_LENGTH, hc);
    StrictConcat(p, g.before + Key(g), g.value, hc);
    NumberRead(q, g.value, hc);
  }

  lemma FieldInRuns(p: Parser, f: HeaderAt, word: string, hc: Settings)
    requires Valid(p) && FieldIn(p, f, word, hc)
    ensures Run(p, f.before, hc, false).Running?
  {
    hide Valid, Run;
  }

  // ----- whole messages -----

  /** What follows the end of a head is delivered after what the head itself fires. */
  lemma AfterHead(p: Parser, w: seq<byte>, hc: Settings, r: Parser, es: seq<Event>,
                  tail: seq<byte>, q: Parser, ts: seq<Event>, fs: seq<seq<byte>>)
    requires Fields(p, w, hc, r, es) && Valid(p) && Valid(r)
    requires Completes(Run(r, tail, hc, false), q, ts, |tail|) && Concat(fs) == w + tail
    ensures
      var o := Feed(p, fs, hc);
      && !o.Failed? && (o.Upgraded? <==> q.upgrade) && o.p == q.(state := NewMessage(q))
      && Join(o.events) == Join(es + ts + [MessageComplete])
      && BodyOf(o.events) == BodyOf(ts) && Completed(o.events) == Completed(ts) + 1
  {
    hide Valid, Join, Run, NewMessage, Reads, Completes, Feed, BodyOf, Completed, Fields;
    FieldsRun(p, w, hc, r, es);
    TrailerQuiet(p, w, hc, r, es);
    ThenCompletes(p, w, r, es, tail, q, ts, hc);
    Delivered(p, w + tail, q, es + ts, hc, fs);
    SeenConcat(es, ts);
    assert [] + BodyOf(ts) == BodyOf(ts);
  }

  /** A head with a length field anywhere in it, and so many bytes, the whole cut anywhere. */
  lemma LengthMessage(p: Parser, w: seq<byte>, hc: Settings, r: Parser, es: seq<Event>, f: HeaderAt, d: seq<byte>, fs: seq<seq<byte>>)
    requires Fields(p, w, hc, r, es) && Valid(p) && LengthField(p, f, hc) && w == Whole(f)
    requires Wanted(r, hc) && !r.flags.chunked && Decimal(f.value) == |d|
    requires Concat(fs) == w + ([LF] + d)
    ensures
      var o, q := Feed(p, fs, hc), HeadOf(r).(contentLength := 0);
      && !o.Failed? && (o.Upgraded? <==> q.upgrade) && o.p == q.(state := NewMessage(q))
      && Join(o.events) == Join(es + ([HeadersComplete] + BodyEvents(d)) + [MessageComplete])
      && BodyOf(o.events) == d && Completed(o.events) == 1
  {
    hide Valid, Join, Run, NewMessage, Reads, Completes, Feed, BodyOf, Completed, Fields, LengthField, Wanted, Decimal, BodyEvents, Whole;
    FieldsRun(p, w, hc, r, es);
    LengthKept(p, w, hc, r, es, f);
    BodyFollows(r, d, hc);
    AfterHead(p, w, hc, r, es, [LF] + d, HeadOf(r).(contentLength := 0), [HeadersComplete] + BodyEvents(d), fs);
    SeenBodyEvents(d);
  }

  lemma ChunksFollow(q: Parser, hc: Settings)
    requires Wanted(q, hc) && q.flags.chunked && !q.flags.contentLength
    ensures Switch(q, false, LF, hc) == Micro(HeadOf(q).(state := ChunkSizeStart), [Fire(HeadersComplete)], Next, true)
  {
    HeadEndSwitch(q, hc);
    hide Switch, NewMessage, NeedsEof;
    var none: seq<Op> := [];
    assert [Fire(HeadersComplete)] + none == [Fire(HeadersComplete)];
  }

  /** A head with a coding field anywhere in it, chunks and a trailer, the whole cut anywhere. */
  lemma ChunkedMessage(p: Parser, w: seq<byte>, hc: Settings, r: Parser, es: seq<Event>, f: HeaderAt, cs: seq<Chunk>, size: seq<byte>,
                       extension: seq<byte>, t: seq<byte>, q: Parser, ts: seq<Event>, fs: seq<seq<byte>>)
    requires Fields(p, w, hc, r, es) && Valid(p) && ChunkedField(p, f, hc) && w == Whole(f)
    requires Wanted(r, hc) && !r.flags.contentLength
    requires forall i :: 0 <= i < |cs| ==> WellFormed(cs[i])
    requires SizeLine(size, extension, 0) && Fields(AfterLast(HeadOf(r).(state := ChunkSizeStart)), t, hc, q, ts)
    requires Concat(fs) == w + ([LF] + ChunkedBody(cs, size, extension, t))
    ensures
      var o := Feed(p, fs, hc);
      && !o.Failed? && (o.Upgraded? <==> q.upgrade) && o.p == q.(state := NewMessage(q))
      && Join(o.events) == Join(es + ([HeadersComplete] + ChunkedEvents(cs, ts)) + [MessageComplete])
      && BodyOf(o.events) == AllData(cs) && Completed(o.events) == 1
  {
    hide Valid, Join, Run, Switch, NewMessage, Reads, Completes, ChunkedEvents, ChunkedBody, Feed, BodyOf, Completed,
      SizeLine, WellFormed, Fields, ChunkedField, Wanted, Whole, AfterLast;
    FieldsRun(p, w, hc, r, es);
    ChunkedKept(p, w, hc, r, es, f);
    var first, body := HeadOf(r).(state := ChunkSizeStart), ChunkedBody(cs, size, extension, t);
    ChunksFollow(r, hc);
    Fires(r, LF, first, HeadersComplete, hc);
    ChunkedBodyRead(first, cs, size, extension, t, q, ts, hc);
    ThenCompletes(r, [LF], first, [HeadersComplete], body, q, ChunkedEvents(cs, ts), hc);
    AfterHead(p, w, hc, r, es, [LF] + body, q, [HeadersComplete] + ChunkedEvents(cs, ts), fs);
    TrailerQuiet(AfterLast(first), t, hc, q, ts);
    SeenChunked(cs, ts);
    SeenAfterHead(ChunkedEvents(cs, ts));
  }

  lemma SeenAfterHead(ts: seq<Event>)
    ensures BodyOf([HeadersComplete] + ts) == BodyOf(ts) && Completed([HeadersComplete] + ts) == Completed(ts)
  {
    SeenBodyEvents([]);
    assert [HeadersComplete] + BodyEvents([]) == [HeadersComplete];
    hide BodyOf, Completed;
    SeenConcat([HeadersComplete], ts);
    assert [] + BodyOf(ts) == BodyOf(ts);
  }

  // ----- no body -----

  /** The record after on_headers_complete. */
  function Answered(q: Parser, hc: Settings): Parser {
    var a := HeadOf(q);
    match hc.headersComplete(a)
    case Proceed => a
    case SkipBody => a.(flags := a.flags.(skipBody := true))
    case SkipBodyAndUpgrade => a.(flags := a.flags.(skipBody := true), upgrade := true)
  }

  /** No body follows: it is not wanted, or the head announces none. */
  predicate Bodiless(a: Parser) {
    a.flags.skipBody || Tunnels(a)
    || (!a.flags.chunked && (a.contentLength == 0 || (a.contentLength == ULLONG_MAX && (a.upgrade || !NeedsEof(a)))))
  }

  lemma NoBodySwitch(q: Parser, hc: Settings)
    requires q.state == HeadersAlmostDone && !q.flags.trailing && !(q.flags.chunked && q.flags.contentLength)
    requires Bodiless(Answered(q, hc))
    ensures
      var m, a := Switch(q, false, LF, hc), Answered(q, hc);
      && m.p == a.(state := NewMessage(a)) && m.ops == [Fire(HeadersComplete), Fire(MessageComplete)]
      && m.fin == if a.upgrade then Exit else Next
  {
    HeadEndSwitch(q, hc);
    hide Switch, NewMessage, NeedsEof;
    assert [Fire(HeadersComplete)] + [Fire(MessageComplete)] == [Fire(HeadersComplete), Fire(MessageComplete)];
  }

  lemma NoBodyFollows(q: Parser, hc: Settings)
    requires Valid(q) && q.state == HeadersAlmostDone && !q.flags.trailing && !(q.flags.chunked && q.flags.contentLength)
    requires Bodiless(Answered(q, hc))
    ensures Completes(Run(q, [LF], hc, false), Answered(q, hc), [HeadersComplete], 1)
  {
    hide Valid, Join, Switch, NewMessage, ByteEvents, Bodiless, Answered;
    NoBodySwitch(q, hc);
    EmptyRun(q, hc);
    assert [LF as byte][..0] == [];
    TwoEvents(HeadersComplete, MessageComplete, LF);
    assert [] + [HeadersComplete, MessageComplete] == [HeadersComplete] + [MessageComplete];
  }

  /** Any head after which no body follows, as the application answers: the message is complete. */
  lemma HeadMessage(p: Parser, w: seq<byte>, hc: Settings, r: Parser, es: seq<Event>, fs: seq<seq<byte>>)
    requires Fields(p, w, hc, r, es) && Valid(p) && !p.flags.trailing && !(r.flags.chunked && r.flags.contentLength)
    requires Bodiless(Answered(r, hc)) && Concat(fs) == w + [LF]
    ensures
      var o, a := Feed(p, fs, hc), Answered(r, hc);
      && !o.Failed? && (o.Upgraded? <==> a.upgrade) && o.p == a.(state := NewMessage(a))
      && Join(o.events) == Join(es + [HeadersComplete] + [MessageComplete])
      && BodyOf(o.events) == [] && Completed(o.events) == 1
  {
    hide Valid, Join, Run, NewMessage, Reads, Completes, Feed, BodyOf, Completed, Fields, Bodiless, Answered;
    FieldsRun(p, w, hc, r, es);
    TrailerQuiet(p, w, hc, r, es);
    NoBodyFollows(r, hc);
    AfterHead(p, w, hc, r, es, [LF], Answered(r, hc), [HeadersComplete], fs);
    SeenBodyEvents([]);
    assert [HeadersComplete] + BodyEvents([]) == [HeadersComplete];
  }
}
