/** Whole messages, from the first byte of a request or status line to the end of the body: what
    the application is told, and what the parser does after it. */
module HttpMessages {
  import opened Common
  import opened HttpTypes
  import opened HttpInvariant
  import opened HttpSpec
  import opened HttpFragment
  import opened HttpBody
  import opened HttpTrailer
  import opened HttpLength
  import opened HttpFraming
  import opened HttpStart
  import opened HttpFields

  // ----- expected callbacks are told apart -----

  predicate Alike(e: Event, f: Event) {
    e.Data? && f.Data? && e.kind == f.kind
  }

  /** No two data callbacks of one kind in a row. */
  predicate Apart(es: seq<Event>) {
    forall i :: 0 <= i < |es| - 1 ==> !Alike(es[i], es[i + 1])
  }

  lemma {:induction false} JoinApart(es: seq<Event>)
    requires Apart(es)
    ensures Join(es) == es
    decreases |es|
  {
    if |es| > 0 {
      var n := |es| - 1;
      assert es == es[..n] + [es[n]];
      JoinApart(es[..n]);
      if n > 0 {
        assert !Alike(es[n - 1], es[n]);
      }
    }
  }

  lemma ApartConcat(a: seq<Event>, b: seq<Event>)
    requires Apart(a) && Apart(b) && (|a| > 0 && |b| > 0 ==> !Alike(a[|a| - 1], b[0]))
    ensures Apart(a + b)
  {
    forall i | 0 <= i < |a + b| - 1 ensures !Alike((a + b)[i], (a + b)[i + 1]) {
      if i + 1 < |a| {
        assert !Alike(a[i], a[i + 1]);
      } else if i >= |a| {
        assert !Alike(b[i - |a|], b[i - |a| + 1]);
      }
    }
  }

  lemma {:induction false} FieldsApart(fs: seq<FieldLine>)
    ensures Apart(AllFields(fs))
    ensures |fs| > 0 ==> |AllFields(fs)| > 0 && AllFields(fs)[0].Data? && AllFields(fs)[0].kind == Field
    ensures |fs| > 0 ==> AllFields(fs)[|AllFields(fs)| - 1].Data? && AllFields(fs)[|AllFields(fs)| - 1].kind == Value
    ensures |fs| == 0 ==> AllFields(fs) == []
    decreases |fs|
  {
    if |fs| > 0 {
      FieldsApart(fs[1..]);
      ApartConcat(FieldEvents(fs[0]), AllFields(fs[1..]));
    }
  }

  /** A start line, the fields and the end of the head. */
  lemma HeadApart(start: seq<Event>, fs: seq<FieldLine>, rest: seq<Event>)
    requires Apart(start) && Apart(rest) && |start| > 0
    requires !start[|start| - 1].Data? || start[|start| - 1].kind == Url || start[|start| - 1].kind == Status
    ensures Apart(start + AllFields(fs) + [HeadersComplete] + rest)
    ensures Join(start + AllFields(fs) + [HeadersComplete] + rest) == start + AllFields(fs) + [HeadersComplete] + rest
  {
    FieldsApart(fs);
    ApartConcat(start, AllFields(fs));
    ApartConcat(start + AllFields(fs), [HeadersComplete]);
    ApartConcat(start + AllFields(fs) + [HeadersComplete], rest);
    JoinApart(start + AllFields(fs) + [HeadersComplete] + rest);
  }

  // ----- heads -----

  function NoFraming(): Framing {
    Framing(NO_FLAGS, ULLONG_MAX)
  }

  /** A head that is read to its end: good fields, and not both a coding and a length. */
  predicate GoodHead(fs: seq<FieldLine>, hc: Settings) {
    GoodFields(NoFraming(), fs, hc) && !(AnyField(fs, CodesChunked) && AnyField(fs, GivesLength))
  }

  /** The flags at the end of a head. */
  function FlagsOf(fs: seq<FieldLine>): Flags {
    Flags(AnyField(fs, CodesChunked), AnyField(fs, SaysKeepAlive), AnyField(fs, SaysClose), AnyField(fs, SaysUpgrade),
          false, AnyField(fs, NamesProtocol), false, AnyField(fs, GivesLength))
  }

  /** A length is n where the head gives one, and 2^64 - 1 stands for none. */
  ghost predicate LengthOf(fs: seq<FieldLine>, n: nat) {
    if AnyField(fs, GivesLength) then forall i :: 0 <= i < |fs| && GivesLength(fs[i]) ==> n == GivenLength(fs[i])
    else n == 0xffff_ffff_ffff_ffff
  }

  lemma LengthFound(h: Framing, fs: seq<FieldLine>, hc: Settings)
    requires h == NoFraming() && GoodFields(h, fs, hc)
    ensures LengthOf(fs, AllEffects(h, fs).length)
  {
    ListLength(h, fs, hc);
    hide GivesLength, GivenLength, GoodFields, AllEffects;
  }

  /** Where a request line ends and the fields begin. */
  lemma FieldsAfter(p: Parser, line: seq<byte>, q: Parser, es: seq<Event>, fs: seq<FieldLine>, hc: Settings) returns (r: Parser)
    requires Reads(p, line, hc, q, es) && q.state == HeaderFieldStart && FramingOf(q) == NoFraming() && GoodHead(fs, hc)
    ensures Valid(r) && Reads(p, line + (AllBytes(fs) + [CR]), hc, r, es + AllFields(fs))
    ensures r == q.(state := HeadersAlmostDone, flags := FlagsOf(fs), contentLength := r.contentLength,
                    headerState := r.headerState, index := r.index)
    ensures LengthOf(fs, r.contentLength)
  {
    hide Valid, Reads, GoodFields, AllEffects, AllBytes, AllFields, AnyField;
    ReadsKeeps(p, line, hc, q, es);
    r := HeadReads(q, fs, hc);
    ReadsKeeps(q, AllBytes(fs) + [CR], hc, r, AllFields(fs));
    Then(p, line, q, es, AllBytes(fs) + [CR], r, AllFields(fs), hc);
    ListFlags(NoFraming(), fs);
    LengthFound(NoFraming(), fs, hc);
  }

  // ----- the three ways in which a head is followed -----

  /** The outcome of a call after which a message is complete, from the record q at its end. */
  ghost predicate Ends(o: Outcome, q: Parser, es: seq<Event>) {
    && !o.Failed? && (o.Upgraded? <==> q.upgrade) && o.p == q.(state := NewMessage(q))
    && Join(o.events) == Join(es + [MessageComplete])
  }

  lemma NothingAfter(p: Parser, w: seq<byte>, r: Parser, es: seq<Event>, hc: Settings, cuts: seq<seq<byte>>)
    requires Reads(p, w, hc, r, es) && Valid(r) && r.state == HeadersAlmostDone && !r.flags.trailing
    requires !(r.flags.chunked && r.flags.contentLength) && Bodiless(Answered(r, hc)) && Concat(cuts) == w + [LF]
    ensures Ends(Feed(p, cuts, hc), Answered(r, hc), es + [HeadersComplete])
  {
    hide Valid, Join, Run, NewMessage, Reads, Completes, Feed, BodyOf, Completed, Bodiless, Answered;
    ReadsKeeps(p, w, hc, r, es);
    NoBodyFollows(r, hc);
    ThenCompletes(p, w, r, es, [LF], Answered(r, hc), [HeadersComplete], hc);
    Delivered(p, w + [LF], Answered(r, hc), es + [HeadersComplete], hc, cuts);
  }

  lemma LengthAfter(p: Parser, w: seq<byte>, r: Parser, es: seq<Event>, d: seq<byte>, hc: Settings, cuts: seq<seq<byte>>)
    requires Reads(p, w, hc, r, es) && Valid(r) && Announces(r, hc) && |d| == r.contentLength > 0
    requires Concat(cuts) == w + ([LF] + d)
    ensures Ends(Feed(p, cuts, hc), HeadOf(r).(contentLength := 0), es + [HeadersComplete, Data(Body, d)])
  {
    hide Valid, Join, Run, NewMessage, Reads, Completes, Feed, BodyOf, Completed, Announces;
    ReadsKeeps(p, w, hc, r, es);
    BodyFollows(r, d, hc);
    var q, ts := HeadOf(r).(contentLength := 0), [HeadersComplete] + BodyEvents(d);
    assert ts == [HeadersComplete, Data(Body, d)];
    ThenCompletes(p, w, r, es, [LF] + d, q, ts, hc);
    Delivered(p, w + ([LF] + d), q, es + ts, hc, cuts);
  }

  /** Chunks, the last chunk and a trailer of fields. */
  datatype ChunkedData = ChunkedData(chunks: seq<Chunk>, size: seq<byte>, extension: seq<byte>, trailer: seq<FieldLine>)

  function ChunkedBytes(b: ChunkedData): seq<byte> {
    EncodeAll(b.chunks) + (b.size + b.extension + [CR, LF]) + (AllBytes(b.trailer) + [CR]) + [LF]
  }

  function ChunkedCallbacks(b: ChunkedData): seq<Event> {
    AllEvents(b.chunks) + [ChunkHeader(0)] + AllFields(b.trailer) + [ChunkComplete]
  }

  predicate GoodChunks(h: Framing, b: ChunkedData, hc: Settings) {
    && (forall i :: 0 <= i < |b.chunks| ==> WellFormed(b.chunks[i])) && SizeLine(b.size, b.extension, 0)
    && GoodFields(h, b.trailer, hc)
  }

  /** The flags that a trailer is read with. */
  function TrailerFraming(p: Parser): Framing {
    Framing(p.flags.(trailing := true), 0)
  }

  /** The record at the end of a trailer. */
  ghost predicate AtTrailerEnd(p: Parser, q: Parser, trailer: seq<FieldLine>) {
    q.state == HeadersAlmostDone && Framed(p, q, AllEffects(TrailerFraming(p), trailer))
  }

  lemma ChunkedRead(p: Parser, b: ChunkedData, hc: Settings) returns (q: Parser)
    requires Valid(p) && p.state == ChunkSizeStart && GoodChunks(TrailerFraming(p), b, hc)
    ensures AtTrailerEnd(p, q, b.trailer)
    ensures Completes(Run(p, ChunkedBytes(b), hc, false), q, ChunkedCallbacks(b), |ChunkedBytes(b)|)
  {
    hide Valid, Run, Reads, SizeLine, EncodeAll, AllEvents, Completes, WellFormed, GoodFields, AllEffects, AllBytes, AllFields, AnyField;
    var p1, last := if b.chunks == [] then p else p.(contentLength := 0), AfterLast(p);
    Chunks(p, b.chunks, hc);
    ReadsKeeps(p, EncodeAll(b.chunks), hc, p1, AllEvents(b.chunks));
    var line, t := b.size + b.extension + [CR, LF], AllBytes(b.trailer) + [CR];
    Line(p1, b.size, b.extension, 0, hc);
    Then(p, EncodeAll(b.chunks), p1, AllEvents(b.chunks), line, last, [ChunkHeader(0)], hc);
    ReadsKeeps(p1, line, hc, last, [ChunkHeader(0)]);
    q := HeadReads(last, b.trailer, hc);
    Then(p, EncodeAll(b.chunks) + line, last, AllEvents(b.chunks) + [ChunkHeader(0)], t, q, AllFields(b.trailer), hc);
    ListFlags(TrailerFraming(p), b.trailer);
    TrailerEnds(p, EncodeAll(b.chunks) + line + t, AllEvents(b.chunks) + [ChunkHeader(0)] + AllFields(b.trailer), q, hc);
  }

  lemma ChunksAfter(p: Parser, w: seq<byte>, r: Parser, es: seq<Event>, b: ChunkedData, hc: Settings, cuts: seq<seq<byte>>)
    returns (q: Parser)
    requires Reads(p, w, hc, r, es) && Valid(r) && Wanted(r, hc) && r.flags.chunked && !r.flags.contentLength
    requires GoodChunks(TrailerFraming(r), b, hc) && Concat(cuts) == w + ([LF] + ChunkedBytes(b))
    ensures AtTrailerEnd(HeadOf(r), q, b.trailer)
    ensures Ends(Feed(p, cuts, hc), q, es + ([HeadersComplete] + ChunkedCallbacks(b)))
  {
    hide Valid, Join, Run, NewMessage, Reads, Completes, Feed, BodyOf, Completed, GoodFields, WellFormed, SizeLine, AllEffects,
      ChunkedBytes, ChunkedCallbacks;
    ReadsKeeps(p, w, hc, r, es);
    var first := HeadOf(r).(state := ChunkSizeStart);
    ChunksFollow(r, hc);
    FirstOpen(r, hc);
    Fires(r, LF, first, HeadersComplete, hc);
    q := ChunkedRead(first, b, hc);
    ThenCompletes(r, [LF], first, [HeadersComplete], ChunkedBytes(b), q, ChunkedCallbacks(b), hc);
    ThenCompletes(p, w, r, es, [LF] + ChunkedBytes(b), q, [HeadersComplete] + ChunkedCallbacks(b), hc);
    Delivered(p, w + ([LF] + ChunkedBytes(b)), q, es + ([HeadersComplete] + ChunkedCallbacks(b)), hc, cuts);
  }

  lemma FirstOpen(r: Parser, hc: Settings)
    requires Wanted(r, hc)
    ensures OpenKind(r.state) == None
  {
  }

  // ----- requests -----

  /** A parser that waits for a request. */
  predicate RequestParser(p: Parser) {
    (p.state == StartReq && p.typ == Request) || p.state == StartReqOrRes
  }

  function RequestHead(line: RequestStart, fs: seq<FieldLine>): seq<byte> {
    RequestBytes(line) + (AllBytes(fs) + [CR])
  }

  function RequestCallbacks(line: RequestStart, fs: seq<FieldLine>): seq<Event> {
    [MessageBegin, Data(Url, line.url)] + AllFields(fs) + [HeadersComplete]
  }

  /** What the version and the fields say about the connection after the message. */
  predicate KeepsAlive(major: nat, minor: nat, fs: seq<FieldLine>) {
    if major > 0 && minor > 0 then !AnyField(fs, SaysClose) else AnyField(fs, SaysKeepAlive)
  }

  /** The request changes the protocol. */
  predicate RequestLeaves(line: RequestStart, fs: seq<FieldLine>) {
    line.verb == CONNECT || (AnyField(fs, NamesProtocol) && AnyField(fs, SaysUpgrade))
  }

  /** The record on_headers_complete is asked about, as far as the request says. */
  ghost predicate RequestTold(t: Parser, line: RequestStart, fs: seq<FieldLine>) {
    && t.typ == Request && t.verb == line.verb && t.httpMajor == line.major && t.httpMinor == line.minor
    && t.flags == FlagsOf(fs) && LengthOf(fs, t.contentLength) && t.upgrade == RequestLeaves(line, fs)
  }

  lemma RequestHeadRead(p: Parser, line: RequestStart, fs: seq<FieldLine>, hc: Settings) returns (r: Parser)
    requires Valid(p) && RequestParser(p) && GoodRequest(line) && GoodHead(fs, hc)
    ensures Valid(r) && r.state == HeadersAlmostDone && RequestTold(HeadOf(r), line, fs) && r.flags == FlagsOf(fs)
    ensures Reads(p, RequestHead(line, fs), hc, r, [MessageBegin, Data(Url, line.url)] + AllFields(fs))
  {
    hide Valid, Reads, GoodRequest, GoodHead, RequestBytes, AllBytes, AllFields, AnyField, MethodString, LengthOf;
    var q := Requested(p, line);
    RequestLine(p, line, hc);
    r := FieldsAfter(p, RequestBytes(line), q, [MessageBegin, Data(Url, line.url)], fs, hc);
  }

  /** NEW_MESSAGE() after a request: no request lasts until the connection ends. */
  lemma RequestNext(q: Parser)
    requires q.typ == Request
    ensures NewMessage(q) == if (if q.httpMajor > 0 && q.httpMinor > 0 then !q.flags.close else q.flags.keepAlive) then StartReq else Dead
  {
  }

  lemma RequestApart(line: RequestStart, fs: seq<FieldLine>, rest: seq<Event>)
    requires Apart(rest)
    ensures Join(RequestCallbacks(line, fs) + rest) == RequestCallbacks(line, fs) + rest
  {
    HeadApart([MessageBegin, Data(Url, line.url)], fs, rest);
  }

  lemma OneLengthOf(fs: seq<FieldLine>, m: nat, n: nat)
    requires LengthOf(fs, m) && LengthOf(fs, n)
    ensures m == n
  {
    hide GivesLength, GivenLength;
    if AnyField(fs, GivesLength) {
      var i :| 0 <= i < |fs| && GivesLength(fs[i]);
    }
  }

  lemma LengthRange(fs: seq<FieldLine>, n: nat)
    requires LengthOf(fs, n)
    ensures AnyField(fs, GivesLength) ==> n <= LONGEST
    ensures !AnyField(fs, GivesLength) ==> n == ULLONG_MAX
  {
    hide Decimal, Number;
  }

  /** The outcome of a message that is complete. */
  ghost predicate Complete(o: Outcome, leaves: bool, next: State, events: seq<Event>) {
    !o.Failed? && (o.Upgraded? <==> leaves) && o.p.state == next && Join(o.events) == events
  }

  /** A request without a body, or whose body the application does not want: told with the
      callbacks of its head, and complete at its end. */
  lemma RequestWithoutBody(p: Parser, line: RequestStart, fs: seq<FieldLine>, hc: Settings, cuts: seq<seq<byte>>)
    returns (t: Parser)
    requires Valid(p) && RequestParser(p) && GoodRequest(line) && GoodHead(fs, hc) && Concat(cuts) == RequestHead(line, fs) + [LF]
    ensures RequestTold(t, line, fs)
    ensures
      var v := hc.headersComplete(t);
      v != Proceed || line.verb == CONNECT || (!AnyField(fs, CodesChunked) && (t.contentLength == 0 || !AnyField(fs, GivesLength))) ==>
        Complete(Feed(p, cuts, hc), RequestLeaves(line, fs) || v == SkipBodyAndUpgrade,
                 if KeepsAlive(line.major, line.minor, fs) then StartReq else Dead, RequestCallbacks(line, fs) + [MessageComplete])
  {
    hide Valid, Reads, Feed, Join, NewMessage, GoodRequest, GoodHead, RequestHead, AllFields, AnyField, LengthOf;
    var r := RequestHeadRead(p, line, fs, hc);
    t := HeadOf(r);
    LengthRange(fs, t.contentLength);
    var es, a := [MessageBegin, Data(Url, line.url)] + AllFields(fs), Answered(r, hc);
    if Bodiless(a) {
      OneFraming(fs, hc);
      NothingAfter(p, RequestHead(line, fs), r, es, hc, cuts);
      RequestNext(a);
      RequestApart(line, fs, [MessageComplete]);
    }
  }

  lemma OneFraming(fs: seq<FieldLine>, hc: Settings)
    requires GoodHead(fs, hc)
    ensures !(FlagsOf(fs).chunked && FlagsOf(fs).contentLength)
  {
  }

  /** A request with a length, and so many bytes: they are handed over as they are. */
  lemma RequestWithLength(p: Parser, line: RequestStart, fs: seq<FieldLine>, d: seq<byte>, hc: Settings, cuts: seq<seq<byte>>)
    returns (t: Parser)
    requires Valid(p) && RequestParser(p) && GoodRequest(line) && GoodHead(fs, hc)
    requires AnyField(fs, GivesLength) && LengthOf(fs, |d|) && |d| > 0 && line.verb != CONNECT
    requires Concat(cuts) == RequestHead(line, fs) + ([LF] + d)
    ensures RequestTold(t, line, fs)
    ensures hc.headersComplete(t) == Proceed ==>
              Complete(Feed(p, cuts, hc), RequestLeaves(line, fs), if KeepsAlive(line.major, line.minor, fs) then StartReq else Dead,
                       RequestCallbacks(line, fs) + [Data(Body, d), MessageComplete])
  {
    hide Valid, Reads, Feed, Join, NewMessage, GoodRequest, GoodHead, RequestHead, AllFields, AnyField, LengthOf;
    var r := RequestHeadRead(p, line, fs, hc);
    t := HeadOf(r);
    LengthRange(fs, t.contentLength);
    OneLengthOf(fs, t.contentLength, |d|);
    OneFraming(fs, hc);
    var es := [MessageBegin, Data(Url, line.url)] + AllFields(fs);
    if hc.headersComplete(t) == Proceed {
      LengthAfter(p, RequestHead(line, fs), r, es, d, hc, cuts);
      RequestNext(t.(contentLength := 0));
      RequestApart(line, fs, [Data(Body, d), MessageComplete]);
      assert es + [HeadersComplete, Data(Body, d)] + [MessageComplete] == RequestCallbacks(line, fs) + [Data(Body, d), MessageComplete];
    }
  }

  lemma AnyConcat(fs: seq<FieldLine>, gs: seq<FieldLine>, says: FieldLine -> bool)
    ensures AnyField(fs + gs, says) <==> AnyField(fs, says) || AnyField(gs, says)
  {
    if AnyField(fs, says) {
      var i :| 0 <= i < |fs| && says(fs[i]);
      assert (fs + gs)[i] == fs[i];
    }
    if AnyField(gs, says) {
      var i :| 0 <= i < |gs| && says(gs[i]);
      assert (fs + gs)[|fs| + i] == gs[i];
    }
  }

  lemma ChunkedApart(b: ChunkedData)
    requires forall i :: 0 <= i < |b.chunks| ==> |b.chunks[i].data| > 0
    ensures Apart(ChunkedCallbacks(b) + [MessageComplete])
    ensures |ChunkedCallbacks(b)| > 0
  {
    ChunksApart(b.chunks);
    FieldsApart(b.trailer);
    ApartConcat(AllEvents(b.chunks), [ChunkHeader(0)]);
    ApartConcat(AllEvents(b.chunks) + [ChunkHeader(0)], AllFields(b.trailer));
    ApartConcat(AllEvents(b.chunks) + [ChunkHeader(0)] + AllFields(b.trailer), [ChunkComplete]);
    ApartConcat(ChunkedCallbacks(b), [MessageComplete]);
  }

  lemma {:induction false} ChunksApart(cs: seq<Chunk>)
    ensures Apart(AllEvents(cs))
    ensures |cs| > 0 ==> |AllEvents(cs)| > 0 && AllEvents(cs)[0].ChunkHeader? && AllEvents(cs)[|AllEvents(cs)| - 1].ChunkComplete?
    ensures |cs| == 0 ==> AllEvents(cs) == []
    decreases |cs|
  {
    if |cs| > 0 {
      ChunksApart(cs[1..]);
      ApartConcat(ChunkEvents(cs[0]), AllEvents(cs[1..]));
    }
  }

  lemma HasData(h: Framing, b: ChunkedData, hc: Settings)
    requires GoodChunks(h, b, hc)
    ensures forall i :: 0 <= i < |b.chunks| ==> |b.chunks[i].data| > 0
  {
    hide SizeLine, GoodFields;
    forall i | 0 <= i < |b.chunks| ensures |b.chunks[i].data| > 0 {
      assert WellFormed(b.chunks[i]);
    }
  }

  /** The record at the end of a trailer has the flags of the head and those of the trailer. */
  lemma TrailerFlags(p: Parser, q: Parser, fs: seq<FieldLine>, trailer: seq<FieldLine>)
    requires AtTrailerEnd(p, q, trailer) && p.flags == FlagsOf(fs)
    ensures q.typ == p.typ && q.upgrade == p.upgrade && q.httpMajor == p.httpMajor && q.httpMinor == p.httpMinor
    ensures q.statusCode == p.statusCode && q.verb == p.verb
    ensures q.flags.chunked == AnyField(fs + trailer, CodesChunked) && q.flags.close == AnyField(fs + trailer, SaysClose)
    ensures q.flags.keepAlive == AnyField(fs + trailer, SaysKeepAlive) && !q.flags.skipBody
  {
    ListFlags(TrailerFraming(p), trailer);
    AnyConcat(fs, trailer, CodesChunked);
    AnyConcat(fs, trailer, SaysClose);
    AnyConcat(fs, trailer, SaysKeepAlive);
    hide AnyField, AllEffects;
  }

  /** A chunked request: the sizes and the data of the chunks and the fields of the trailer are
      handed over, and the trailer has its say about the connection. */
  lemma RequestWithChunks(p: Parser, line: RequestStart, fs: seq<FieldLine>, b: ChunkedData, hc: Settings, cuts: seq<seq<byte>>)
    returns (t: Parser)
    requires Valid(p) && RequestParser(p) && GoodRequest(line) && GoodHead(fs, hc)
    requires AnyField(fs, CodesChunked) && line.verb != CONNECT
    requires GoodChunks(Framing(FlagsOf(fs).(trailing := true), 0), b, hc)
    requires Concat(cuts) == RequestHead(line, fs) + ([LF] + ChunkedBytes(b))
    ensures RequestTold(t, line, fs)
    ensures hc.headersComplete(t) == Proceed ==>
              Complete(Feed(p, cuts, hc), RequestLeaves(line, fs),
                       if KeepsAlive(line.major, line.minor, fs + b.trailer) then StartReq else Dead,
                       RequestCallbacks(line, fs) + ChunkedCallbacks(b) + [MessageComplete])
  {
    hide Valid, Reads, Feed, Join, NewMessage, GoodRequest, GoodHead, RequestHead, AllFields, AnyField, LengthOf, GoodChunks,
      ChunkedBytes, ChunkedCallbacks, AtTrailerEnd;
    var r := RequestHeadRead(p, line, fs, hc);
    t := HeadOf(r);
    OneFraming(fs, hc);
    var es := [MessageBegin, Data(Url, line.url)] + AllFields(fs);
    if hc.headersComplete(t) == Proceed {
      var q := ChunksAfter(p, RequestHead(line, fs), r, es, b, hc, cuts);
      TrailerFlags(t, q, fs, b.trailer);
      RequestNext(q);
      HasData(TrailerFraming(r), b, hc);
      ChunkedApart(b);
      RequestApart(line, fs, ChunkedCallbacks(b) + [MessageComplete]);
      assert es + ([HeadersComplete] + ChunkedCallbacks(b)) + [MessageComplete] ==
             RequestCallbacks(line, fs) + (ChunkedCallbacks(b) + [MessageComplete]);
      assert RequestCallbacks(line, fs) + (ChunkedCallbacks(b) + [MessageComplete]) ==
             RequestCallbacks(line, fs) + ChunkedCallbacks(b) + [MessageComplete];
    }
  }
}
