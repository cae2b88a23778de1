/** Whole responses, from the status line to the end of the body. */
module HttpResponses {
  import opened Common
  import opened HttpTypes
  import opened HttpSwitch
  import opened HttpInvariant
  import opened HttpSpec
  import opened HttpFragment
  import opened HttpBody
  import opened HttpLength
  import opened HttpFraming
  import opened HttpStart
  import opened HttpStatus
  import opened HttpFields
  import opened HttpMessages

  /** A parser that waits for a response. */
  predicate ResponseParser(p: Parser) {
    (p.state == StartRes && p.typ == Response) || p.state == StartReqOrRes
  }

  predicate GoodStatus(line: ResponseStart) {
    GoodResponse(line) && Decimal(line.code) <= 999
  }

  function Code(line: ResponseStart): nat
    requires GoodStatus(line)
  {
    Decimal(line.code)
  }

  function ResponseHead(line: ResponseStart, fs: seq<FieldLine>): seq<byte> {
    ResponseBytes(line) + (AllBytes(fs) + [CR])
  }

  function ResponseCallbacks(line: ResponseStart, fs: seq<FieldLine>): seq<Event> {
    [MessageBegin, Data(Status, ReasonOf(line))] + AllFields(fs) + [HeadersComplete]
  }

  /** The response changes the protocol. verb is what the record holds of the method. */
  predicate ResponseLeaves(verb: Method, line: ResponseStart, fs: seq<FieldLine>)
    requires GoodStatus(line)
  {
    if AnyField(fs, NamesProtocol) && AnyField(fs, SaysUpgrade) then Code(line) == 101 else verb == CONNECT
  }

  /** The body lasts until the connection ends: the status allows one, and nothing else ends it. */
  predicate UntilClose(line: ResponseStart, fs: seq<FieldLine>)
    requires GoodStatus(line)
  {
    && Code(line) / 100 != 1 && Code(line) != 204 && Code(line) != 304
    && !AnyField(fs, CodesChunked) && !AnyField(fs, GivesLength)
  }

  /** The record on_headers_complete is asked about, as far as the response says. */
  ghost predicate ResponseTold(t: Parser, verb: Method, line: ResponseStart, fs: seq<FieldLine>)
    requires GoodStatus(line)
  {
    && t.typ == Response && t.verb == verb && t.httpMajor == line.major && t.httpMinor == line.minor && t.statusCode == Code(line)
    && t.flags == FlagsOf(fs) && LengthOf(fs, t.contentLength) && t.upgrade == ResponseLeaves(verb, line, fs)
  }

  lemma ResponseHeadRead(p: Parser, line: ResponseStart, fs: seq<FieldLine>, hc: Settings) returns (r: Parser)
    requires Valid(p) && ResponseParser(p) && GoodStatus(line) && GoodHead(fs, hc)
    ensures Valid(r) && r.state == HeadersAlmostDone && ResponseTold(HeadOf(r), p.verb, line, fs) && r.flags == FlagsOf(fs)
    ensures Reads(p, ResponseHead(line, fs), hc, r, [MessageBegin, Data(Status, ReasonOf(line))] + AllFields(fs))
  {
    hide Valid, Reads, GoodHead, ResponseBytes, AllBytes, AllFields, AnyField, LengthOf, Decimal, ReasonOf, AllSpaces;
    var q := Responded(p, line);
    StatusLine(p, line, hc);
    r := FieldsAfter(p, ResponseBytes(line), q, [MessageBegin, Data(Status, ReasonOf(line))], fs, hc);
  }

  /** NEW_MESSAGE() after a response. */
  lemma ResponseNext(q: Parser)
    requires q.typ == Response
    ensures
      var kept := if q.httpMajor > 0 && q.httpMinor > 0 then !q.flags.close else q.flags.keepAlive;
      var ended := q.statusCode / 100 == 1 || q.statusCode == 204 || q.statusCode == 304
                   || q.flags.skipBody || q.flags.chunked || q.contentLength != ULLONG_MAX;
      NewMessage(q) == if kept && ended then StartRes else Dead
  {
  }

  lemma ResponseApart(line: ResponseStart, fs: seq<FieldLine>, rest: seq<Event>)
    requires Apart(rest)
    ensures Join(ResponseCallbacks(line, fs) + rest) == ResponseCallbacks(line, fs) + rest
  {
    HeadApart([MessageBegin, Data(Status, ReasonOf(line))], fs, rest);
  }

  /** No body follows the head: it is not wanted, or none is announced. */
  predicate EndsWithHead(v: Verdict, verb: Method, line: ResponseStart, fs: seq<FieldLine>, length: nat)
    requires GoodStatus(line)
  {
    var leaves := ResponseLeaves(verb, line, fs);
    v != Proceed || (leaves && verb == CONNECT)
    || (!AnyField(fs, CodesChunked) && if AnyField(fs, GivesLength) then length == 0 else leaves || !UntilClose(line, fs))
  }

  lemma HeadIsBodiless(r: Parser, line: ResponseStart, fs: seq<FieldLine>, verb: Method, hc: Settings)
    requires GoodStatus(line) && r.flags == FlagsOf(fs) && ResponseTold(HeadOf(r), verb, line, fs)
    requires EndsWithHead(hc.headersComplete(HeadOf(r)), verb, line, fs, HeadOf(r).contentLength)
    ensures Bodiless(Answered(r, hc))
  {
    LengthRange(fs, r.contentLength);
    hide LengthOf, GoodStatus, AnyField, Decimal;
  }

  /** What the answer changes in the record. */
  lemma AnswerIs(r: Parser, hc: Settings)
    ensures
      var t, a, v := HeadOf(r), Answered(r, hc), hc.headersComplete(HeadOf(r));
      && a == t.(flags := a.flags, upgrade := a.upgrade) && a.upgrade == (t.upgrade || v == SkipBodyAndUpgrade)
      && a.flags == t.flags.(skipBody := t.flags.skipBody || v != Proceed)
  {
  }

  lemma UntilCloseIs(t: Parser, line: ResponseStart, fs: seq<FieldLine>)
    requires GoodStatus(line) && t.statusCode == Code(line) && t.flags == FlagsOf(fs) && LengthOf(fs, t.contentLength)
    ensures UntilClose(line, fs) <==>
              !(t.statusCode / 100 == 1 || t.statusCode == 204 || t.statusCode == 304 || t.flags.chunked || t.contentLength != ULLONG_MAX)
    ensures !t.flags.skipBody
  {
    LengthRange(fs, t.contentLength);
    hide LengthOf, GoodStatus, AnyField, Decimal;
  }

  lemma AfterAnswer(r: Parser, line: ResponseStart, fs: seq<FieldLine>, verb: Method, hc: Settings)
    requires GoodStatus(line) && r.flags == FlagsOf(fs) && ResponseTold(HeadOf(r), verb, line, fs)
    ensures
      var v, a := hc.headersComplete(HeadOf(r)), Answered(r, hc);
      && a.upgrade == (ResponseLeaves(verb, line, fs) || v == SkipBodyAndUpgrade)
      && NewMessage(a) == if KeepsAlive(line.major, line.minor, fs) && (v != Proceed || !UntilClose(line, fs)) then StartRes else Dead
  {
    hide LengthOf, GoodStatus, AnyField, Decimal, NewMessage, Answered, HeadOf, UntilClose, ResponseLeaves;
    UntilCloseIs(HeadOf(r), line, fs);
    AnswerIs(r, hc);
    ResponseNext(Answered(r, hc));
  }

  /** A response without a body, or whose body the application does not want. */
  lemma ResponseWithoutBody(p: Parser, line: ResponseStart, fs: seq<FieldLine>, hc: Settings, cuts: seq<seq<byte>>)
    returns (t: Parser)
    requires Valid(p) && ResponseParser(p) && GoodStatus(line) && GoodHead(fs, hc) && Concat(cuts) == ResponseHead(line, fs) + [LF]
    ensures ResponseTold(t, p.verb, line, fs)
    ensures
      var v := hc.headersComplete(t);
      EndsWithHead(v, p.verb, line, fs, t.contentLength) ==>
        Complete(Feed(p, cuts, hc), ResponseLeaves(p.verb, line, fs) || v == SkipBodyAndUpgrade,
                 if KeepsAlive(line.major, line.minor, fs) && (v != Proceed || !UntilClose(line, fs)) then StartRes else Dead,
                 ResponseCallbacks(line, fs) + [MessageComplete])
  {
    hide Valid, Reads, Feed, Join, NewMessage, GoodStatus, GoodHead, ResponseHead, AllFields, AnyField, LengthOf, Decimal, ReasonOf,
      EndsWithHead, ResponseTold, ResponseLeaves, UntilClose, KeepsAlive, Bodiless, Answered;
    var r := ResponseHeadRead(p, line, fs, hc);
    t := HeadOf(r);
    var es := [MessageBegin, Data(Status, ReasonOf(line))] + AllFields(fs);
    if EndsWithHead(hc.headersComplete(t), p.verb, line, fs, t.contentLength) {
      HeadIsBodiless(r, line, fs, p.verb, hc);
      OneFraming(fs, hc);
      NothingAfter(p, ResponseHead(line, fs), r, es, hc, cuts);
      AfterAnswer(r, line, fs, p.verb, hc);
      ResponseApart(line, fs, [MessageComplete]);
    }
  }

  /** A response with a length, and so many bytes. */
  lemma ResponseWithLength(p: Parser, line: ResponseStart, fs: seq<FieldLine>, d: seq<byte>, hc: Settings, cuts: seq<seq<byte>>)
    returns (t: Parser)
    requires Valid(p) && ResponseParser(p) && GoodStatus(line) && GoodHead(fs, hc)
    requires AnyField(fs, GivesLength) && LengthOf(fs, |d|) && |d| > 0 && !(ResponseLeaves(p.verb, line, fs) && p.verb == CONNECT)
    requires Concat(cuts) == ResponseHead(line, fs) + ([LF] + d)
    ensures ResponseTold(t, p.verb, line, fs)
    ensures hc.headersComplete(t) == Proceed ==>
              Complete(Feed(p, cuts, hc), ResponseLeaves(p.verb, line, fs),
                       if KeepsAlive(line.major, line.minor, fs) then StartRes else Dead,
                       ResponseCallbacks(line, fs) + [Data(Body, d), MessageComplete])
  {
    hide Valid, Reads, Feed, Join, NewMessage, GoodStatus, GoodHead, ResponseHead, AllFields, AnyField, LengthOf, Decimal, ReasonOf;
    var r := ResponseHeadRead(p, line, fs, hc);
    t := HeadOf(r);
    LengthRange(fs, t.contentLength);
    OneLengthOf(fs, t.contentLength, |d|);
    OneFraming(fs, hc);
    var es := [MessageBegin, Data(Status, ReasonOf(line))] + AllFields(fs);
    if hc.headersComplete(t) == Proceed {
      LengthAfter(p, ResponseHead(line, fs), r, es, d, hc, cuts);
      ResponseNext(t.(contentLength := 0));
      ResponseApart(line, fs, [Data(Body, d), MessageComplete]);
      assert es + [HeadersComplete, Data(Body, d)] + [MessageComplete] == ResponseCallbacks(line, fs) + [Data(Body, d), MessageComplete];
    }
  }

  /** A chunked response. */
  lemma ResponseWithChunks(p: Parser, line: ResponseStart, fs: seq<FieldLine>, b: ChunkedData, hc: Settings, cuts: seq<seq<byte>>)
    returns (t: Parser)
    requires Valid(p) && ResponseParser(p) && GoodStatus(line) && GoodHead(fs, hc)
    requires AnyField(fs, CodesChunked) && !(ResponseLeaves(p.verb, line, fs) && p.verb == CONNECT)
    requires GoodChunks(Framing(FlagsOf(fs).(trailing := true), 0), b, hc)
    requires Concat(cuts) == ResponseHead(line, fs) + ([LF] + ChunkedBytes(b))
    ensures ResponseTold(t, p.verb, line, fs)
    ensures hc.headersComplete(t) == Proceed ==>
              Complete(Feed(p, cuts, hc), ResponseLeaves(p.verb, line, fs),
                       if KeepsAlive(line.major, line.minor, fs + b.trailer) then StartRes else Dead,
                       ResponseCallbacks(line, fs) + ChunkedCallbacks(b) + [MessageComplete])
  {
    hide Valid, Reads, Feed, Join, NewMessage, GoodStatus, GoodHead, ResponseHead, AllFields, AnyField, LengthOf, GoodChunks,
      ChunkedBytes, ChunkedCallbacks, AtTrailerEnd, Decimal, ReasonOf;
    var r := ResponseHeadRead(p, line, fs, hc);
    t := HeadOf(r);
    OneFraming(fs, hc);
    var es := [MessageBegin, Data(Status, ReasonOf(line))] + AllFields(fs);
    if hc.headersComplete(t) == Proceed {
      var q := ChunksAfter(p, ResponseHead(line, fs), r, es, b, hc, cuts);
      TrailerFlags(t, q, fs, b.trailer);
      AnyConcat(fs, b.trailer, CodesChunked);
      ResponseNext(q);
      HasData(TrailerFraming(r), b, hc);
      ChunkedApart(b);
      ResponseApart(line, fs, ChunkedCallbacks(b) + [MessageComplete]);
      assert es + ([HeadersComplete] + ChunkedCallbacks(b)) + [MessageComplete] ==
             ResponseCallbacks(line, fs) + (ChunkedCallbacks(b) + [MessageComplete]);
      assert ResponseCallbacks(line, fs) + (ChunkedCallbacks(b) + [MessageComplete]) ==
             ResponseCallbacks(line, fs) + ChunkedCallbacks(b) + [MessageComplete];
    }
  }

  // ----- a body that lasts until the connection ends -----

  lemma CloseSwitch(q: Parser, ch: byte, hc: Settings)
    requires q.state == BodyIdentityEof
    ensures Switch(q, false, ch, hc) == Micro(q, [Mark(Body)], Next)
  {
  }

  lemma {:induction false} CloseBytes(q: Parser, d: seq<byte>, hc: Settings)
    requires Valid(q) && q.state == BodyIdentityEof
    ensures Reads(q, d, hc, q, BodyEvents(d))
    decreases |d|
  {
    hide Valid, Switch, Reads;
    if |d| == 0 {
      ReadsNothing(q, hc);
    } else {
      var n := |d| - 1;
      assert d == d[..n] + [d[n]];
      CloseBytes(q, d[..n], hc);
      CloseSwitch(q, d[n], hc);
      DataFirst(q, Body, d[n], q, hc);
      if n == 0 {
        assert d == [d[0]];
      } else {
        var none: seq<Event> := [];
        assert forall x :: none + [Data(Body, x)] == [Data(Body, x)];
        ThenMore(q, d[..n], q, none, Body, d[..n], [d[n]], q, [d[n]], hc);
      }
    }
  }

  lemma CloseBegins(r: Parser, hc: Settings)
    requires r.state == HeadersAlmostDone && !r.flags.trailing && !r.flags.skipBody && !r.flags.chunked
    requires r.contentLength == ULLONG_MAX && NeedsEof(r) && !HeadOf(r).upgrade && hc.headersComplete(HeadOf(r)) == Proceed
    ensures Switch(r, false, LF, hc) == Micro(HeadOf(r).(state := BodyIdentityEof), [Fire(HeadersComplete)], Next, true)
  {
    HeadEndSwitch(r, hc);
    hide Switch, NewMessage;
    var none: seq<Op> := [];
    assert [Fire(HeadersComplete)] + none == [Fire(HeadersComplete)];
  }

  /** A response whose body lasts until the connection ends: every byte after the head is body,
      and the message is not complete. */
  lemma ResponseUntilClose(p: Parser, line: ResponseStart, fs: seq<FieldLine>, d: seq<byte>, hc: Settings, cuts: seq<seq<byte>>)
    returns (t: Parser)
    requires Valid(p) && ResponseParser(p) && GoodStatus(line) && GoodHead(fs, hc)
    requires UntilClose(line, fs) && !ResponseLeaves(p.verb, line, fs)
    requires Concat(cuts) == ResponseHead(line, fs) + ([LF] + d)
    ensures ResponseTold(t, p.verb, line, fs)
    ensures
      hc.headersComplete(t) == Proceed ==>
        var o := Feed(p, cuts, hc);
        o.Running? && o.p == t.(state := BodyIdentityEof) && Join(o.events) == ResponseCallbacks(line, fs) + BodyEvents(d)
  {
    hide Valid, Reads, Feed, Join, NewMessage, GoodStatus, GoodHead, ResponseHead, AllFields, AnyField, LengthOf, Decimal, ReasonOf, Switch;
    var r := ResponseHeadRead(p, line, fs, hc);
    t := HeadOf(r);
    LengthRange(fs, t.contentLength);
    var es, q := [MessageBegin, Data(Status, ReasonOf(line))] + AllFields(fs), t.(state := BodyIdentityEof);
    if hc.headersComplete(t) == Proceed {
      CloseBegins(r, hc);
      ClosedState(r);
      Fires(r, LF, q, HeadersComplete, hc);
      Then(p, ResponseHead(line, fs), r, es, [LF], q, [HeadersComplete], hc);
      CloseBytes(q, d, hc);
      Then(p, ResponseHead(line, fs) + [LF], q, es + [HeadersComplete], d, q, BodyEvents(d), hc);
      assert ResponseHead(line, fs) + [LF] + d == ResponseHead(line, fs) + ([LF] + d);
      Cut(p, Concat(cuts), hc, q, ResponseCallbacks(line, fs) + BodyEvents(d), cuts);
      ResponseApart(line, fs, BodyEvents(d));
    }
  }

  lemma ClosedState(r: Parser)
    requires r.state == HeadersAlmostDone
    ensures OpenKind(r.state) == None
  {
  }
}
