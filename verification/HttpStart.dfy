/** Start lines: what a request line or a status line leaves in the record, and the data it
    hands over. */
module HttpStart {
  import opened Common
  import opened HttpTypes
  import opened HttpSwitch
  import opened HttpInvariant
  import opened HttpSpec
  import opened HttpFragment
  import opened HttpBody
  import opened HttpNames
  import opened HttpUrl

  // ----- the method, with what it leaves -----

  function NamedSoFar(p: Parser, m: Method, i: nat): Parser {
    p.(flags := NO_FLAGS, contentLength := ULLONG_MAX, verb := Before(m, i), index := i, state := ReqMethod)
  }

  lemma MethodFirst(p: Parser, m: Method, hc: Settings)
    requires p.state == StartReq
    ensures |NameBytes(m)| > 0 && Switch(p, false, NameBytes(m)[0], hc) == Micro(NamedSoFar(p, m, 1), [Fire(MessageBegin)], Next)
  {
    hide NameBytes, Before, FirstMethod;
    NameOrdinary(m);
    var ch := NameBytes(m)[0];
    assert Switch(p, false, ch, hc) == OnStartReq(p, ch);
    hide Switch;
  }

  lemma MethodNext(p: Parser, m: Method, i: nat, hc: Settings)
    requires 1 <= i < |NameBytes(m)|
    requires InMethodName(NamedSoFar(p, m, i), NameBytes(m)[..i])
    ensures Switch(NamedSoFar(p, m, i), false, NameBytes(m)[i], hc) == Go(NamedSoFar(p, m, i + 1))
  {
    hide NameBytes, Before, MethodString, InMethodName, Rename;
    var q, ch := NamedSoFar(p, m, i), NameBytes(m)[i];
    NameOrdinary(m);
    MethodStep(q, NameBytes(m)[..i], ch, hc);
    WayStep(q, m, NameBytes(m)[..i], hc);
    assert Switch(q, false, ch, hc) == OnReqMethod(q, ch);
    hide Switch;
  }

  lemma {:induction false} NameReads(p: Parser, m: Method, i: nat, hc: Settings)
    requires Valid(p) && p.state == StartReq && 1 <= i <= |NameBytes(m)|
    ensures Reads(p, NameBytes(m)[..i], hc, NamedSoFar(p, m, i), [MessageBegin])
    ensures InMethodName(NamedSoFar(p, m, i), NameBytes(m)[..i])
    decreases i
  {
    hide Valid, Switch, Reads, ByteEvents, NameBytes, Before, InMethodName, FirstMethod;
    var w := NameBytes(m);
    EventsOf(Body, MessageBegin, w[i - 1]);
    if i == 1 {
      MethodFirst(p, m, hc);
      assert w[..1] == [w[0]];
      NameOrdinary(m);
      MethodBegins(p, w[0], hc);
      ReadsByte(p, w[0], hc);
    } else {
      NameReads(p, m, i - 1, hc);
      var q := NamedSoFar(p, m, i - 1);
      ReadsKeeps(p, w[..i - 1], hc, q, [MessageBegin]);
      MethodNext(p, m, i - 1, hc);
      NameOrdinary(m);
      Quiet(q, w[i - 1], NamedSoFar(p, m, i), hc);
      MethodStep(q, w[..i - 1], w[i - 1], hc);
      Then(p, w[..i - 1], q, [MessageBegin], [w[i - 1]], NamedSoFar(p, m, i), [], hc);
      assert w[..i - 1] + [w[i - 1]] == w[..i] && [MessageBegin] + [] == [MessageBegin];
    }
  }

  // ----- bytes without a callback -----

  /** One more quiet byte. */
  lemma QuietMore(p: Parser, w: seq<byte>, q: Parser, ch: byte, r: Parser, es: seq<Event>, hc: Settings)
    requires Reads(p, w, hc, q, es) && OpenKind(q.state) == None && Switch(q, false, ch, hc) == Go(r)
    ensures Reads(p, w + [ch], hc, r, es)
  {
    hide Valid, Switch, Reads;
    ReadsKeeps(p, w, hc, q, es);
    Quiet(q, ch, r, hc);
    Then(p, w, q, es, [ch], r, [], hc);
    assert es + [] == es;
  }

  /** The type of the message: a parser for both takes it from the first bytes. */
  function TypeFrom(p: Parser, t: ParserType): ParserType {
    if p.state == StartReqOrRes then t else p.typ
  }

  /** The record after a method name and the space. */
  function MethodGiven(p: Parser, m: Method): Parser {
    p.(typ := TypeFrom(p, Request), flags := NO_FLAGS, contentLength := ULLONG_MAX, verb := m,
       index := |MethodString(m)| + 1, state := ReqSpacesBeforeUrl)
  }

  lemma RequestMethodReads(p: Parser, m: Method, hc: Settings)
    requires Valid(p) && p.state == StartReq
    ensures Reads(p, NameBytes(m) + [SP], hc, MethodGiven(p, m), [MessageBegin])
  {
    hide Valid, Switch, Reads, MethodString, NameBytes, Before, InMethodName;
    var w := NameBytes(m);
    NameOrdinary(m);
    NameLength(m);
    assert w[..|w|] == w;
    NameReads(p, m, |w|, hc);
    var q := NamedSoFar(p, m, |w|);
    ReadsKeeps(p, w, hc, q, [MessageBegin]);
    MethodEnd(q, w, hc);
    SpellsName(w, m);
    Quiet(q, SP, MethodGiven(p, m), hc);
    Then(p, w, q, [MessageBegin], [SP], MethodGiven(p, m), [], hc);
    assert [MessageBegin] + [] == [MessageBegin];
  }

  // ----- a parser for both types -----

  /** Records that treat a byte alike read what follows it alike. */
  lemma SameFirst(p: Parser, q: Parser, ch: byte, rest: seq<byte>, r: Parser, es: seq<Event>, hc: Settings)
    requires Valid(p) && Valid(q) && Switch(p, false, ch, hc) == Switch(q, false, ch, hc)
    requires OpenKind(p.state) == OpenKind(q.state) && Reads(q, [ch] + rest, hc, r, es)
    ensures Reads(p, [ch] + rest, hc, r, es)
  {
    hide Valid, Switch, Join, ByteEvents;
    EmptyRun(p, hc);
    EmptyRun(q, hc);
    assert [ch][..0] == [] && [ch][..1] == [ch];
    RunOne(p, [ch], 0, hc, false);
    RunOne(q, [ch], 0, hc, false);
    StrictConcat(p, [ch], rest, hc);
    StrictConcat(q, [ch], rest, hc);
  }

  lemma OnlyHead(m: Method)
    requires m != HEAD
    ensures |MethodString(m)| > 0 && MethodString(m)[0] != 'H'
  {
  }

  lemma EitherFirst(p: Parser, ch: byte, hc: Settings)
    requires p.state == StartReqOrRes && ch != 'H' as int && ch != CR && ch != LF
    ensures Switch(p, false, ch, hc) == Switch(p.(typ := Request, state := StartReq), false, ch, hc)
  {
    hide FirstMethod;
    var q := p.(typ := Request, state := StartReq);
    assert Switch(p, false, ch, hc) == OnStartReq(Reset(q), ch);
    assert Switch(q, false, ch, hc) == OnStartReq(q, ch);
    hide Switch;
  }

  lemma EitherHead(p: Parser, hc: Settings)
    ensures Switch(p.(state := StartReqOrRes), false, 'H' as int, hc) ==
              Micro(p.(flags := NO_FLAGS, contentLength := ULLONG_MAX, state := ResOrRespH), [Fire(MessageBegin)], Next)
    ensures Switch(p.(state := ResOrRespH), false, 'E' as int, hc) ==
              Go(p.(typ := Request, verb := HEAD, index := 2, state := ReqMethod))
    ensures Switch(p.(state := ResOrRespH), false, 'T' as int, hc) == Go(p.(typ := Response, state := ResHT))
  {
  }

  lemma HeadSwitches(p: Parser, hc: Settings)
    requires p.verb == HEAD
    ensures Switch(p.(index := 2, state := ReqMethod), false, 'A' as int, hc) == Go(p.(index := 3, state := ReqMethod))
    ensures Switch(p.(index := 3, state := ReqMethod), false, 'D' as int, hc) == Go(p.(index := 4, state := ReqMethod))
    ensures Switch(p.(index := 4, state := ReqMethod), false, SP, hc) == Go(p.(index := 5, state := ReqSpacesBeforeUrl))
  {
    HeadIs();
    hide MethodString, Rename;
  }

  lemma HeadIs()
    ensures |MethodString(HEAD)| == 4 && MethodString(HEAD)[2] == 'A' && MethodString(HEAD)[3] == 'D'
  {
  }

  lemma FirstFires(p: Parser, ch: byte, q: Parser, hc: Settings)
    requires Valid(p) && OpenKind(p.state) == None && Switch(p, false, ch, hc) == Micro(q, [Fire(MessageBegin)], Next)
    ensures Reads(p, [ch], hc, q, [MessageBegin])
  {
    hide Valid, Switch, Reads, ByteEvents;
    ReadsByte(p, ch, hc);
    EventsOf(Body, MessageBegin, ch);
  }

  lemma HeadNameReads(p: Parser, hc: Settings)
    requires Valid(p) && p.state == StartReqOrRes
    ensures Reads(p, NameBytes(HEAD) + [SP], hc, MethodGiven(p, HEAD), [MessageBegin])
  {
    hide Valid, Switch, Reads;
    var q := p.(flags := NO_FLAGS, contentLength := ULLONG_MAX, state := ResOrRespH);
    var r := q.(typ := Request, verb := HEAD);
    assert p.(state := StartReqOrRes) == p;
    EitherHead(p, hc);
    EitherHead(q, hc);
    assert q.(state := ResOrRespH) == q;
    HeadSwitches(r, hc);
    FirstFires(p, 'H' as int, q, hc);
    var w1: seq<byte> := ['H' as int];
    QuietMore(p, w1, q, 'E' as int, r.(index := 2, state := ReqMethod), [MessageBegin], hc);
    var w2 := w1 + ['E' as int];
    QuietMore(p, w2, r.(index := 2, state := ReqMethod), 'A' as int, r.(index := 3, state := ReqMethod), [MessageBegin], hc);
    var w3 := w2 + ['A' as int];
    QuietMore(p, w3, r.(index := 3, state := ReqMethod), 'D' as int, r.(index := 4, state := ReqMethod), [MessageBegin], hc);
    var w4 := w3 + ['D' as int];
    QuietMore(p, w4, r.(index := 4, state := ReqMethod), SP, r.(index := 5, state := ReqSpacesBeforeUrl), [MessageBegin], hc);
    assert w4 + [SP] == NameBytes(HEAD) + [SP];
  }

  predicate AwaitsRequest(p: Parser) {
    p.state == StartReq || p.state == StartReqOrRes
  }

  lemma OtherReads(p: Parser, m: Method, hc: Settings)
    requires Valid(p) && p.state == StartReqOrRes && m != HEAD
    ensures Reads(p, NameBytes(m) + [SP], hc, MethodGiven(p, m), [MessageBegin])
  {
    hide Switch, Reads, NameBytes, MethodString, OpenKind, IndexRange, DemandOf, Fits;
    var q := p.(typ := Request, state := StartReq);
    StartValid(p, q);
    hide Valid;
    RequestMethodReads(q, m, hc);
    NameOrdinary(m);
    OnlyHead(m);
    NameFirst(m);
    var w := NameBytes(m) + [SP];
    assert w == [w[0]] + w[1..];
    EitherFirst(p, w[0], hc);
    SameFirst(p, q, w[0], w[1..], MethodGiven(p, m), [MessageBegin], hc);
  }

  lemma StartValid(p: Parser, q: Parser)
    requires Valid(p) && p.state == StartReqOrRes && q == p.(typ := Request, state := StartReq)
    ensures Valid(q) && OpenKind(p.state) == OpenKind(q.state)
  {
  }

  lemma MethodReads(p: Parser, m: Method, hc: Settings)
    requires Valid(p) && AwaitsRequest(p)
    ensures Reads(p, NameBytes(m) + [SP], hc, MethodGiven(p, m), [MessageBegin])
  {
    hide Valid, Switch, Reads, NameBytes, MethodString;
    if p.state == StartReq {
      RequestMethodReads(p, m, hc);
    } else if m == HEAD {
      HeadNameReads(p, hc);
    } else {
      OtherReads(p, m, hc);
    }
  }

  lemma NameFirst(m: Method)
    ensures |NameBytes(m)| > 0 && |MethodString(m)| > 0 && NameBytes(m)[0] == MethodString(m)[0] as int
  {
    WayBegins(m);
    hide MethodString;
  }

  // ----- spaces -----

  predicate AllSpaces(w: seq<byte>) {
    forall i :: 0 <= i < |w| ==> w[i] == SP
  }

  lemma SpaceStays(p: Parser, hc: Settings)
    requires p.state == ReqSpacesBeforeUrl || p.state == ReqHttpStart || p.state == ResFirstStatusCode
    ensures Switch(p, false, SP, hc) == Go(p)
  {
  }

  lemma {:induction false} SpacesStay(p: Parser, w: seq<byte>, q: Parser, more: seq<byte>, es: seq<Event>, hc: Settings)
    requires Reads(p, w, hc, q, es) && AllSpaces(more)
    requires q.state == ReqSpacesBeforeUrl || q.state == ReqHttpStart || q.state == ResFirstStatusCode
    ensures Reads(p, w + more, hc, q, es)
    decreases |more|
  {
    hide Valid, Switch, Reads;
    if |more| == 0 {
      assert w + more == w;
    } else {
      var n := |more| - 1;
      SpacesStay(p, w, q, more[..n], es, hc);
      SpaceStays(q, hc);
      QuietMore(p, w + more[..n], q, SP, q, es, hc);
      assert w + more == w + more[..n] + [SP];
    }
  }

  // ----- the version of a request -----

  type digit = n: nat | n < 10

  function DigitByte(n: digit): byte {
    '0' as int + n
  }

  /** HTTP/d.e */
  function VersionBytes(d: digit, e: digit): seq<byte> {
    ['H' as int, 'T' as int, 'T' as int, 'P' as int, '/' as int] + NumberBytes(d, e)
  }

  function NumberBytes(d: digit, e: digit): seq<byte> {
    [DigitByte(d), '.' as int, DigitByte(e)]
  }

  lemma NameSwitch(p: Parser, hc: Settings)
    ensures Switch(p.(state := ReqHttpStart), false, 'H' as int, hc) == Go(p.(state := ReqHttpH))
  {
  }

  lemma NameSwitches(p: Parser, hc: Settings)
    ensures Switch(p.(state := ReqHttpH), false, 'T' as int, hc) == Go(p.(state := ReqHttpHT))
    ensures Switch(p.(state := ReqHttpHT), false, 'T' as int, hc) == Go(p.(state := ReqHttpHTT))
  {
  }

  lemma NameSwitchesOn(p: Parser, hc: Settings)
    ensures Switch(p.(state := ReqHttpHTT), false, 'P' as int, hc) == Go(p.(state := ReqHttpHTTP))
    ensures Switch(p.(state := ReqHttpHTTP), false, '/' as int, hc) == Go(p.(state := ReqHttpMajor))
  {
  }

  lemma MajorSwitch(p: Parser, d: digit, hc: Settings)
    ensures Switch(p.(state := ReqHttpMajor), false, DigitByte(d), hc) == Go(p.(state := ReqHttpDot, httpMajor := d))
  {
  }

  lemma MinorSwitches(p: Parser, d: digit, hc: Settings)
    ensures Switch(p.(state := ReqHttpDot), false, '.' as int, hc) == Go(p.(state := ReqHttpMinor))
    ensures Switch(p.(state := ReqHttpMinor), false, DigitByte(d), hc) == Go(p.(state := ReqHttpEnd, httpMinor := d))
  {
  }

  lemma HttpReads(p: Parser, hc: Settings)
    requires Valid(p) && p.state == ReqHttpStart
    ensures Reads(p, ['H' as int, 'T' as int, 'T' as int, 'P' as int, '/' as int], hc, p.(state := ReqHttpMajor), [])
  {
    hide Valid, Switch, Reads;
    NameSwitch(p, hc);
    NameSwitches(p, hc);
    NameSwitchesOn(p, hc);
    var none: seq<byte> := [];
    ReadsNothing(p, hc);
    QuietMore(p, none, p, 'H' as int, p.(state := ReqHttpH), [], hc);
    var w1 := none + ['H' as int];
    QuietMore(p, w1, p.(state := ReqHttpH), 'T' as int, p.(state := ReqHttpHT), [], hc);
    var w2 := w1 + ['T' as int];
    QuietMore(p, w2, p.(state := ReqHttpHT), 'T' as int, p.(state := ReqHttpHTT), [], hc);
    var w3 := w2 + ['T' as int];
    QuietMore(p, w3, p.(state := ReqHttpHTT), 'P' as int, p.(state := ReqHttpHTTP), [], hc);
    var w4 := w3 + ['P' as int];
    QuietMore(p, w4, p.(state := ReqHttpHTTP), '/' as int, p.(state := ReqHttpMajor), [], hc);
    assert w4 + ['/' as int] == ['H' as int, 'T' as int, 'T' as int, 'P' as int, '/' as int];
  }

  lemma NumbersRead(p: Parser, d: digit, e: digit, hc: Settings)
    requires Valid(p) && p.state == ReqHttpMajor
    ensures Reads(p, NumberBytes(d, e), hc, p.(state := ReqHttpEnd, httpMajor := d, httpMinor := e), [])
  {
    hide Valid, Switch, Reads;
    var q := p.(httpMajor := d);
    MajorSwitch(p, d, hc);
    MinorSwitches(q, e, hc);
    var none: seq<byte> := [];
    ReadsNothing(p, hc);
    QuietMore(p, none, p, DigitByte(d), q.(state := ReqHttpDot), [], hc);
    var w1 := none + [DigitByte(d)];
    QuietMore(p, w1, q.(state := ReqHttpDot), '.' as int, q.(state := ReqHttpMinor), [], hc);
    var w2 := w1 + ['.' as int];
    QuietMore(p, w2, q.(state := ReqHttpMinor), DigitByte(e), q.(state := ReqHttpEnd, httpMinor := e), [], hc);
    assert w2 + [DigitByte(e)] == NumberBytes(d, e);
  }

  lemma VersionReads(p: Parser, d: digit, e: digit, hc: Settings)
    requires Valid(p) && p.state == ReqHttpStart
    ensures Reads(p, VersionBytes(d, e), hc, p.(state := ReqHttpEnd, httpMajor := d, httpMinor := e), [])
  {
    hide Valid, Switch, Reads, NumberBytes;
    var word := ['H' as int, 'T' as int, 'T' as int, 'P' as int, '/' as int];
    HttpReads(p, hc);
    ReadsKeeps(p, word, hc, p.(state := ReqHttpMajor), []);
    NumbersRead(p.(state := ReqHttpMajor), d, e, hc);
    ThenOn(p, word, p.(state := ReqHttpMajor), NumberBytes(d, e), p.(state := ReqHttpEnd, httpMajor := d, httpMinor := e), [], hc);
  }

  // ----- the end of a request line -----

  predicate EndOfLine(w: seq<byte>) {
    w == [CR, LF] || w == [LF]
  }

  lemma RequestEndSwitches(p: Parser, hc: Settings)
    ensures Switch(p.(state := ReqHttpEnd), false, CR, hc) == Go(p.(state := ReqLineAlmostDone))
    ensures Switch(p.(state := ReqHttpEnd), false, LF, hc) == Go(p.(state := HeaderFieldStart))
  {
  }

  lemma RequestLineFeed(p: Parser, hc: Settings)
    ensures Switch(p.(state := ReqLineAlmostDone), false, LF, hc) == Go(p.(state := HeaderFieldStart))
  {
  }

  lemma RequestLineEnds(p: Parser, w: seq<byte>, q: Parser, end: seq<byte>, es: seq<Event>, hc: Settings)
    requires Reads(p, w, hc, q, es) && q.state == ReqHttpEnd && EndOfLine(end)
    ensures Reads(p, w + end, hc, q.(state := HeaderFieldStart), es)
  {
    hide Valid, Switch, Reads;
    RequestEndSwitches(q, hc);
    RequestLineFeed(q, hc);
    if end == [LF] {
      QuietMore(p, w, q, LF, q.(state := HeaderFieldStart), es, hc);
    } else {
      QuietMore(p, w, q, CR, q.(state := ReqLineAlmostDone), es, hc);
      QuietMore(p, w + [CR], q.(state := ReqLineAlmostDone), LF, q.(state := HeaderFieldStart), es, hc);
      assert w + [CR] + [LF] == w + end;
    }
  }

  // ----- a request line -----

  /** A method, a URL and a version, with the spaces between them beyond the first. */
  datatype RequestStart = RequestStart(verb: Method, before: seq<byte>, url: seq<byte>, after: seq<byte>, major: digit, minor: digit, end: seq<byte>)

  predicate GoodRequest(r: RequestStart) {
    AllSpaces(r.before) && AllSpaces(r.after) && NoBreak(r.url) && IsUrl(r.verb, r.url) && EndOfLine(r.end)
  }

  function RequestBytes(r: RequestStart): seq<byte> {
    NameBytes(r.verb) + [SP] + r.before + (r.url + [SP]) + r.after + VersionBytes(r.major, r.minor) + r.end
  }

  /** The record when the first header field begins. */
  function Requested(p: Parser, r: RequestStart): Parser {
    p.(typ := TypeFrom(p, Request), flags := NO_FLAGS, contentLength := ULLONG_MAX, verb := r.verb, index := |MethodString(r.verb)| + 1,
       httpMajor := r.major, httpMinor := r.minor, state := HeaderFieldStart)
  }

  lemma RequestLine(p: Parser, r: RequestStart, hc: Settings)
    requires Valid(p) && AwaitsRequest(p) && GoodRequest(r)
    ensures Reads(p, RequestBytes(r), hc, Requested(p, r), [MessageBegin, Data(Url, r.url)])
  {
    hide Valid, Switch, Reads, MethodString, NameBytes, IsUrl, VersionBytes, NoBreak, AllSpaces;
    var q, es := MethodGiven(p, r.verb), [MessageBegin] + [Data(Url, r.url)];
    var w := NameBytes(r.verb) + [SP];
    MethodReads(p, r.verb, hc);
    SpacesStay(p, w, q, r.before, [MessageBegin], hc);
    ReadsKeeps(p, w, hc, q, [MessageBegin]);
    UrlHasBytes(r.verb, r.url);
    UrlExact(q, r.url, SP, hc);
    var w1, q1 := w + r.before + (r.url + [SP]), q.(state := ReqHttpStart);
    Then(p, w + r.before, q, [MessageBegin], r.url + [SP], q1, [Data(Url, r.url)], hc);
    SpacesStay(p, w1, q1, r.after, es, hc);
    ReadsKeeps(p, w1, hc, q1, es);
    VersionReads(q1, r.major, r.minor, hc);
    var q2 := q1.(state := ReqHttpEnd, httpMajor := r.major, httpMinor := r.minor);
    Then(p, w1 + r.after, q1, es, VersionBytes(r.major, r.minor), q2, [], hc);
    assert es + [] == es && es == [MessageBegin, Data(Url, r.url)];
    RequestLineEnds(p, w1 + r.after + VersionBytes(r.major, r.minor), q2, r.end, es, hc);
  }

  lemma UrlHasBytes(m: Method, u: seq<byte>)
    requires IsUrl(m, u)
    ensures |u| > 0
  {
  }

  /** A line without a version, of HTTP/0.9. */
  lemma SimpleLine(p: Parser, m: Method, before: seq<byte>, u: seq<byte>, end: seq<byte>, hc: Settings)
    requires Valid(p) && AwaitsRequest(p) && AllSpaces(before) && NoBreak(u) && IsUrl(m, u) && EndOfLine(end)
    ensures Reads(p, NameBytes(m) + [SP] + before + u + end, hc, MethodGiven(p, m).(httpMajor := 0, httpMinor := 9, state := HeaderFieldStart),
                  [MessageBegin, Data(Url, u)])
  {
    hide Valid, Switch, Reads, MethodString, NameBytes, IsUrl, NoBreak, AllSpaces;
    var q, es := MethodGiven(p, m), [MessageBegin] + [Data(Url, u)];
    var w := NameBytes(m) + [SP];
    MethodReads(p, m, hc);
    SpacesStay(p, w, q, before, [MessageBegin], hc);
    ReadsKeeps(p, w, hc, q, [MessageBegin]);
    UrlHasBytes(m, u);
    UrlExact(q, u, end[0], hc);
    var r := AfterUrl(q, end[0]);
    Then(p, w + before, q, [MessageBegin], u + [end[0]], r, [Data(Url, u)], hc);
    assert w + before + (u + [end[0]]) == w + before + u + [end[0]] && es == [MessageBegin, Data(Url, u)];
    if end[0] == CR {
      RequestLineFeed(r, hc);
      assert r.(state := ReqLineAlmostDone) == r;
      QuietMore(p, w + before + u + [end[0]], r, LF, r.(state := HeaderFieldStart), es, hc);
      assert w + before + u + [CR] + [LF] == w + before + u + end;
    } else {
      assert end == [end[0]];
    }
  }

  // ----- empty lines before a message -----

  predicate Blank(w: seq<byte>) {
    forall i :: 0 <= i < |w| ==> w[i] == CR || w[i] == LF
  }

  lemma BlankSwitch(p: Parser, ch: byte, hc: Settings)
    requires ch == CR || ch == LF
    ensures Switch(p.(state := StartReq), false, ch, hc) == Go(p.(state := StartReq))
    ensures Switch(p.(state := StartReqOrRes), false, ch, hc) == Go(p.(state := StartReqOrRes))
    ensures Switch(p.(state := StartRes), false, ch, hc) ==
              Micro(p.(flags := NO_FLAGS, contentLength := ULLONG_MAX, state := StartRes), [Fire(MessageBegin)], Next)
  {
  }

  lemma {:induction false} BlankRequest(p: Parser, w: seq<byte>, hc: Settings)
    requires Valid(p) && AwaitsRequest(p) && Blank(w)
    ensures Reads(p, w, hc, p, [])
    decreases |w|
  {
    hide Valid, Switch, Reads;
    if |w| == 0 {
      ReadsNothing(p, hc);
    } else {
      var n := |w| - 1;
      BlankRequest(p, w[..n], hc);
      BlankSwitch(p, w[n], hc);
      assert p.(state := p.state) == p && w == w[..n] + [w[n]];
      QuietMore(p, w[..n], p, w[n], p, [], hc);
    }
  }

  // ----- data in pieces -----

  lemma EmptyData(k: Kind, ch: byte)
    ensures ByteEvents(None, [Mark(k), Flush(k, false)], ch) == [Data(k, [])]
    ensures ByteEvents(Some(k), [Flush(k, false)], ch) == [Data(k, [])]
  {
    var none: seq<Op> := [];
    assert [Flush(k, false)][1..] == none;
    assert ByteEvents(Some(k), [Flush(k, false)], ch) == [Data(k, [])] + ByteEvents(None, none, ch);
    assert [Mark(k), Flush(k, false)][1..] == [Flush(k, false)];
  }

  /** Two data callbacks of one kind in a row count as one. */
  lemma Merge(p: Parser, w: seq<byte>, hc: Settings, q: Parser, es: seq<Event>, k: Kind, x: seq<byte>, y: seq<byte>)
    requires Reads(p, w, hc, q, es + [Data(k, x)] + [Data(k, y)])
    ensures Reads(p, w, hc, q, es + [Data(k, x + y)])
  {
    hide Valid, Join, Run;
    JoinPair(es, k, x, y);
  }

  // ----- however it is cut -----

  /** What is read is delivered the same however it is cut into calls. */
  lemma Cut(p: Parser, w: seq<byte>, hc: Settings, q: Parser, es: seq<Event>, fs: seq<seq<byte>>)
    requires Reads(p, w, hc, q, es) && Concat(fs) == w
    ensures
      var r := Feed(p, fs, hc);
      r.Running? && r.p == q && Join(r.events) == Join(es)
  {
    hide Valid, Join, Run, Switch, Hidden, HiddenAt;
    AcceptedIsNotHidden(p, w, hc);
    FeedFed(p, fs, hc);
  }

  /** A request line cut anywhere: the URL is handed over as exactly the bytes between the
      spaces, and the record has the method and the two digits of the version. */
  lemma RequestLineDelivered(p: Parser, r: RequestStart, hc: Settings, fs: seq<seq<byte>>)
    requires Valid(p) && AwaitsRequest(p) && GoodRequest(r) && Concat(fs) == RequestBytes(r)
    ensures
      var o := Feed(p, fs, hc);
      o.Running? && o.p == Requested(p, r) && Join(o.events) == [MessageBegin, Data(Url, r.url)]
  {
    hide Valid, Join, Run, Switch, Feed, GoodRequest, RequestBytes, Reads;
    RequestLine(p, r, hc);
    Cut(p, RequestBytes(r), hc, Requested(p, r), [MessageBegin, Data(Url, r.url)], fs);
    JoinTwo(MessageBegin, Data(Url, r.url));
  }

  lemma JoinTwo(e: Event, f: Event)
    requires !(e.Data? && f.Data?)
    ensures Join([e, f]) == [e, f]
  {
    var none: seq<Event> := [];
    assert none + [e] == [e] && [e] + [f] == [e, f];
    JoinOne(none, e);
    JoinOne([e], f);
  }
}
