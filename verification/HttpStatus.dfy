/** The status line of a response: what it leaves in the record, and the reason it hands over. */
module HttpStatus {
  import opened Common
  import opened HttpTypes
  import opened HttpSwitch
  import opened HttpInvariant
  import opened HttpSpec
  import opened HttpFragment
  import opened HttpBody
  import opened HttpLength
  import opened HttpStart

  lemma ResponseFirst(p: Parser, hc: Settings)
    ensures Switch(p.(state := StartRes), false, 'H' as int, hc) ==
              Micro(p.(flags := NO_FLAGS, contentLength := ULLONG_MAX, state := ResH), [Fire(MessageBegin)], Next)
    ensures Switch(p.(state := ResH), false, 'T' as int, hc) == Go(p.(state := ResHT))
  {
  }

  lemma ResponseSecond(p: Parser, hc: Settings)
    ensures Switch(p.(state := ResHT), false, 'T' as int, hc) == Go(p.(state := ResHTT))
  {
  }

  lemma ResponseNameSwitchesOn(p: Parser, hc: Settings)
    ensures Switch(p.(state := ResHTT), false, 'P' as int, hc) == Go(p.(state := ResHTTP))
    ensures Switch(p.(state := ResHTTP), false, '/' as int, hc) == Go(p.(state := ResHttpMajor))
  {
  }

  lemma ResponseMajorSwitch(p: Parser, d: digit, hc: Settings)
    ensures Switch(p.(state := ResHttpMajor), false, DigitByte(d), hc) == Go(p.(state := ResHttpDot, httpMajor := d))
  {
  }

  lemma ResponseMinorSwitches(p: Parser, d: digit, hc: Settings)
    ensures Switch(p.(state := ResHttpDot), false, '.' as int, hc) == Go(p.(state := ResHttpMinor))
    ensures Switch(p.(state := ResHttpMinor), false, DigitByte(d), hc) == Go(p.(state := ResHttpEnd, httpMinor := d))
  {
  }

  lemma ResponseSpaceSwitch(p: Parser, hc: Settings)
    ensures Switch(p.(state := ResHttpEnd), false, SP, hc) == Go(p.(state := ResFirstStatusCode))
  {
  }

  predicate AwaitsResponse(p: Parser) {
    p.state == StartRes || p.state == StartReqOrRes
  }

  /** A message has begun. */
  function Begun(p: Parser): Parser {
    p.(typ := TypeFrom(p, Response), flags := NO_FLAGS, contentLength := ULLONG_MAX)
  }

  lemma ResponseBegins(p: Parser, hc: Settings)
    requires Valid(p) && AwaitsResponse(p)
    ensures Reads(p, ['H' as int, 'T' as int], hc, Begun(p).(state := ResHT), [MessageBegin])
  {
    hide Valid, Switch, Reads;
    assert p.(state := p.state) == p;
    var w: seq<byte> := ['H' as int];
    var s := if p.state == StartRes then ResH else ResOrRespH;
    var q := p.(flags := NO_FLAGS, contentLength := ULLONG_MAX, state := s);
    ResponseFirst(p, hc);
    ResponseFirst(q, hc);
    EitherHead(p, hc);
    EitherHead(q, hc);
    assert q.(state := q.state) == q;
    FirstFires(p, 'H' as int, q, hc);
    QuietMore(p, w, q, 'T' as int, Begun(p).(state := ResHT), [MessageBegin], hc);
    assert w + ['T' as int] == ['H' as int, 'T' as int];
  }

  /** From "TP/" to the version. */
  lemma ResponseNameReads(p: Parser, w: seq<byte>, q: Parser, es: seq<Event>, hc: Settings)
    requires Reads(p, w, hc, q, es) && q.state == ResHT
    ensures Reads(p, w + ['T' as int, 'P' as int, '/' as int], hc, q.(state := ResHttpMajor), es)
  {
    hide Valid, Switch, Reads;
    ResponseSecond(q, hc);
    ResponseNameSwitchesOn(q, hc);
    assert q.(state := ResHT) == q;
    QuietMore(p, w, q, 'T' as int, q.(state := ResHTT), es, hc);
    var w2 := w + ['T' as int];
    QuietMore(p, w2, q.(state := ResHTT), 'P' as int, q.(state := ResHTTP), es, hc);
    var w3 := w2 + ['P' as int];
    QuietMore(p, w3, q.(state := ResHTTP), '/' as int, q.(state := ResHttpMajor), es, hc);
    assert w3 + ['/' as int] == w + ['T' as int, 'P' as int, '/' as int];
  }

  lemma ResponseNumbersRead(p: Parser, w: seq<byte>, q: Parser, es: seq<Event>, d: digit, e: digit, hc: Settings)
    requires Reads(p, w, hc, q, es) && q.state == ResHttpMajor
    ensures Reads(p, w + NumberBytes(d, e) + [SP], hc, q.(state := ResFirstStatusCode, httpMajor := d, httpMinor := e), es)
  {
    hide Valid, Switch, Reads;
    var r := q.(httpMajor := d);
    ResponseMajorSwitch(q, d, hc);
    ResponseMinorSwitches(r, e, hc);
    ResponseSpaceSwitch(r.(httpMinor := e), hc);
    QuietMore(p, w, q, DigitByte(d), r.(state := ResHttpDot), es, hc);
    var w1 := w + [DigitByte(d)];
    QuietMore(p, w1, r.(state := ResHttpDot), '.' as int, r.(state := ResHttpMinor), es, hc);
    var w2 := w1 + ['.' as int];
    QuietMore(p, w2, r.(state := ResHttpMinor), DigitByte(e), r.(state := ResHttpEnd, httpMinor := e), es, hc);
    var w3 := w2 + [DigitByte(e)];
    assert w3 == w + NumberBytes(d, e);
    QuietMore(p, w3, r.(state := ResHttpEnd, httpMinor := e), SP, r.(state := ResFirstStatusCode, httpMinor := e), es, hc);
  }

  // ----- the status code -----

  lemma CodeFirst(p: Parser, ch: byte, hc: Settings)
    requires p.state == ResFirstStatusCode && IsNum(ch)
    ensures Switch(p, false, ch, hc) == Go(p.(statusCode := Digit(ch), state := ResStatusCode))
  {
  }

  lemma CodeNext(p: Parser, ch: byte, hc: Settings)
    requires p.state == ResStatusCode && IsNum(ch)
    ensures
      var m, code := Switch(p, false, ch, hc), 10 * p.statusCode + Digit(ch);
      if code > 999 then m.fin == Fail(INVALID_STATUS) else m == Go(p.(statusCode := code))
  {
  }

  /** A status code is the number of its digits, and refused above 999. */
  lemma {:induction false} CodeExact(p: Parser, w: seq<byte>, q: Parser, es: seq<Event>, code: seq<byte>, hc: Settings)
    requires Reads(p, w, hc, q, es) && q.state == ResFirstStatusCode && |code| > 0 && Digits(code)
    ensures Decimal(code) <= 999 ==> Reads(p, w + code, hc, q.(statusCode := Decimal(code), state := ResStatusCode), es)
    ensures Decimal(code) > 999 ==>
              Run(p, w + code, hc, false).Failed? && Run(p, w + code, hc, false).errno == INVALID_STATUS
    decreases |code|
  {
    hide Valid, Switch, Reads, Run;
    var n := |code| - 1;
    assert w + code == w + code[..n] + [code[n]];
    ReadsKeeps(p, w, hc, q, es);
    if n == 0 {
      assert code[..n] == [] && w + [] == w && Decimal([]) == 0;
      assert Decimal(code) == Digit(code[0]) && w + code == w + [code[0]];
      CodeFirst(q, code[0], hc);
      QuietMore(p, w, q, code[0], q.(statusCode := Digit(code[0]), state := ResStatusCode), es, hc);
    } else {
      CodeExact(p, w, q, es, code[..n], hc);
      if Decimal(code[..n]) <= 999 {
        var r := q.(statusCode := Decimal(code[..n]), state := ResStatusCode);
        CodeNext(r, code[n], hc);
        if Decimal(code) <= 999 {
          QuietMore(p, w + code[..n], r, code[n], r.(statusCode := Decimal(code)), es, hc);
        } else {
          FailsAfter(p, w + code[..n], r, es, code[n], INVALID_STATUS, hc);
        }
      } else {
        RunEnded(p, w + code, |w| + n, hc, false);
      }
    }
  }

  // ----- the reason -----

  predicate OneLine(v: seq<byte>) {
    forall i :: 0 <= i < |v| ==> v[i] != CR && v[i] != LF
  }

  lemma ReasonSwitches(p: Parser, ch: byte, hc: Settings)
    ensures Switch(p.(state := ResStatusCode), false, SP, hc) == Go(p.(state := ResStatusStart))
    ensures ch != CR && ch != LF ==>
              Switch(p.(state := ResStatusStart), false, ch, hc) == Micro(p.(state := ResStatus, index := 0), [Mark(Status)], Next)
    ensures ch != CR && ch != LF ==> Switch(p.(state := ResStatus), false, ch, hc) == Go(p.(state := ResStatus))
  {
    var none: seq<Op> := [];
    assert [Mark(Status)] + none == [Mark(Status)];
  }

  lemma {:induction false} ReasonReads(p: Parser, v: seq<byte>, hc: Settings)
    requires Valid(p) && p.state == ResStatusStart && |v| > 0 && OneLine(v)
    ensures Reads(p, v, hc, p.(state := ResStatus, index := 0), [Data(Status, v)])
    decreases |v|
  {
    hide Valid, Switch, Reads;
    var n := |v| - 1;
    var q := p.(state := ResStatus, index := 0);
    assert v == v[..n] + [v[n]];
    ReasonSwitches(p, v[n], hc);
    if n == 0 {
      assert v == [v[0]];
      DataFirst(p, Status, v[0], q, hc);
    } else {
      ReasonReads(p, v[..n], hc);
      ReasonSwitches(q, v[n], hc);
      DataMore(p, v[..n], q, Status, v[n], q, hc);
    }
  }

  lemma ReasonEndSwitches(p: Parser, ch: byte, hc: Settings)
    requires ch == CR || ch == LF
    ensures
      var q := p.(state := if ch == CR then ResLineAlmostDone else HeaderFieldStart);
      && Switch(p.(state := ResStatus), false, ch, hc) == Micro(q, [Flush(Status, false)], Next)
      && Switch(p.(state := ResStatusStart), false, ch, hc) == Micro(q.(index := 0), [Mark(Status), Flush(Status, false)], Next)
  {
    assert [Mark(Status)] + [Flush(Status, false)] == [Mark(Status), Flush(Status, false)];
  }

  lemma CodeEndSwitch(p: Parser, ch: byte, hc: Settings)
    requires ch == CR || ch == LF
    ensures Switch(p.(state := ResStatusCode), false, ch, hc) == Switch(p.(state := ResStatusStart), false, ch, hc)
  {
  }

  lemma ResponseLineFeed(p: Parser, hc: Settings)
    ensures Switch(p.(state := ResLineAlmostDone), false, LF, hc) == Go(p.(state := HeaderFieldStart))
  {
  }

  /** The first byte of the line end, and the second if there are two. */
  lemma ReasonEnds(p: Parser, w: seq<byte>, q: Parser, end: seq<byte>, es: seq<Event>, hc: Settings)
    requires Reads(p, w, hc, q, es) && EndOfLine(end)
    requires q.state == ResStatusCode || q.state == ResStatusStart || (q.state == ResStatus && q.index == 0)
    ensures Reads(p, w + end, hc, q.(index := 0, state := HeaderFieldStart), es + [Data(Status, [])])
  {
    hide Valid, Switch, Reads, ByteEvents;
    var ch := end[0];
    var r := q.(index := 0, state := if ch == CR then ResLineAlmostDone else HeaderFieldStart);
    ReadsKeeps(p, w, hc, q, es);
    assert q.(state := q.state) == q;
    ReasonEndSwitches(q, ch, hc);
    CodeEndSwitch(q, ch, hc);
    ReadsByte(q, ch, hc);
    EmptyData(Status, ch);
    ReasonOpen(q.state);
    Then(p, w, q, es, [ch], r, [Data(Status, [])], hc);
    if ch == CR {
      ResponseLineFeed(r, hc);
      QuietMore(p, w + [ch], r, LF, r.(state := HeaderFieldStart), es + [Data(Status, [])], hc);
      assert w + [CR] + [LF] == w + end;
    } else {
      assert end == [ch];
    }
  }

  lemma ReasonOpen(s: State)
    ensures s == ResStatus ==> OpenKind(s) == Some(Status)
    ensures s == ResStatusCode || s == ResStatusStart || s == ResLineAlmostDone ==> OpenKind(s) == None
  {
  }

  /** A version, a status code and, after a space, a reason. */
  datatype ResponseStart =
    ResponseStart(major: digit, minor: digit, before: seq<byte>, code: seq<byte>, reason: Option<seq<byte>>, end: seq<byte>)

  function ReasonOf(r: ResponseStart): seq<byte> {
    if r.reason.Some? then r.reason.value else []
  }

  predicate GoodResponse(r: ResponseStart) {
    AllSpaces(r.before) && |r.code| > 0 && Digits(r.code) && OneLine(ReasonOf(r)) && EndOfLine(r.end)
  }

  /** Up to the status code. */
  function BeforeCode(r: ResponseStart): seq<byte> {
    VersionBytes(r.major, r.minor) + [SP] + r.before
  }

  function ResponseBytes(r: ResponseStart): seq<byte> {
    BeforeCode(r) + r.code + (if r.reason.Some? then [SP] + r.reason.value else []) + r.end
  }

  function Responded(p: Parser, r: ResponseStart): Parser
    requires Digits(r.code)
  {
    p.(typ := TypeFrom(p, Response), flags := NO_FLAGS, contentLength := ULLONG_MAX, httpMajor := r.major, httpMinor := r.minor,
       statusCode := Decimal(r.code), index := 0, state := HeaderFieldStart)
  }

  function AtCode(p: Parser, r: ResponseStart): Parser {
    Begun(p).(httpMajor := r.major, httpMinor := r.minor, state := ResFirstStatusCode)
  }

  lemma UpToCode(p: Parser, r: ResponseStart, hc: Settings)
    requires Valid(p) && AwaitsResponse(p) && AllSpaces(r.before)
    ensures Reads(p, BeforeCode(r), hc, AtCode(p, r), [MessageBegin])
  {
    hide Valid, Switch, Reads, NumberBytes, AllSpaces;
    var q := Begun(p).(state := ResHT);
    var w := ['H' as int, 'T' as int];
    var w1 := w + ['T' as int, 'P' as int, '/' as int];
    ResponseBegins(p, hc);
    ResponseNameReads(p, w, q, [MessageBegin], hc);
    ResponseNumbersRead(p, w1, q.(state := ResHttpMajor), [MessageBegin], r.major, r.minor, hc);
    assert w1 + NumberBytes(r.major, r.minor) == VersionBytes(r.major, r.minor);
    SpacesStay(p, w1 + NumberBytes(r.major, r.minor) + [SP], AtCode(p, r), r.before, [MessageBegin], hc);
  }

  /** A status line is read exactly if its code is at most 999: the record has the digits of
      the version and the number of the code, and the reason is handed over. */
  lemma StatusLine(p: Parser, r: ResponseStart, hc: Settings)
    requires Valid(p) && AwaitsResponse(p) && GoodResponse(r)
    ensures Decimal(r.code) <= 999 ==> Reads(p, ResponseBytes(r), hc, Responded(p, r), [MessageBegin, Data(Status, ReasonOf(r))])
    ensures Decimal(r.code) > 999 ==> Run(p, ResponseBytes(r), hc, false).Failed? && Run(p, ResponseBytes(r), hc, false).errno == INVALID_STATUS
  {
    hide Valid, Switch, Reads, Run, BeforeCode, Decimal;
    var w, q := BeforeCode(r) + r.code, AtCode(p, r);
    UpToCode(p, r, hc);
    CodeExact(p, BeforeCode(r), q, [MessageBegin], r.code, hc);
    assert ResponseBytes(r)[..|w|] == w;
    if Decimal(r.code) > 999 {
      ReadsKeeps(p, BeforeCode(r), hc, q, [MessageBegin]);
      RunEnded(p, ResponseBytes(r), |w|, hc, false);
    } else {
      AfterCode(p, w, q.(statusCode := Decimal(r.code), state := ResStatusCode), r, hc);
    }
  }

  lemma AfterCode(p: Parser, w: seq<byte>, q: Parser, r: ResponseStart, hc: Settings)
    requires Reads(p, w, hc, q, [MessageBegin]) && q.state == ResStatusCode && OneLine(ReasonOf(r)) && EndOfLine(r.end)
    ensures Reads(p, w + (if r.reason.Some? then [SP] + r.reason.value else []) + r.end, hc, q.(index := 0, state := HeaderFieldStart),
                  [MessageBegin, Data(Status, ReasonOf(r))])
  {
    hide Valid, Switch, Reads;
    assert [MessageBegin] + [Data(Status, [])] == [MessageBegin, Data(Status, [])];
    if r.reason.None? {
      assert w + [] == w;
      ReasonEnds(p, w, q, r.end, [MessageBegin], hc);
    } else {
      var v, s := r.reason.value, q.(state := ResStatusStart);
      ReasonSwitches(q, 'x' as int, hc);
      assert q.(state := q.state) == q;
      ReasonOpen(q.state);
      QuietMore(p, w, q, SP, s, [MessageBegin], hc);
      if |v| == 0 {
        assert [SP as byte] + v == [SP];
        ReasonEnds(p, w + [SP], s, r.end, [MessageBegin], hc);
      } else {
        ReasonGiven(p, w + [SP], s, v, r.end, hc);
        assert w + [SP] + v == w + ([SP] + v);
      }
    }
  }

  lemma ReasonGiven(p: Parser, w: seq<byte>, s: Parser, v: seq<byte>, end: seq<byte>, hc: Settings)
    requires Reads(p, w, hc, s, [MessageBegin]) && s.state == ResStatusStart && |v| > 0 && OneLine(v) && EndOfLine(end)
    ensures Reads(p, w + v + end, hc, s.(index := 0, state := HeaderFieldStart), [MessageBegin, Data(Status, v)])
  {
    hide Valid, Switch, Reads;
    var t := s.(state := ResStatus, index := 0);
    var r := s.(index := 0, state := HeaderFieldStart);
    ReadsKeeps(p, w, hc, s, [MessageBegin]);
    ReasonReads(s, v, hc);
    Then(p, w, s, [MessageBegin], v, t, [Data(Status, v)], hc);
    ReasonEnds(p, w + v, t, end, [MessageBegin] + [Data(Status, v)], hc);
    Merge(p, w + v + end, hc, r, [MessageBegin], Status, v, []);
    assert [MessageBegin] + [Data(Status, v)] == [MessageBegin, Data(Status, v)] && v + [] == v;
  }

  // ----- empty lines before a response -----

  /** A parser of responses notifies of the begin of a message at each of these bytes, and
      once more when the message begins. */
  lemma {:induction false} BlankResponse(p: Parser, w: seq<byte>, hc: Settings)
    requires Valid(p) && p.state == StartRes && Blank(w)
    ensures Reads(p, w, hc, if w == [] then p else Begun(p), seq(|w|, i => MessageBegin))
    decreases |w|
  {
    hide Valid, Switch, Reads;
    if |w| == 0 {
      ReadsNothing(p, hc);
      assert seq(|w|, i => MessageBegin) == [];
    } else {
      var n := |w| - 1;
      BlankResponse(p, w[..n], hc);
      var q := if n == 0 then p else Begun(p);
      BlankSwitch(q, w[n], hc);
      assert q.(state := StartRes) == q && w == w[..n] + [w[n]];
      ReadsKeeps(p, w[..n], hc, q, seq(n, i => MessageBegin));
      FirstFires(q, w[n], Begun(p), hc);
      Then(p, w[..n], q, seq(n, i => MessageBegin), [w[n]], Begun(p), [MessageBegin], hc);
      assert seq(n, i => MessageBegin) + [MessageBegin] == seq(|w|, i => MessageBegin);
    }
  }

  // ----- however it is cut -----

  lemma StatusLineDelivered(p: Parser, r: ResponseStart, hc: Settings, fs: seq<seq<byte>>)
    requires Valid(p) && AwaitsResponse(p) && GoodResponse(r) && Concat(fs) == ResponseBytes(r)
    ensures
      var o := Feed(p, fs, hc);
      if Decimal(r.code) <= 999 then
        o.Running? && o.p == Responded(p, r) && Join(o.events) == [MessageBegin, Data(Status, ReasonOf(r))]
      else o.Failed? && o.errno == INVALID_STATUS
  {
    hide Valid, Join, Run, Switch, Feed, ResponseBytes, Reads, ReasonOf, Decimal;
    StatusLine(p, r, hc);
    if Decimal(r.code) <= 999 {
      Cut(p, ResponseBytes(r), hc, Responded(p, r), [MessageBegin, Data(Status, ReasonOf(r))], fs);
      JoinTwo(MessageBegin, Data(Status, ReasonOf(r)));
    } else {
      AcceptedIsNotHidden(p, ResponseBytes(r), hc);
      FeedFed(p, fs, hc);
    }
  }
}
