/** The Content-Length header: which decimal numbers are taken, and the bytes that follow the
    head because of it. */
module HttpLength {
  import opened Common
  import opened HttpTypes
  import opened HttpSwitch
  import opened HttpInvariant
  import opened HttpSpec
  import opened HttpFragment
  import opened HttpBody

  predicate Digits(s: seq<byte>) {
    forall i :: 0 <= i < |s| ==> IsNum(s[i])
  }

  function Digit(ch: byte): nat
    requires IsNum(ch)
  {
    ch - '0' as int
  }

  /** The number with these decimal digits. */
  function Decimal(s: seq<byte>): nat
    requires Digits(s)
  {
    if |s| == 0 then 0 else 10 * Decimal(s[..|s| - 1]) + Digit(s[|s| - 1])
  }

  /** The greatest length the parser takes, 2^64 - 7. */
  const LONGEST := ULLONG_MAX - 6

  // ----- one digit -----

  /** The test before the product is added decides for the sum: it never wraps. */
  lemma LengthDigitExact(p: Parser, ch: byte)
    requires IsNum(ch)
    ensures
      var (q, e) := LengthDigit(p, ch);
      var t := 10 * p.contentLength + Digit(ch);
      && (t <= LONGEST ==> e == OK && q == p.(contentLength := t))
      && (t > LONGEST ==> e == INVALID_CONTENT_LENGTH && q == p)
  {
  }

  /** The record in the middle of a Content-Length value. */
  function Measured(p: Parser, n: nat): Parser {
    p.(state := HeaderValue, index := 0, headerState := ContentLengthNum, contentLength := n,
       flags := p.flags.(contentLength := true))
  }

  lemma FirstDigit(p: Parser, ch: byte, hc: Settings)
    requires p.state == HeaderValueDiscardWs && p.headerState == ContentLength && IsNum(ch)
    ensures p.flags.contentLength ==> Switch(p, false, ch, hc).fin == Fail(UNEXPECTED_CONTENT_LENGTH)
    ensures !p.flags.contentLength ==> Switch(p, false, ch, hc) == Micro(Measured(p, Digit(ch)), [Mark(Value)], Next)
  {
    assert Switch(p, false, ch, hc) == OnHeaderValueStart(p, ch);
    var none: seq<Op> := [];
    assert [Mark(Value)] + none == [Mark(Value)];
  }

  lemma NextDigit(q: Parser, ch: byte, hc: Settings)
    requires q.state == HeaderValue && q.headerState == ContentLengthNum && IsNum(ch)
    ensures
      var t := 10 * q.contentLength + Digit(ch);
      Switch(q, false, ch, hc) ==
      if t <= LONGEST then Go(q.(contentLength := t)) else Stop(q, INVALID_CONTENT_LENGTH)
  {
    assert Switch(q, false, ch, hc) == OnHeaderValue(q, ch, false, hc);
    assert IsHeaderChar(ch);
    hide Switch, LengthDigit;
    LengthDigitExact(q, ch);
  }

  // ----- all digits -----

  /** A length is taken exactly if it is at most 2^64 - 7, and up to there it never wraps. */
  lemma {:induction false} LengthAccepted(p: Parser, s: seq<byte>, hc: Settings)
    requires Valid(p) && p.state == HeaderValueDiscardWs && p.headerState == ContentLength && !p.flags.contentLength
    requires |s| > 0 && Digits(s)
    ensures Decimal(s) <= LONGEST ==> Reads(p, s, hc, Measured(p, Decimal(s)), [Data(Value, s)])
    ensures Decimal(s) > LONGEST ==>
              var r := Run(p, s, hc, false); r.Failed? && r.errno == INVALID_CONTENT_LENGTH
    decreases |s|
  {
    hide Valid, Join, Switch, Run, Reads;
    var n := |s| - 1;
    assert s == s[..n] + [s[n]];
    if n == 0 {
      assert s[..n] == [] && Decimal([]) == 0 && s == [s[0]];
      LengthBegins(p, s[0], hc);
    } else {
      LengthAccepted(p, s[..n], hc);
      var v := Decimal(s[..n]);
      if v <= LONGEST {
        LengthGoesOn(p, s[..n], s[n], hc, v);
      } else {
        RunEnded(p, s, n, hc, false);
      }
    }
  }

  lemma LengthBegins(p: Parser, ch: byte, hc: Settings)
    requires Valid(p) && p.state == HeaderValueDiscardWs && p.headerState == ContentLength && !p.flags.contentLength
    requires IsNum(ch)
    ensures Reads(p, [ch], hc, Measured(p, Digit(ch)), [Data(Value, [ch])])
  {
    hide Valid, Switch, Reads, ByteEvents;
    FirstDigit(p, ch, hc);
    ReadsByte(p, ch, hc);
    EventsOf(Value, MessageComplete, ch);
  }

  lemma LengthGoesOn(p: Parser, s: seq<byte>, ch: byte, hc: Settings, v: nat)
    requires IsNum(ch) && Reads(p, s, hc, Measured(p, v), [Data(Value, s)])
    ensures
      var t := 10 * v + Digit(ch);
      && (t <= LONGEST ==> Reads(p, s + [ch], hc, Measured(p, t), [Data(Value, s + [ch])]))
      && (t > LONGEST ==> Run(p, s + [ch], hc, false) == Failed(INVALID_CONTENT_LENGTH, |s|))
  {
    hide Valid, Join, Switch, ByteEvents, Run, Reads;
    var q := Measured(p, v);
    ReadsKeeps(p, s, hc, q, [Data(Value, s)]);
    NextDigit(q, ch, hc);
    var t := 10 * v + Digit(ch);
    if t <= LONGEST {
      var none: seq<Event> := [];
      assert none + [Data(Value, s)] == [Data(Value, s)] && none + [Data(Value, s + [ch])] == [Data(Value, s + [ch])];
      ReadsByte(q, ch, hc);
      EventsOf(Value, MessageComplete, ch);
      ThenMore(p, s, q, none, Value, s, [ch], Measured(p, t), [ch], hc);
    } else {
      FailsAfter(p, s, q, [Data(Value, s)], ch, INVALID_CONTENT_LENGTH, hc);
    }
  }

  /** A byte that is an error after bytes that were read. */
  lemma FailsAfter(p: Parser, s: seq<byte>, q: Parser, es: seq<Event>, ch: byte, e: Errno, hc: Settings)
    requires Reads(p, s, hc, q, es) && Switch(q, false, ch, hc).fin == Fail(e)
    ensures Run(p, s + [ch], hc, false) == Failed(e, |s|)
  {
    hide Valid, Join, Switch, ByteEvents, Run;
    StrictNeverSkips(p, s, hc);
    assert (s + [ch])[..|s|] == s && (s + [ch])[..|s| + 1] == s + [ch];
    RunOne(p, s + [ch], |s|, hc, false);
  }

  /** A second Content-Length header is always an error. */
  lemma SecondLength(p: Parser, ch: byte, hc: Settings)
    requires Valid(p) && p.state == HeaderValueDiscardWs && p.headerState == ContentLength && p.flags.contentLength
    requires IsNum(ch)
    ensures Run(p, [ch], hc, false) == Failed(UNEXPECTED_CONTENT_LENGTH, 0)
  {
    hide Valid, Switch, ByteEvents, Reads;
    FirstDigit(p, ch, hc);
    ReadsNothing(p, hc);
    FailsAfter(p, [], p, [], ch, UNEXPECTED_CONTENT_LENGTH, hc);
    assert [] + [ch] == [ch];
  }

  // ----- the end of the headers -----

  lemma ValueEnds(q: Parser, hc: Settings)
    requires q.state == HeaderValue
    ensures Switch(q, false, CR, hc) == Micro(q.(state := HeaderAlmostDone), [Flush(Value, false)], Next)
  {
    assert Switch(q, false, CR, hc) == OnHeaderValue(q, CR, false, hc);
  }

  lemma LineEnded(q: Parser, hc: Settings)
    requires q.state == HeaderAlmostDone
    ensures Switch(q, false, LF, hc) == Go(q.(state := HeaderValueLws))
  {
  }

  /** The record on_headers_complete is asked about. */
  function HeadOf(q: Parser): Parser {
    q.(state := HeadersDone,
       upgrade := if q.flags.upgrade && q.flags.connectionUpgrade then q.typ == Request || q.statusCode == 101
                  else q.verb == CONNECT)
  }

  /** What follows the head belongs to another protocol, whatever lengths the head names. */
  predicate Tunnels(q: Parser) {
    q.upgrade && q.verb == CONNECT
  }

  /** At the end of the headers of a message whose body, if its head announces one, is wanted. */
  ghost predicate Wanted(q: Parser, hc: Settings) {
    && q.state == HeadersAlmostDone && !q.flags.trailing && !q.flags.skipBody && !Tunnels(HeadOf(q))
    && hc.headersComplete(HeadOf(q)) == Proceed
  }

  /** The headers announce a body of contentLength bytes. */
  ghost predicate Announces(q: Parser, hc: Settings) {
    Wanted(q, hc) && !q.flags.chunked && q.contentLength <= LONGEST
  }

  lemma EndSwitch(q: Parser, hc: Settings)
    requires Announces(q, hc)
    ensures
      var m, r := Switch(q, false, LF, hc), HeadOf(q);
      if q.contentLength == 0 then
        && m.p == r.(state := NewMessage(r)) && m.ops == [Fire(HeadersComplete), Fire(MessageComplete)]
        && m.fin == (if r.upgrade then Exit else Next)
      else m == Micro(r.(state := BodyIdentity), [Fire(HeadersComplete)], Next, true)
  {
    HeadEndSwitch(q, hc);
    hide Switch, NewMessage;
    var none: seq<Op> := [];
    assert [Fire(HeadersComplete)] + none == [Fire(HeadersComplete)];
    assert [Fire(HeadersComplete)] + [Fire(MessageComplete)] == [Fire(HeadersComplete), Fire(MessageComplete)];
  }

  lemma NothingFollows(q: Parser, hc: Settings)
    requires Valid(q) && Announces(q, hc) && q.contentLength == 0
    ensures Completes(Run(q, [LF], hc, false), HeadOf(q), [HeadersComplete], 1)
  {
    hide Valid, Join, Switch, NewMessage, ByteEvents, Announces;
    assert OpenKind(q.state) == None by { EndState(q, hc); }
    EndSwitch(q, hc);
    EmptyRun(q, hc);
    assert [LF as byte][..0] == [];
    TwoEvents(HeadersComplete, MessageComplete, LF);
    assert [] + [HeadersComplete, MessageComplete] == [HeadersComplete] + [MessageComplete];
  }

  lemma EndState(q: Parser, hc: Settings)
    requires Announces(q, hc)
    ensures q.state == HeadersAlmostDone && HeadOf(q).contentLength == q.contentLength
  {
  }

  /** The empty line, then exactly the announced bytes. */
  lemma BodyFollows(q: Parser, d: seq<byte>, hc: Settings)
    requires Valid(q) && Announces(q, hc) && |d| == q.contentLength
    ensures Completes(Run(q, [LF] + d, hc, false), HeadOf(q).(contentLength := 0),
                      [HeadersComplete] + BodyEvents(d), 1 + |d|)
  {
    hide Valid, Join, Run, Switch, NewMessage, ByteEvents, Announces, Reads, Completes;
    EndState(q, hc);
    var r := HeadOf(q).(state := BodyIdentity);
    if |d| == 0 {
      NothingFollows(q, hc);
      assert [LF as byte] + d == [LF] && [HeadersComplete] + BodyEvents(d) == [HeadersComplete];
      assert HeadOf(q).(contentLength := 0) == HeadOf(q);
    } else {
      EndSwitch(q, hc);
      Fires(q, LF, r, HeadersComplete, hc);
      IdentityRead(r, d, hc);
      ThenCompletes(q, [LF], r, [HeadersComplete], d, r.(contentLength := 0), [Data(Body, d)], hc);
      CompletesAnyState(Run(q, [LF] + d, hc, false), r.(contentLength := 0), HeadOf(q).(contentLength := 0),
                        [HeadersComplete] + BodyEvents(d), 1 + |d|);
    }
  }

  function BodyEvents(d: seq<byte>): seq<Event> {
    if d == [] then [] else [Data(Body, d)]
  }

  lemma SeenBodyEvents(d: seq<byte>)
    ensures BodyOf([HeadersComplete] + BodyEvents(d)) == d && Completed([HeadersComplete] + BodyEvents(d)) == 0
  {
    var none: seq<Event> := [];
    SeenOne(none, HeadersComplete);
    assert none + [HeadersComplete] == [HeadersComplete];
    assert BodyOf(none) == [] && Completed(none) == 0;
    if d == [] {
      assert [HeadersComplete] + BodyEvents(d) == [HeadersComplete];
    } else {
      SeenOne([HeadersComplete], Data(Body, d));
    }
  }
}
