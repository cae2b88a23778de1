/** Every byte of a head counts against the limit of its size. */
module HttpHeadSize {
  import opened Common
  import opened HttpTypes
  import opened HttpSwitch
  import opened HttpInvariant
  import opened HttpSpec
  import opened HttpFragment
  import opened HttpBody
  import opened HttpSize
  import opened HttpStart
  import opened HttpFields
  import opened HttpMessages
  import opened HttpStatus
  import opened HttpResponses

  /** The states of a head, and those before it. */
  predicate InHead(s: State) {
    match s
    case ChunkSizeStart => false case ChunkSize => false case ChunkParameters => false case ChunkSizeAlmostDone => false
    case ChunkDataDone => false case HeadersDone => false case MessageDone => false
    case ChunkData => false case ChunkDataAlmostDone => false case BodyIdentity => false case BodyIdentityEof => false
    case _ => true
  }

  /** Data, or the begin of a message. */
  predicate Early(e: Event) {
    e.Data? || e.MessageBegin?
  }

  predicate EarlyOps(ops: seq<Op>) {
    forall i :: 0 <= i < |ops| && ops[i].Fire? ==> Early(ops[i].event)
  }

  // ----- such callbacks do not end a head -----

  lemma LateFields(p: Parser, ch: byte, hc: Settings)
    ensures
      var m := OnHeadersAlmostDone(p, ch, hc);
      m.fin.Fail? || !EarlyOps(m.ops)
  {
    var m := OnHeadersAlmostDone(p, ch, hc);
    if !m.fin.Fail? {
      assert m.ops[0].Fire? && !Early(m.ops[0].event);
    }
  }

  lemma FieldStartStays(p: Parser, ch: byte, hc: Settings)
    requires p.state == HeaderFieldStart
    ensures
      var m := OnHeaderFieldStart(p, ch, hc);
      m.fin.Next? && EarlyOps(m.ops) ==> !m.clear && InHead(m.p.state)
  {
    LateFields(p.(state := HeadersAlmostDone), ch, hc);
    hide OnHeadersAlmostDone, Token;
  }

  lemma FieldsStay(p: Parser, skip: bool, ch: byte, hc: Settings)
    requires Part(p.state) == 2 && InHead(p.state)
    ensures
      var m := Switch(p, skip, ch, hc);
      m.fin.Next? && EarlyOps(m.ops) ==> !m.clear && InHead(m.p.state)
  {
    hide OnHeaderFieldStart, OnHeadersAlmostDone, FieldChar, ValueChar, Token, IsHeaderChar, SetHeaderFlag, BeginValue, EarlyOps;
    LateFields(p, ch, hc);
    match p.state
    case HeaderFieldStart => FieldStartStays(p, ch, hc);
    case HeaderField => FieldCharIn(p, ch);
    case HeaderValueDiscardWs => BeginIn(p.(state := HeaderValue, index := 0), ch);
    case HeaderValueDiscardLws => AfterLine(p, ch, hc);
    case HeaderValueStart => BeginIn(p.(state := HeaderValue, index := 0), ch);
    case HeaderValue => ValueCharIn(p, ch);
    case HeaderValueLws =>
      AfterLine(p, ch, hc);
      BeginIn(p.(state := HeaderValue, index := 0), ch);
    case _ =>
  }

  lemma AfterLine(p: Parser, ch: byte, hc: Settings)
    requires p.state == HeaderValueLws || p.state == HeaderValueDiscardLws
    ensures
      var m := OnHeaderFieldStart(SetHeaderFlag(p).(state := HeaderFieldStart), ch, hc);
      && (m.fin.Next? && EarlyOps(m.ops) ==> !m.clear && InHead(m.p.state))
      && (EarlyOps([Mark(Value), Flush(Value, false)] + m.ops) ==> EarlyOps(m.ops))
  {
    var q := SetHeaderFlag(p).(state := HeaderFieldStart);
    FieldStartStays(q, ch, hc);
    var ops := OnHeaderFieldStart(q, ch, hc).ops;
    hide OnHeaderFieldStart, SetHeaderFlag;
    var all := [Mark(Value), Flush(Value, false)] + ops;
    if EarlyOps(all) {
      forall i | 0 <= i < |ops| && ops[i].Fire? ensures Early(ops[i].event) {
        assert all[i + 2] == ops[i];
      }
    }
  }

  lemma FieldCharIn(p: Parser, ch: byte)
    ensures FieldChar(p, ch, Token(ch)).state == p.state
  {
    hide Token;
  }

  lemma BeginIn(p: Parser, ch: byte)
    ensures BeginValue(p, ch).p.state == p.state && !BeginValue(p, ch).clear
  {
    hide Lower;
  }

  lemma ValueCharIn(p: Parser, ch: byte)
    ensures ValueChar(p, ch).0.state == p.state || ValueChar(p, ch).1 != OK
  {
    hide Lower, LowerIsToken;
  }

  lemma StartStays(p: Parser, skip: bool, ch: byte, hc: Settings)
    requires Part(p.state) == 0
    ensures
      var m := Switch(p, skip, ch, hc);
      m.fin.Next? ==> !m.clear && InHead(m.p.state)
  {
    hide FirstMethod;
  }

  predicate InVersion(s: State) {
    s == ReqHttpStart || s == ReqHttpH || s == ReqHttpHT || s == ReqHttpHTT || s == ReqHttpHTTP
    || s == ReqHttpMajor || s == ReqHttpDot || s == ReqHttpMinor || s == ReqHttpEnd || s == ReqLineAlmostDone
  }

  lemma VersionStays(p: Parser, skip: bool, ch: byte, hc: Settings)
    requires InVersion(p.state)
    ensures
      var m := Switch(p, skip, ch, hc);
      m.fin.Next? ==> !m.clear && InHead(m.p.state)
  {
  }

  lemma UrlHandlersStay(p: Parser, ch: byte)
    requires InHead(p.state)
    ensures
      var m, n := OnUrlPrefix(p, ch), OnUrl(p, ch);
      && (m.fin.Next? ==> !m.clear && InHead(m.p.state))
      && (n.fin.Next? ==> !n.clear && InHead(n.p.state))
  {
    UrlCharIn(p.state, ch);
    hide ParseUrlChar;
  }

  lemma MethodStays(p: Parser, ch: byte)
    requires p.state == ReqMethod
    ensures
      var m := OnReqMethod(p, ch);
      m.fin.Next? ==> !m.clear && InHead(m.p.state)
  {
    hide Rename, MethodString, CharAt;
  }

  lemma UrlBeginStays(p: Parser, ch: byte)
    requires p.state == ReqSpacesBeforeUrl
    ensures
      var m := OnReqSpacesBeforeUrl(p, ch);
      m.fin.Next? ==> !m.clear && InHead(m.p.state)
  {
    UrlPart(p.state);
    UrlCharIn(p.state, ch);
    UrlCharIn(ReqServerStart, ch);
    hide ParseUrlChar, InHead;
  }

  lemma UrlStays(p: Parser, skip: bool, ch: byte, hc: Settings)
    requires Part(p.state) == 1 && !InVersion(p.state)
    ensures
      var m := Switch(p, skip, ch, hc);
      m.fin.Next? ==> !m.clear && InHead(m.p.state)
  {
    UrlPart(p.state);
    BeforeUrlHandlers(p, skip, ch, hc);
    if p.state == ReqMethod {
      MethodStays(p, ch);
    } else if p.state == ReqSpacesBeforeUrl {
      UrlBeginStays(p, ch);
    } else {
      UrlHandlersStay(p, ch);
      UrlHandlers(p, skip, ch, hc);
    }
    hide Switch, OnReqMethod, OnReqSpacesBeforeUrl, OnUrl, OnUrlPrefix, InHead;
  }

  lemma UrlPart(s: State)
    requires Part(s) == 1
    ensures InHead(s)
  {
  }

  lemma BeforeUrlHandlers(p: Parser, skip: bool, ch: byte, hc: Settings)
    ensures p.state == ReqMethod ==> Switch(p, skip, ch, hc) == OnReqMethod(p, ch)
    ensures p.state == ReqSpacesBeforeUrl ==> Switch(p, skip, ch, hc) == OnReqSpacesBeforeUrl(p, ch)
  {
    hide OnReqMethod, OnReqSpacesBeforeUrl;
  }

  lemma UrlHandlers(p: Parser, skip: bool, ch: byte, hc: Settings)
    requires Part(p.state) == 1 && !InVersion(p.state) && p.state != ReqMethod && p.state != ReqSpacesBeforeUrl
    ensures Switch(p, skip, ch, hc) == OnUrlPrefix(p, ch) || Switch(p, skip, ch, hc) == OnUrl(p, ch)
  {
    hide OnUrl, OnUrlPrefix;
  }

  lemma UrlCharIn(s: State, ch: byte)
    ensures InHead(ParseUrlChar(s, ch))
  {
  }

  lemma Stays(p: Parser, skip: bool, ch: byte, hc: Settings)
    requires InHead(p.state)
    ensures
      var m := Switch(p, skip, ch, hc);
      m.fin.Next? && EarlyOps(m.ops) ==> !m.clear && InHead(m.p.state)
    ensures ParsingHeader(p.state)
  {
    hide Switch, EarlyOps;
    if Part(p.state) == 0 {
      StartStays(p, skip, ch, hc);
    } else if Part(p.state) == 1 {
      if InVersion(p.state) {
        VersionStays(p, skip, ch, hc);
      } else {
        UrlStays(p, skip, ch, hc);
      }
    } else {
      FieldsStay(p, skip, ch, hc);
    }
  }

  // ----- counting the other callbacks -----

  function Notices(es: seq<Event>): nat {
    if |es| == 0 then 0 else Notices(es[..|es| - 1]) + if Early(es[|es| - 1]) then 0 else 1
  }

  lemma NoticesOne(a: seq<Event>, e: Event)
    ensures Notices(a + [e]) == Notices(a) + if Early(e) then 0 else 1
  {
    assert (a + [e])[..|a|] == a;
  }

  lemma {:induction false} NoticesConcat(a: seq<Event>, b: seq<Event>)
    ensures Notices(a + b) == Notices(a) + Notices(b)
    decreases |b|
  {
    if |b| == 0 {
      assert a + b == a;
    } else {
      var n := |b| - 1;
      assert b == b[..n] + [b[n]] && a + b == (a + b[..n]) + [b[n]];
      NoticesConcat(a, b[..n]);
      NoticesOne(a + b[..n], b[n]);
      NoticesOne(b[..n], b[n]);
    }
  }

  lemma {:induction false} NoticesJoined(es: seq<Event>)
    ensures Notices(Join(es)) == Notices(es)
    decreases |es|
  {
    if |es| > 0 {
      var n := |es| - 1;
      NoticesJoined(es[..n]);
      hide Notices;
      assert es == es[..n] + [es[n]];
      NoticesOne(es[..n], es[n]);
      NoticesAppended(Join(es[..n]), es[n]);
    }
  }

  lemma NoticesAppended(j: seq<Event>, e: Event)
    ensures Notices(Joined(j, e)) == Notices(j) + if Early(e) then 0 else 1
  {
    hide Notices;
    NoticesOne(j, e);
    if |j| > 0 && j[|j| - 1].Data? && e.Data? && j[|j| - 1].kind == e.kind {
      var m := |j| - 1;
      assert j == j[..m] + [j[m]];
      NoticesOne(j[..m], j[m]);
      NoticesOne(j[..m], Data(e.kind, j[m].bytes + e.bytes));
    }
  }

  lemma NoticesFirst(e: Event, es: seq<Event>)
    ensures Notices([e] + es) == (if Early(e) then 0 else 1) + Notices(es)
  {
    var none: seq<Event> := [];
    NoticesOne(none, e);
    assert none + [e] == [e] && Notices(none) == 0;
    hide Notices;
    NoticesConcat([e], es);
  }

  /** A byte without such a callback fires nothing else. */
  lemma {:induction false} QuietBytes(open: Option<Kind>, ops: seq<Op>, ch: byte)
    requires Notices(ByteEvents(open, ops, ch)) == 0
    ensures EarlyOps(ops)
    decreases |ops|
  {
    if |ops| > 0 {
      hide Notices;
      match ops[0] {
        case Mark(k) =>
          QuietBytes(if open.Some? then open else Some(k), ops[1..], ch);
        case Flush(k, inclusive) =>
          if open == Some(k) {
            NoticesFirst(Data(k, if inclusive then [ch] else []), ByteEvents(None, ops[1..], ch));
            QuietBytes(None, ops[1..], ch);
          } else {
            QuietBytes(open, ops[1..], ch);
          }
        case Fire(e) =>
          NoticesFirst(e, ByteEvents(open, ops[1..], ch));
          QuietBytes(open, ops[1..], ch);
      }
      forall i | 0 <= i < |ops| && ops[i].Fire? ensures Early(ops[i].event) {
        if i > 0 {
          assert ops[1..][i - 1] == ops[i];
        }
      }
    }
  }

  // ----- a head -----

  /** Input from the states of a head on that fires nothing but data and the begin of a
      message: every byte counts. */
  lemma {:induction false} AllCounted(p: Parser, n: nat, w: seq<byte>, hc: Settings)
    requires Valid(p) && InHead(p.state) && Run(p, w, hc, true).Running? && Notices(Run(p, w, hc, true).events) == 0
    ensures Tally(p, n, w, hc) == n + |w| && InHead(Run(p, w, hc, true).p.state)
    decreases |w|
  {
    hide Valid, Switch, ByteEvents, InHead, EarlyOps, ParsingHeader;
    if |w| > 0 {
      var k := |w| - 1;
      var r := Run(p, w[..k], hc, true);
      var m := Switch(r.p, r.skip, w[k], hc);
      var es := ByteEvents(OpenKind(r.p.state), m.ops, w[k]);
      hide Notices;
      NoticesConcat(r.events, es);
      AllCounted(p, n, w[..k], hc);
      QuietBytes(OpenKind(r.p.state), m.ops, w[k]);
      Stays(r.p, r.skip, w[k], hc);
    }
  }

  lemma ReadsCounted(p: Parser, n: nat, w: seq<byte>, q: Parser, es: seq<Event>, hc: Settings)
    requires Reads(p, w, hc, q, es) && InHead(p.state) && Notices(es) == 0
    ensures Tally(p, n, w, hc) == n + |w|
  {
    hide Valid, Switch, Run, Join, Notices, Tally, HiddenAt;
    AcceptedIsNotHidden(p, w, hc);
    JumpIsEqual(p, w, hc);
    NoticesJoined(Run(p, w, hc, false).events);
    NoticesJoined(es);
    AllCounted(p, n, w, hc);
  }

  lemma {:induction false} FieldNotices(fs: seq<FieldLine>)
    ensures Notices(AllFields(fs)) == 0
    decreases |fs|
  {
    if |fs| > 0 {
      FieldNotices(fs[1..]);
      hide Notices;
      assert FieldEvents(fs[0]) + AllFields(fs[1..]) == [Data(Field, fs[0].name)] + ([Data(Value, fs[0].value)] + AllFields(fs[1..]));
      NoticesFirst(Data(Value, fs[0].value), AllFields(fs[1..]));
      NoticesFirst(Data(Field, fs[0].name), [Data(Value, fs[0].value)] + AllFields(fs[1..]));
    }
  }

  lemma HeadNotices(d: Event, fs: seq<FieldLine>)
    requires d.Data?
    ensures Notices([MessageBegin, d] + AllFields(fs)) == 0
  {
    FieldNotices(fs);
    hide Notices, AllFields;
    NoticesFirst(d, AllFields(fs));
    NoticesFirst(MessageBegin, [d] + AllFields(fs));
    assert [MessageBegin] + ([d] + AllFields(fs)) == [MessageBegin, d] + AllFields(fs);
  }

  /** The request line and all fields count: n bytes before, and every one of them. */
  lemma RequestCounted(p: Parser, n: nat, line: RequestStart, fs: seq<FieldLine>, hc: Settings)
    requires Valid(p) && RequestParser(p) && GoodRequest(line) && GoodHead(fs, hc)
    ensures Tally(p, n, RequestHead(line, fs), hc) == n + |RequestHead(line, fs)|
  {
    hide Valid, Reads, GoodRequest, GoodHead, RequestHead, RequestTold, AllFields, Tally, Notices;
    var r := RequestHeadRead(p, line, fs, hc);
    HeadNotices(Data(Url, line.url), fs);
    ReadsCounted(p, n, RequestHead(line, fs), r, [MessageBegin, Data(Url, line.url)] + AllFields(fs), hc);
  }

  lemma ResponseCounted(p: Parser, n: nat, line: ResponseStart, fs: seq<FieldLine>, hc: Settings)
    requires Valid(p) && ResponseParser(p) && GoodStatus(line) && GoodHead(fs, hc)
    ensures Tally(p, n, ResponseHead(line, fs), hc) == n + |ResponseHead(line, fs)|
  {
    hide Valid, Reads, GoodStatus, GoodHead, ResponseHead, ResponseTold, AllFields, Tally, Notices, ReasonOf;
    var r := ResponseHeadRead(p, line, fs, hc);
    HeadNotices(Data(Status, ReasonOf(line)), fs);
    ReadsCounted(p, n, ResponseHead(line, fs), r, [MessageBegin, Data(Status, ReasonOf(line))] + AllFields(fs), hc);
  }
}
