/** Every state handler keeps the invariant: the switch leads from valid records to valid
    records, with its marks in order. */
module HttpRun {
  import opened Common
  import opened HttpTypes
  import opened HttpSwitch
  import opened HttpInvariant

  lemma MethodLengths(m: Method)
    ensures 3 <= |MethodString(m)| <= 11
  {
  }

  lemma RenameKeepsIndex(m: Method, index: nat, ch: byte)
    requires Rename(m, index, ch).Some?
    ensures index + 1 <= |MethodString(Rename(m, index, ch).value)|
  {
  }

  lemma MatchNameKeeps(p: Parser, c: int, word: string, complete: HeaderState)
    requires p.index < |word| - 1
    ensures
      var q := MatchName(p, c, word, complete);
      && q == p.(headerState := q.headerState, index := p.index + 1)
      && (q.headerState == General || q.headerState == complete
          || (q.headerState == p.headerState && q.index < |word| - 1))
  {
  }

  lemma MatchValueKeeps(p: Parser, c: int, word: string, complete: HeaderState, other: HeaderState)
    requires p.index < |word| - 1
    ensures
      var q := MatchValue(p, c, word, complete, other);
      && q == p.(headerState := q.headerState, index := p.index + 1)
      && (q.headerState == other || q.headerState == complete
          || (q.headerState == p.headerState && q.index < |word| - 1))
  {
  }

  lemma FieldCharValid(p: Parser, ch: byte)
    requires Bounded(p) && FieldState(p.headerState) && Matching(p.headerState, p.index) && Token(ch) != 0
    ensures
      var q := FieldChar(p, ch, Token(ch));
      Bounded(q) && FieldState(q.headerState) && Matching(q.headerState, q.index) && q.state == p.state
  {
    hide Token, MatchName;
    var c := Token(ch);
    match p.headerState
    case MatchingConnection => MatchNameKeeps(p, c, "connection", Connection);
    case MatchingProxyConnection => MatchNameKeeps(p, c, "proxy-connection", Connection);
    case MatchingContentLength => MatchNameKeeps(p, c, "content-length", ContentLength);
    case MatchingTransferEncoding => MatchNameKeeps(p, c, "transfer-encoding", TransferEncoding);
    case MatchingUpgrade => MatchNameKeeps(p, c, "upgrade", Upgrade);
    case _ =>
  }

  lemma LengthDigitValid(p: Parser, ch: byte)
    requires Bounded(p)
    ensures
      var (q, e) := LengthDigit(p, ch);
      && Bounded(q) && q.state == p.state && q.index == p.index
      && (q.headerState == p.headerState || q.headerState == ContentLengthWs)
      && (e == OK || e == INVALID_CONTENT_LENGTH)
  {
  }

  lemma ValueCharValid(p: Parser, ch: byte)
    requires Bounded(p) && ValueState(p.headerState) && Matching(p.headerState, p.index)
    ensures
      var (q, e) := ValueChar(p, ch);
      && Bounded(q) && ValueState(q.headerState) && Matching(q.headerState, q.index) && q.state == p.state
      && (e == OK || e == INVALID_CONTENT_LENGTH)
  {
    hide Lower, LowerIsToken, LengthDigit, MatchValue;
    var c := Lower(ch);
    match p.headerState
    case ContentLengthNum => LengthDigitValid(p, ch);
    case MatchingTransferEncodingChunked => MatchValueKeeps(p, c, "chunked", TransferEncodingChunked, General);
    case MatchingConnectionKeepAlive => MatchValueKeeps(p, c, "keep-alive", ConnectionKeepAlive, MatchingConnectionToken);
    case MatchingConnectionClose => MatchValueKeeps(p, c, "close", ConnectionClose, MatchingConnectionToken);
    case MatchingConnectionUpgrade => MatchValueKeeps(p, c, "upgrade", ConnectionUpgrade, MatchingConnectionToken);
    case _ =>
  }

  // ----- sequences of mark and callback macros -----

  lemma {:induction false} RunModesConcat(mode: Mode, a: seq<Op>, b: seq<Op>, mid: Mode)
    requires RunModes(mode, a) == Some(mid)
    ensures RunModes(mode, a + b) == RunModes(mid, b)
    decreases |a|
  {
    if |a| == 0 {
      assert a + b == b;
    } else {
      assert (a + b)[1..] == a[1..] + b;
      match a[0]
      case Mark(k) => RunModesConcat(Open(if mode.Open? then mode.kind else k), a[1..], b, mid);
      case Flush(k, i) => RunModesConcat(Closed, a[1..], b, mid);
      case Fire(e) => RunModesConcat(Closed, a[1..], b, mid);
    }
  }

  lemma AfterLeads(ops: seq<Op>, m: Micro, entry: Mode, mid: Mode)
    requires RunModes(entry, ops) == Some(mid) && EffectOf(m, mid).Sound?
    ensures EffectOf(After(ops, m), entry).Sound?
  {
    hide RunModes, Valid;
    RunModesConcat(entry, ops, m.ops, mid);
  }

  lemma MarkMode(k: Kind)
    ensures RunModes(Closed, [Mark(k)]) == Some(Open(k))
    ensures RunModes(Carried, [Mark(Body)]) == Some(Open(Body))
    ensures RunModes(Open(k), [Flush(k, false)]) == Some(Closed)
    ensures RunModes(Closed, [Flush(k, false)]) == Some(Closed)
    ensures RunModes(Carried, [Flush(Body, false)]) == Some(Closed)
    ensures RunModes(Closed, [Mark(k), Flush(k, false)]) == Some(Closed)
    ensures RunModes(Closed, [Mark(k), Flush(k, true)]) == Some(Closed)
    ensures RunModes(Carried, [Mark(Body), Flush(Body, true)]) == Some(Closed)
  {
    var none: seq<Op> := [];
    assert forall m :: RunModes(m, none) == Some(m);
    assert [Mark(k)][1..] == none && [Mark(Body)][1..] == none;
    assert forall b :: [Flush(k, b)][1..] == none && [Flush(Body, b)][1..] == none;
    assert [Mark(k), Flush(k, false)][1..] == [Flush(k, false)];
    assert [Mark(k), Flush(k, true)][1..] == [Flush(k, true)];
    assert [Mark(Body), Flush(Body, true)][1..] == [Flush(Body, true)];
  }

  lemma PlainMode(mode: Mode, e: Event)
    ensures RunModes(mode, []) == Some(mode)
    ensures RunModes(Closed, [Fire(e)]) == Some(Closed)
  {
  }

  // ----- start line -----

  lemma StartLeads(p: Parser, ch: byte)
    requires Bounded(p)
    ensures EffectOf(OnStartReqOrRes(p.(state := StartReqOrRes), ch), Closed).Sound?
    ensures EffectOf(OnStartReq(p.(state := StartReq), ch), Closed).Sound?
    ensures EffectOf(OnStartRes(p.(state := StartRes), ch), Closed).Sound?
  {
    hide RunModes, MethodString, FirstMethod, OnStartReq;
    FirstMethodLeads(p.(state := StartReq), ch);
    FirstMethodLeads(Reset(p).(typ := Request, state := StartReq), ch);
    PlainMode(Closed, MessageBegin);
  }

  lemma FirstMethodLeads(p: Parser, ch: byte)
    requires Bounded(p) && p.state == StartReq
    ensures EffectOf(OnStartReq(p, ch), Closed).Sound?
  {
    hide RunModes, MethodString, FirstMethod;
    PlainMode(Closed, MessageBegin);
    if FirstMethod(ch).Some? {
      MethodLengths(FirstMethod(ch).value);
    }
  }

  lemma StatusTextLeads(p: Parser, ch: byte)
    requires Bounded(p) && p.state == ResStatus
    ensures EffectOf(OnResStatus(p, ch), Open(Status)).Sound?
    ensures EffectOf(Go(p), Open(Status)).Sound?
  {
    hide RunModes;
    MarkMode(Status);
    PlainMode(Open(Status), MessageBegin);
  }

  lemma StatusStartLeads(p: Parser, ch: byte)
    requires Bounded(p)
    ensures EffectOf(OnResStatusStart(p, ch), Closed).Sound?
  {
    hide RunModes, EffectOf, OnResStatus;
    MarkMode(Status);
    var q := p.(state := ResStatus, index := 0);
    StatusTextLeads(q, ch);
    AfterLeads([Mark(Status)], if ch == CR || ch == LF then OnResStatus(q, ch) else Go(q), Closed, Open(Status));
  }

  lemma StatusLeads(p: Parser, ch: byte)
    requires Bounded(p)
    ensures EffectOf(OnResStatusCode(p.(state := ResStatusCode), ch), Closed).Sound?
    ensures EffectOf(OnResFirstStatusCode(p.(state := ResFirstStatusCode), ch), Closed).Sound?
  {
    hide RunModes, OnResStatusStart;
    PlainMode(Closed, MessageBegin);
    StatusStartLeads(p.(state := ResStatusStart), ch);
  }

  lemma MethodLeads(p: Parser, ch: byte)
    requires Valid(p) && p.state == ReqMethod
    ensures EffectOf(OnReqMethod(p, ch), Closed).Sound?
  {
    hide RunModes, MethodString, Rename;
    PlainMode(Closed, MessageBegin);
    MethodLengths(p.verb);
    if Rename(p.verb, p.index, ch).Some? {
      RenameKeepsIndex(p.verb, p.index, ch);
      MethodLengths(Rename(p.verb, p.index, ch).value);
    }
  }

  lemma ParseUrlCharState(s: State, ch: byte)
    ensures ParseUrlChar(s, ch) == Dead || OpenKind(ParseUrlChar(s, ch)) == Some(Url)
  {
  }

  lemma UrlCharLeads(p: Parser, ch: byte)
    requires Bounded(p)
    ensures EffectOf(UrlChar(p, ch), Open(Url)).Sound?
  {
    hide RunModes, ParseUrlChar;
    ParseUrlCharState(p.state, ch);
    PlainMode(Open(Url), MessageBegin);
  }

  lemma UrlLeads(p: Parser, ch: byte)
    requires Bounded(p)
    ensures EffectOf(OnUrl(p, ch), Open(Url)).Sound?
    ensures EffectOf(OnUrlPrefix(p, ch), Open(Url)).Sound?
  {
    hide RunModes, UrlChar;
    UrlCharLeads(p, ch);
    MarkMode(Url);
  }

  lemma UrlStartLeads(p: Parser, ch: byte)
    requires Bounded(p) && p.state == ReqSpacesBeforeUrl
    ensures EffectOf(OnReqSpacesBeforeUrl(p, ch), Closed).Sound?
  {
    hide RunModes, UrlChar, After;
    MarkMode(Url);
    PlainMode(Closed, MessageBegin);
    var q := if p.verb == CONNECT then p.(state := ReqServerStart) else p;
    UrlCharLeads(q, ch);
    AfterLeads([Mark(Url)], UrlChar(q, ch), Closed, Open(Url));
  }

  // ----- headers -----

  lemma EndOfHeadersLeads(p: Parser, ch: byte, hc: Settings)
    requires Bounded(p)
    ensures EffectOf(OnHeadersAlmostDone(p, ch, hc), Closed).Sound?
  {
    hide RunModes, OnHeadersDone, OnMessageDone;
    PlainMode(Closed, HeadersComplete);
    PlainMode(Closed, ChunkComplete);
    if ch == LF {
      if p.flags.trailing {
        MessageDoneLeads(p.(state := MessageDone));
        AfterLeads([Fire(ChunkComplete)], OnMessageDone(p.(state := MessageDone)), Closed, Closed);
      } else if !(p.flags.chunked && p.flags.contentLength) {
        var q := p.(state := HeadersDone,
                    upgrade := if p.flags.upgrade && p.flags.connectionUpgrade then p.typ == Request || p.statusCode == 101
                               else p.verb == CONNECT);
        var r := match hc.headersComplete(q)
          case Proceed => q
          case SkipBody => q.(flags := q.flags.(skipBody := true))
          case SkipBodyAndUpgrade => q.(flags := q.flags.(skipBody := true), upgrade := true);
        HeadersDoneLeads(r, ch);
        AfterLeads([Fire(HeadersComplete)], OnHeadersDone(r, ch), Closed, Closed);
      }
    }
  }

  lemma NewMessageState(p: Parser)
    ensures NewMessage(p) == Dead || NewMessage(p) == StartReq || NewMessage(p) == StartRes
  {
  }

  lemma MessageDoneLeads(p: Parser)
    requires Bounded(p)
    ensures EffectOf(OnMessageDone(p), Closed).Sound?
  {
    hide RunModes, NewMessage;
    PlainMode(Closed, MessageComplete);
    NewMessageState(p);
  }

  lemma HeadersDoneLeads(p: Parser, ch: byte)
    requires Bounded(p)
    ensures EffectOf(OnHeadersDone(p, ch), Closed).Sound?
  {
    hide RunModes, NewMessage, NeedsEof, EffectOf, Fits;
    var m := OnHeadersDone(p, ch);
    if ch != LF {
      StopLeads(p, STRICT, Closed);
    } else if m.p.state == NewMessage(p) {
      NewMessageState(p);
      CompleteLeads(p, m.fin);
    } else if p.flags.chunked {
      BodyEntryLeads(p, ChunkSizeStart);
    } else if p.contentLength != ULLONG_MAX {
      BodyEntryLeads(p, BodyIdentity);
    } else {
      BodyEntryLeads(p, BodyIdentityEof);
    }
  }

  lemma CompleteLeads(p: Parser, fin: Fin)
    requires Bounded(p) && !fin.Fail?
    ensures EffectOf(Micro(p.(state := NewMessage(p)), [Fire(MessageComplete)], fin, true), Closed).Sound?
  {
    hide RunModes, NewMessage;
    PlainMode(Closed, MessageComplete);
    NewMessageState(p);
  }

  lemma BodyEntryLeads(p: Parser, s: State)
    requires Bounded(p) && (s == BodyIdentityEof || (s == ChunkSizeStart && p.flags.chunked)
                            || (s == BodyIdentity && 0 < p.contentLength < ULLONG_MAX))
    ensures EffectOf(Goto(p, s).(clear := true), Closed).Sound?
  {
    hide RunModes;
    PlainMode(Closed, MessageComplete);
  }

  lemma StopLeads(p: Parser, e: Errno, mode: Mode)
    requires e != OK && e != HEADER_OVERFLOW
    ensures EffectOf(Stop(p, e), mode).Sound?
  {
  }

  lemma FieldStartLeads(p: Parser, ch: byte, hc: Settings)
    requires Bounded(p)
    ensures EffectOf(OnHeaderFieldStart(p, ch, hc), Closed).Sound?
  {
    hide RunModes, OnHeadersAlmostDone, Token;
    MarkMode(Field);
    PlainMode(Closed, MessageBegin);
    EndOfHeadersLeads(p.(state := HeadersAlmostDone), ch, hc);
  }

  lemma FieldLeads(p: Parser, ch: byte)
    requires Valid(p) && p.state == HeaderField
    ensures EffectOf(OnHeaderField(p, ch), Open(Field)).Sound?
  {
    hide RunModes, FieldChar, Token;
    MarkMode(Field);
    PlainMode(Open(Field), MessageBegin);
    if Token(ch) != 0 {
      FieldCharValid(p, ch);
    }
  }

  lemma ValueStartLeads(p: Parser, ch: byte)
    requires Bounded(p)
    ensures EffectOf(OnHeaderValueStart(p, ch), Closed).Sound?
  {
    hide RunModes, BeginValue;
    MarkMode(Value);
    var q := p.(state := HeaderValue, index := 0);
    BeginValueLeads(q, ch);
    AfterLeads([Mark(Value)], BeginValue(q, ch), Closed, Open(Value));
  }

  lemma GoValueLeads(p: Parser)
    requires Bounded(p) && p.state == HeaderValue && ValueState(p.headerState) && Matching(p.headerState, p.index)
    ensures EffectOf(Go(p), Open(Value)).Sound?
  {
    hide RunModes;
    PlainMode(Open(Value), MessageBegin);
  }

  lemma BeginValueLeads(p: Parser, ch: byte)
    requires Bounded(p) && p.state == HeaderValue && p.index == 0
    ensures EffectOf(BeginValue(p, ch), Open(Value)).Sound?
  {
    hide EffectOf, Lower;
    StopLeads(p, INVALID_CONTENT_LENGTH, Open(Value));
    StopLeads(p, UNEXPECTED_CONTENT_LENGTH, Open(Value));
    if !BeginValue(p, ch).fin.Fail? {
      GoValueLeads(BeginValue(p, ch).p);
    }
  }

  lemma ValueLeads(p: Parser, ch: byte, skip: bool, hc: Settings)
    requires Valid(p) && p.state == HeaderValue
    ensures EffectOf(OnHeaderValue(p, ch, skip, hc), Open(Value)).Sound?
  {
    hide RunModes, ValueChar, IsHeaderChar, EffectOf, OnHeaderAlmostDone;
    var q := p.(state := HeaderAlmostDone);
    if ch == CR || ch == LF {
      ValueEndLeads(q);
      MarkMode(Value);
      LineLeads(q, ch);
      AfterLeads([Flush(Value, false)], OnHeaderAlmostDone(q, ch), Open(Value), Closed);
    } else {
      ValueCharValid(p, ch);
      var (r, e) := ValueChar(p, ch);
      StopLeads(p, INVALID_HEADER_TOKEN, Open(Value));
      if e != OK {
        StopLeads(r, e, Open(Value));
      } else {
        GoValueLeads(r);
      }
    }
  }

  lemma ValueEndLeads(p: Parser)
    requires Bounded(p) && p.state == HeaderAlmostDone && ValueState(p.headerState)
    ensures EffectOf(Micro(p, [Flush(Value, false)], Next), Open(Value)).Sound?
  {
    hide RunModes;
    MarkMode(Value);
  }

  lemma HeaderFlagKeeps(p: Parser)
    ensures SetHeaderFlag(p) == p.(flags := SetHeaderFlag(p).flags)
  {
  }

  lemma ValueLwsLeads(p: Parser, ch: byte, hc: Settings)
    requires Bounded(p)
    ensures EffectOf(OnHeaderValueLws(p, ch, hc), Closed).Sound?
  {
    hide RunModes, OnHeaderFieldStart, OnHeaderValueStart, SetHeaderFlag, EffectOf;
    HeaderFlagKeeps(p);
    FieldStartLeads(SetHeaderFlag(p).(state := HeaderFieldStart), ch, hc);
    ValueStartLeads(p.(state := HeaderValueStart), ch);
  }

  lemma DiscardLwsLeads(p: Parser, ch: byte, hc: Settings)
    requires Bounded(p) && FieldState(p.headerState)
    ensures EffectOf(OnHeaderValueDiscardLws(p, ch, hc), Closed).Sound?
  {
    hide RunModes, OnHeaderFieldStart, SetHeaderFlag, EffectOf;
    MarkMode(Value);
    var q := SetHeaderFlag(p).(state := HeaderFieldStart);
    HeaderFlagKeeps(p);
    FieldStartLeads(q, ch, hc);
    AfterLeads([Mark(Value), Flush(Value, false)], OnHeaderFieldStart(q, ch, hc), Closed, Closed);
    GotoLeads(p, HeaderValueDiscardWs);
  }

  lemma DiscardWsLeads(p: Parser, ch: byte)
    requires Bounded(p) && FieldState(p.headerState) && p.state == HeaderValueDiscardWs
    ensures EffectOf(OnHeaderValueDiscardWs(p, ch), Closed).Sound?
  {
    hide RunModes, OnHeaderValueStart, EffectOf, FieldState;
    GotoLeads(p, HeaderValueDiscardWs);
    GotoLeads(p, HeaderValueDiscardWsAlmostDone);
    GotoLeads(p, HeaderValueDiscardLws);
    ValueStartLeads(p, ch);
  }

  // ----- bodies -----

  lemma BodyLeads(p: Parser)
    requires Valid(p) && p.state == BodyIdentity
    ensures EffectOf(OnBodyIdentity(p), Closed).Sound? && EffectOf(OnBodyIdentity(p), Carried).Sound?
  {
    hide RunModes, OnMessageDone;
    MarkMode(Body);
    var q := p.(contentLength := p.contentLength - 1, state := MessageDone);
    MessageDoneLeads(q);
    AfterLeads([Mark(Body), Flush(Body, true)], OnMessageDone(q), Closed, Closed);
    AfterLeads([Mark(Body), Flush(Body, true)], OnMessageDone(q), Carried, Closed);
  }

  lemma ChunkSizeStartLeads(p: Parser, ch: byte)
    requires Valid(p) && p.state == ChunkSizeStart
    ensures EffectOf(OnChunkSizeStart(p, ch), Closed).Sound?
  {
    hide RunModes;
    PlainMode(Closed, ChunkComplete);
  }

  lemma ChunkSizeLeads(p: Parser, ch: byte)
    requires Valid(p) && p.state == ChunkSize
    ensures EffectOf(OnChunkSize(p, ch), Closed).Sound?
  {
    hide RunModes, Unhex;
    PlainMode(Closed, ChunkComplete);
    UnhexRange(ch);
  }

  lemma UnhexRange(ch: byte)
    ensures -1 <= Unhex(ch) < 16
  {
  }

  lemma ChunkParametersLeads(p: Parser, ch: byte)
    requires Valid(p) && p.state == ChunkParameters
    ensures EffectOf(OnChunkParameters(p, ch), Closed).Sound?
  {
    hide RunModes;
    PlainMode(Closed, ChunkComplete);
  }

  lemma ChunkHeaderLeads(p: Parser, ch: byte)
    requires Valid(p) && p.state == ChunkSizeAlmostDone
    ensures EffectOf(OnChunkSizeAlmostDone(p, ch), Closed).Sound?
  {
    hide RunModes;
    PlainMode(Closed, ChunkHeader(0));
    PlainMode(Closed, ChunkHeader(p.contentLength));
  }

  lemma ChunkDataLeads(p: Parser, ch: byte, mode: Mode)
    requires Valid(p) && p.state == ChunkData && (mode == Closed || mode == Carried)
    ensures EffectOf(OnChunkData(p), mode).Sound?
  {
    hide RunModes;
    MarkMode(Body);
  }

  lemma ChunkAlmostDoneLeads(p: Parser, ch: byte, mode: Mode)
    requires Valid(p) && p.state == ChunkDataAlmostDone && (mode == Closed || mode == Carried)
    ensures EffectOf(OnChunkDataAlmostDone(p, ch), mode).Sound?
  {
    hide RunModes;
    MarkMode(Body);
  }

  lemma ChunkDoneLeads(p: Parser, ch: byte)
    requires Valid(p) && p.state == ChunkDataDone
    ensures EffectOf(OnChunkDataDone(p, ch), Closed).Sound?
  {
    hide RunModes;
    PlainMode(Closed, ChunkComplete);
  }

  lemma GotoLeads(p: Parser, s: State)
    requires Bounded(p) && Fits(p, s) && OpenKind(s) == None && s != ChunkSizeStart
    ensures EffectOf(Goto(p, s), Closed).Sound?
  {
    hide RunModes;
    PlainMode(Closed, MessageBegin);
  }

  lemma ExpectLeads(p: Parser, ch: byte, want: byte, s: State)
    requires Bounded(p) && Fits(p, s) && OpenKind(s) == None && s != ChunkSizeStart
    ensures EffectOf(Expect(p, ch, want, s), Closed).Sound?
  {
    hide EffectOf, Fits;
    GotoLeads(p, s);
    StopLeads(p, STRICT, Closed);
  }

  lemma PlainLeads(p: Parser)
    requires Bounded(p) && Plain(p.state)
    ensures EffectOf(Go(p), Closed).Sound?
  {
    hide RunModes;
    PlainMode(Closed, MessageBegin);
  }

  lemma VersionLeads(p: Parser, ch: byte, s: State)
    requires Bounded(p) && Plain(s)
    ensures EffectOf(OnMajor(p, ch, s), Closed).Sound?
    ensures EffectOf(OnMinor(p, ch, s), Closed).Sound?
    ensures EffectOf(OnDot(p, ch, s), Closed).Sound?
  {
    hide EffectOf, Plain;
    StopLeads(p, INVALID_VERSION, Closed);
    PlainLeads(p.(state := s));
    if IsNum(ch) {
      PlainLeads(p.(httpMajor := ch - '0' as int, state := s));
      PlainLeads(p.(httpMinor := ch - '0' as int, state := s));
    }
  }

  lemma LineLeads(p: Parser, ch: byte)
    requires Bounded(p)
    ensures EffectOf(OnResHttpEnd(p, ch), Closed).Sound?
    ensures EffectOf(OnReqHttpEnd(p, ch), Closed).Sound?
    ensures EffectOf(OnReqLineAlmostDone(p, ch), Closed).Sound?
    ensures ValueState(p.headerState) ==> EffectOf(OnHeaderAlmostDone(p, ch), Closed).Sound?
  {
    hide EffectOf;
    GotoLeads(p, ResFirstStatusCode);
    GotoLeads(p, HeaderFieldStart);
    GotoLeads(p, ReqLineAlmostDone);
    if ValueState(p.headerState) {
      GotoLeads(p, HeaderValueLws);
    }
    StopLeads(p, INVALID_VERSION, Closed);
    StopLeads(p, LF_EXPECTED, Closed);
  }

  lemma HttpStartLeads(p: Parser, ch: byte)
    requires Bounded(p)
    ensures EffectOf(OnReqHttpStart(p.(state := ReqHttpStart), ch), Closed).Sound?
    ensures EffectOf(OnResOrRespH(p, ch), Closed).Sound?
    ensures EffectOf(Go(p.(state := Dead)), Closed).Sound?
  {
    hide EffectOf;
    StopLeads(p, INVALID_CONSTANT, Closed);
    StopLeads(p.(state := ReqHttpStart), INVALID_CONSTANT, Closed);
    GotoLeads(p.(state := ReqHttpStart), ReqHttpH);
    GotoLeads(p, ReqHttpStart);
    GotoLeads(p, Dead);
    GotoLeads(p.(typ := Response), ResHT);
    MethodLengths(HEAD);
    GotoLeads(p.(typ := Request, verb := HEAD, index := 2), ReqMethod);
  }

  lemma ResponseLineLeads(p: Parser, skip: bool, ch: byte, hc: Settings)
    requires Valid(p) && Part(p.state) == 0
    ensures EffectOf(Switch(p, skip, ch, hc), EntryMode(p.state)).Sound?
  {
    hide RunModes, OnStartReqOrRes, OnStartReq, OnStartRes, OnResOrRespH, OnResStatus, OnResStatusStart,
      OnResStatusCode, OnResFirstStatusCode, OnResHttpEnd, OnMajor, OnMinor, OnDot, Expect, EffectOf;
    match p.state
    case Dead =>
      HttpStartLeads(p, ch);
      StopLeads(p, CLOSED_CONNECTION, Closed);
    case StartReqOrRes => StartLeads(p, ch);
    case StartReq => StartLeads(p, ch);
    case StartRes => StartLeads(p, ch);
    case ResOrRespH => HttpStartLeads(p, ch);
    case ResH => ExpectLeads(p, ch, 'T' as int, ResHT);
    case ResHT => ExpectLeads(p, ch, 'T' as int, ResHTT);
    case ResHTT => ExpectLeads(p, ch, 'P' as int, ResHTTP);
    case ResHTTP => ExpectLeads(p, ch, '/' as int, ResHttpMajor);
    case ResHttpMajor => VersionLeads(p, ch, ResHttpDot);
    case ResHttpDot => VersionLeads(p, ch, ResHttpMinor);
    case ResHttpMinor => VersionLeads(p, ch, ResHttpEnd);
    case ResHttpEnd => LineLeads(p, ch);
    case ResStatus => StatusTextLeads(p, ch);
    case ResStatusStart => StatusStartLeads(p, ch);
    case ResStatusCode => StatusLeads(p, ch);
    case ResFirstStatusCode => StatusLeads(p, ch);
    case ResLineAlmostDone => ExpectLeads(p, ch, LF, HeaderFieldStart);
    case _ =>
  }

  lemma RequestLineLeads(p: Parser, skip: bool, ch: byte, hc: Settings)
    requires Valid(p) && Part(p.state) == 1
    ensures EffectOf(Switch(p, skip, ch, hc), EntryMode(p.state)).Sound?
  {
    hide RunModes, OnReqMethod, UrlChar, OnUrl, OnUrlPrefix, OnReqSpacesBeforeUrl, OnReqHttpStart,
      OnMajor, OnMinor, OnDot, Expect, OnReqHttpEnd, OnReqLineAlmostDone, EffectOf;
    match p.state
    case ReqMethod => MethodLeads(p, ch);
    case ReqSpacesBeforeUrl => UrlStartLeads(p, ch);
    case ReqHttpStart => HttpStartLeads(p, ch);
    case ReqHttpH => ExpectLeads(p, ch, 'T' as int, ReqHttpHT);
    case ReqHttpHT => ExpectLeads(p, ch, 'T' as int, ReqHttpHTT);
    case ReqHttpHTT => ExpectLeads(p, ch, 'P' as int, ReqHttpHTTP);
    case ReqHttpHTTP => ExpectLeads(p, ch, '/' as int, ReqHttpMajor);
    case ReqHttpMajor => VersionLeads(p, ch, ReqHttpDot);
    case ReqHttpDot => VersionLeads(p, ch, ReqHttpMinor);
    case ReqHttpMinor => VersionLeads(p, ch, ReqHttpEnd);
    case ReqHttpEnd => LineLeads(p, ch);
    case ReqLineAlmostDone => LineLeads(p, ch);
    case _ => UrlLeads(p, ch);
  }

  lemma HeaderLeads(p: Parser, skip: bool, ch: byte, hc: Settings)
    requires Valid(p) && Part(p.state) == 2
    ensures EffectOf(Switch(p, skip, ch, hc), EntryMode(p.state)).Sound?
  {
    hide RunModes, OnHeadersAlmostDone, OnHeaderFieldStart, OnHeaderField, OnHeaderValue, OnHeaderValueLws,
      OnHeaderValueDiscardLws, OnHeaderValueDiscardWs, OnHeaderAlmostDone, Expect, EffectOf;
    match p.state
    case HeaderFieldStart => FieldStartLeads(p, ch, hc);
    case HeaderField => FieldLeads(p, ch);
    case HeaderValueDiscardWs => DiscardWsLeads(p, ch);
    case HeaderValueDiscardLws => DiscardLwsLeads(p, ch, hc);
    case HeaderValueDiscardWsAlmostDone => ExpectLeads(p, ch, LF, HeaderValueDiscardLws);
    case HeaderValue => ValueLeads(p, ch, skip, hc);
    case HeaderValueLws => ValueLwsLeads(p, ch, hc);
    case HeaderAlmostDone => LineLeads(p, ch);
    case HeadersAlmostDone => EndOfHeadersLeads(p, ch, hc);
    case _ =>
  }

  lemma BodyStateLeads(p: Parser, skip: bool, ch: byte, hc: Settings, mode: Mode)
    requires Valid(p) && Part(p.state) == 3
    requires mode == Closed || (mode == Carried && BodyOpen(p.state))
    ensures EffectOf(Switch(p, skip, ch, hc), mode).Sound?
  {
    hide RunModes, OnBodyIdentity, OnChunkSizeStart, OnChunkSize, OnChunkParameters,
      OnChunkSizeAlmostDone, OnChunkData, OnChunkDataAlmostDone, OnChunkDataDone, EffectOf;
    match p.state
    case ChunkSizeStart => ChunkSizeStartLeads(p, ch);
    case ChunkSize => ChunkSizeLeads(p, ch);
    case ChunkParameters => ChunkParametersLeads(p, ch);
    case ChunkSizeAlmostDone => ChunkHeaderLeads(p, ch);
    case ChunkData => ChunkDataLeads(p, ch, mode);
    case ChunkDataAlmostDone => ChunkAlmostDoneLeads(p, ch, mode);
    case ChunkDataDone => ChunkDoneLeads(p, ch);
    case BodyIdentity => BodyLeads(p);
    case BodyIdentityEof => EofBodyLeads(p, mode);
    case _ =>
  }

  lemma EofBodyLeads(p: Parser, mode: Mode)
    requires Valid(p) && p.state == BodyIdentityEof && (mode == Closed || mode == Carried)
    ensures EffectOf(Micro(p, [Mark(Body)], Next), mode).Sound?
  {
    hide RunModes;
    MarkMode(Body);
  }

  /** Every byte in every valid state. A body mark may be carried into the states that
      can leave one set. */
  lemma SwitchLeads(p: Parser, skip: bool, ch: byte, hc: Settings, mode: Mode)
    requires Valid(p)
    requires mode == EntryMode(p.state) || (mode == Carried && BodyOpen(p.state))
    ensures EffectOf(Switch(p, skip, ch, hc), mode).Sound?
  {
    hide Switch, RunModes, Valid, EffectOf;
    if Part(p.state) == 3 {
      BodyStateLeads(p, skip, ch, hc, mode);
    } else if Part(p.state) == 2 {
      HeaderLeads(p, skip, ch, hc);
    } else if Part(p.state) == 1 {
      RequestLineLeads(p, skip, ch, hc);
    } else {
      ResponseLineLeads(p, skip, ch, hc);
    }
  }
}
