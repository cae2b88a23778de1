/** The switch of http_parser_execute for one byte (common/http_parser.c:706-2013).
    A state handler answers with the new parser record, the mark and callback macros it
    runs, in order, and how it ends. REEXECUTE() is a call of the next handler. */
module HttpSwitch {
  import opened Common
  import opened HttpTypes

  datatype Op =
    | Mark(kind: Kind)                     // MARK(kind)
    | Flush(kind: Kind, inclusive: bool)   // CALLBACK_DATA up to the current byte, or including it
    | Fire(event: Event)                   // CALLBACK_NOTIFY

  datatype Fin = Next | Fail(errno: Errno) | Exit

  /** clear: parser->nread was set to 0. */
  datatype Micro = Micro(p: Parser, ops: seq<Op>, fin: Fin, clear: bool := false)

  function Go(p: Parser): Micro {
    Micro(p, [], Next)
  }

  function Goto(p: Parser, s: State): Micro {
    Go(p.(state := s))
  }

  function Stop(p: Parser, e: Errno): Micro {
    Micro(p, [], Fail(e))
  }

  function After(ops: seq<Op>, m: Micro): Micro {
    m.(ops := ops + m.ops)
  }

  /** STRICT_CHECK(ch != want), then the next state. */
  function Expect(p: Parser, ch: byte, want: byte, s: State): Micro {
    if ch != want then Stop(p, STRICT) else Goto(p, s)
  }

  function Reset(p: Parser): Parser {
    p.(flags := NO_FLAGS, contentLength := ULLONG_MAX)
  }

  // ----- start line -----

  function OnStartReqOrRes(p: Parser, ch: byte): Micro {
    if ch == CR || ch == LF then Go(p)
    else if ch == 'H' as int then
      Micro(Reset(p).(state := ResOrRespH), [Fire(MessageBegin)], Next)
    else OnStartReq(Reset(p).(typ := Request, state := StartReq), ch)
  }

  function OnResOrRespH(p: Parser, ch: byte): Micro {
    if ch == 'T' as int then Go(p.(typ := Response, state := ResHT))
    else if ch != 'E' as int then Stop(p, INVALID_CONSTANT)
    else Go(p.(typ := Request, verb := HEAD, index := 2, state := ReqMethod))
  }

  function OnStartRes(p: Parser, ch: byte): Micro {
    if ch == 'H' as int then Micro(Reset(p).(state := ResH), [Fire(MessageBegin)], Next)
    else if ch == CR || ch == LF then Micro(Reset(p), [Fire(MessageBegin)], Next)
    else Stop(Reset(p), INVALID_CONSTANT)
  }

  function OnResFirstStatusCode(p: Parser, ch: byte): Micro {
    if IsNum(ch) then Go(p.(statusCode := ch - '0' as int, state := ResStatusCode))
    else if ch == SP then Go(p)
    else Stop(p, INVALID_STATUS)
  }

  function OnResStatusCode(p: Parser, ch: byte): Micro {
    if !IsNum(ch) then
      if ch == SP then Goto(p, ResStatusStart)
      else if ch == CR || ch == LF then OnResStatusStart(p.(state := ResStatusStart), ch)
      else Stop(p, INVALID_STATUS)
    else
      var code := p.statusCode * 10 + (ch - '0' as int);
      if code > 999 then Stop(p.(statusCode := code), INVALID_STATUS) else Go(p.(statusCode := code))
  }

  function OnResStatusStart(p: Parser, ch: byte): Micro {
    var q := p.(state := ResStatus, index := 0);
    After([Mark(Status)], if ch == CR || ch == LF then OnResStatus(q, ch) else Go(q))
  }

  function OnResStatus(p: Parser, ch: byte): Micro {
    if ch == CR then Micro(p.(state := ResLineAlmostDone), [Flush(Status, false)], Next)
    else if ch == LF then Micro(p.(state := HeaderFieldStart), [Flush(Status, false)], Next)
    else Go(p)
  }

  function FirstMethod(ch: byte): Option<Method> {
    if ch == 'A' as int then Some(ACL) else if ch == 'B' as int then Some(BIND)
    else if ch == 'C' as int then Some(CONNECT) else if ch == 'D' as int then Some(DELETE)
    else if ch == 'G' as int then Some(GET) else if ch == 'H' as int then Some(HEAD)
    else if ch == 'L' as int then Some(LOCK) else if ch == 'M' as int then Some(MKCOL)
    else if ch == 'N' as int then Some(NOTIFY) else if ch == 'O' as int then Some(OPTIONS)
    else if ch == 'P' as int then Some(POST) else if ch == 'R' as int then Some(REPORT)
    else if ch == 'S' as int then Some(SUBSCRIBE) else if ch == 'T' as int then Some(TRACE)
    else if ch == 'U' as int then Some(UNLOCK) else None
  }

  /** The table of letters at which one method name turns out to be another. */
  function Rename(m: Method, index: nat, ch: byte): Option<Method> {
    match (m, index)
    case (POST, 1) =>
      if ch == 'U' as int then Some(PUT) else if ch == 'A' as int then Some(PATCH)
      else if ch == 'R' as int then Some(PROPFIND) else None
    case (PUT, 2) => if ch == 'R' as int then Some(PURGE) else None
    case (CONNECT, 1) => if ch == 'H' as int then Some(CHECKOUT) else None
    case (CONNECT, 2) => if ch == 'P' as int then Some(COPY) else None
    case (MKCOL, 1) =>
      if ch == 'O' as int then Some(MOVE) else if ch == 'E' as int then Some(MERGE)
      else if ch == '-' as int then Some(MSEARCH) else None
    case (MKCOL, 2) => if ch == 'A' as int then Some(MKACTIVITY) else None
    case (MKCOL, 3) => if ch == 'A' as int then Some(MKCALENDAR) else None
    case (SUBSCRIBE, 1) =>
      if ch == 'E' as int then Some(SEARCH) else if ch == 'O' as int then Some(SOURCE) else None
    case (REPORT, 2) => if ch == 'B' as int then Some(REBIND) else None
    case (PROPFIND, 4) => if ch == 'P' as int then Some(PROPPATCH) else None
    case (LOCK, 1) => if ch == 'I' as int then Some(LINK) else None
    case (UNLOCK, 2) =>
      if ch == 'S' as int then Some(UNSUBSCRIBE) else if ch == 'B' as int then Some(UNBIND) else None
    case (UNLOCK, 3) => if ch == 'I' as int then Some(UNLINK) else None
    case _ => None
  }

  function OnStartReq(p: Parser, ch: byte): Micro {
    if ch == CR || ch == LF then Go(p)
    else
      match FirstMethod(ch)
      case None => Stop(Reset(p), INVALID_METHOD)
      case Some(m) => Micro(Reset(p).(verb := m, index := 1, state := ReqMethod), [Fire(MessageBegin)], Next)
  }

  function OnReqMethod(p: Parser, ch: byte): Micro {
    var name := MethodString(p.verb);
    if ch == 0 then Stop(p, INVALID_METHOD)
    else if ch == SP && CharAt(name, p.index) == 0 then Go(p.(state := ReqSpacesBeforeUrl, index := p.index + 1))
    else if ch == CharAt(name, p.index) then Go(p.(index := p.index + 1))
    else if 'A' as int <= ch <= 'Z' as int || ch == '-' as int then
      match Rename(p.verb, p.index, ch)
      case None => Stop(p, INVALID_METHOD)
      case Some(m) => Go(p.(verb := m, index := p.index + 1))
    else Stop(p, INVALID_METHOD)
  }

  /** parse_url_char */
  function ParseUrlChar(s: State, ch: byte): State {
    if ch == SP || ch == CR || ch == LF || ch == TAB || ch == 12 then Dead
    else
      match s
      case ReqSpacesBeforeUrl =>
        if ch == '/' as int || ch == '*' as int then ReqPath
        else if IsAlpha(ch) then ReqSchema else Dead
      case ReqSchema =>
        if IsAlpha(ch) then ReqSchema else if ch == ':' as int then ReqSchemaSlash else Dead
      case ReqSchemaSlash => if ch == '/' as int then ReqSchemaSlashSlash else Dead
      case ReqSchemaSlashSlash => if ch == '/' as int then ReqServerStart else Dead
      case ReqServerWithAt => if ch == '@' as int then Dead else ParseServerChar(ch)
      case ReqServerStart => ParseServerChar(ch)
      case ReqServer => ParseServerChar(ch)
      case ReqPath =>
        if IsUrlChar(ch) then ReqPath else if ch == '?' as int then ReqQueryStringStart
        else if ch == '#' as int then ReqFragmentStart else Dead
      case ReqQueryStringStart => ParseQueryChar(ch)
      case ReqQueryString => ParseQueryChar(ch)
      case ReqFragmentStart =>
        if IsUrlChar(ch) || ch == '?' as int then ReqFragment
        else if ch == '#' as int then ReqFragmentStart else Dead
      case ReqFragment => if IsUrlChar(ch) || ch == '?' as int || ch == '#' as int then ReqFragment else Dead
      case _ => Dead
  }

  function ParseServerChar(ch: byte): State {
    if ch == '/' as int then ReqPath
    else if ch == '?' as int then ReqQueryStringStart
    else if ch == '@' as int then ReqServerWithAt
    else if IsUserinfoChar(ch) || ch == '[' as int || ch == ']' as int then ReqServer
    else Dead
  }

  function ParseQueryChar(ch: byte): State {
    if IsUrlChar(ch) || ch == '?' as int then ReqQueryString
    else if ch == '#' as int then ReqFragmentStart
    else Dead
  }

  function UrlChar(p: Parser, ch: byte): Micro {
    var s := ParseUrlChar(p.state, ch);
    if s == Dead then Stop(p.(state := s), INVALID_URL) else Goto(p, s)
  }

  function OnReqSpacesBeforeUrl(p: Parser, ch: byte): Micro {
    if ch == SP then Go(p)
    else After([Mark(Url)], UrlChar(if p.verb == CONNECT then p.(state := ReqServerStart) else p, ch))
  }

  /** The states of a URL that may not end yet. */
  function OnUrlPrefix(p: Parser, ch: byte): Micro {
    if ch == SP || ch == CR || ch == LF then Stop(p, INVALID_URL) else UrlChar(p, ch)
  }

  function OnUrl(p: Parser, ch: byte): Micro {
    if ch == SP then Micro(p.(state := ReqHttpStart), [Flush(Url, false)], Next)
    else if ch == CR || ch == LF then
      Micro(p.(httpMajor := 0, httpMinor := 9, state := if ch == CR then ReqLineAlmostDone else HeaderFieldStart),
            [Flush(Url, false)], Next)
    else UrlChar(p, ch)
  }

  function OnReqHttpStart(p: Parser, ch: byte): Micro {
    if ch == 'H' as int then Goto(p, ReqHttpH)
    else if ch == SP then Go(p)
    else Stop(p, INVALID_CONSTANT)
  }

  function OnMajor(p: Parser, ch: byte, s: State): Micro {
    if !IsNum(ch) then Stop(p, INVALID_VERSION) else Go(p.(httpMajor := ch - '0' as int, state := s))
  }

  function OnMinor(p: Parser, ch: byte, s: State): Micro {
    if !IsNum(ch) then Stop(p, INVALID_VERSION) else Go(p.(httpMinor := ch - '0' as int, state := s))
  }

  function OnDot(p: Parser, ch: byte, s: State): Micro {
    if ch != '.' as int then Stop(p, INVALID_VERSION) else Goto(p, s)
  }

  function OnResHttpEnd(p: Parser, ch: byte): Micro {
    if ch != SP then Stop(p, INVALID_VERSION) else Goto(p, ResFirstStatusCode)
  }

  function OnReqHttpEnd(p: Parser, ch: byte): Micro {
    if ch == CR then Goto(p, ReqLineAlmostDone)
    else if ch == LF then Goto(p, HeaderFieldStart)
    else Stop(p, INVALID_VERSION)
  }

  function OnReqLineAlmostDone(p: Parser, ch: byte): Micro {
    if ch != LF then Stop(p, LF_EXPECTED) else Goto(p, HeaderFieldStart)
  }

  // ----- header fields -----

  function OnHeaderFieldStart(p: Parser, ch: byte, hc: Settings): Micro {
    if ch == CR then Goto(p, HeadersAlmostDone)
    else if ch == LF then OnHeadersAlmostDone(p.(state := HeadersAlmostDone), ch, hc)
    else
      var c := Token(ch);
      if c == 0 then Stop(p, INVALID_HEADER_TOKEN)
      else
        var h := if c == 'c' as int then C else if c == 'p' as int then MatchingProxyConnection
          else if c == 't' as int then MatchingTransferEncoding
          else if c == 'u' as int then MatchingUpgrade else General;
        Micro(p.(index := 0, state := HeaderField, headerState := h), [Mark(Field)], Next)
  }

  /** One step of matching a header name against word, complete at its last letter. */
  function MatchName(p: Parser, c: int, word: string, complete: HeaderState): Parser {
    var i := p.index + 1;
    if i > |word| || c != CharAt(word, i) then p.(index := i, headerState := General)
    else if i == |word| - 1 then p.(index := i, headerState := complete)
    else p.(index := i)
  }

  /** The inner switch of s_header_field on the token character c of the byte ch. */
  function FieldChar(p: Parser, ch: byte, c: int): Parser {
    match p.headerState
    case C => p.(index := p.index + 1, headerState := if c == 'o' as int then CO else General)
    case CO => p.(index := p.index + 1, headerState := if c == 'n' as int then CON else General)
    case CON => p.(index := p.index + 1,
                   headerState := if c == 'n' as int then MatchingConnection
                                  else if c == 't' as int then MatchingContentLength else General)
    case MatchingConnection => MatchName(p, c, "connection", Connection)
    case MatchingProxyConnection => MatchName(p, c, "proxy-connection", Connection)
    case MatchingContentLength => MatchName(p, c, "content-length", ContentLength)
    case MatchingTransferEncoding => MatchName(p, c, "transfer-encoding", TransferEncoding)
    case MatchingUpgrade => MatchName(p, c, "upgrade", Upgrade)
    case Connection => if ch != SP then p.(headerState := General) else p
    case ContentLength => if ch != SP then p.(headerState := General) else p
    case TransferEncoding => if ch != SP then p.(headerState := General) else p
    case Upgrade => if ch != SP then p.(headerState := General) else p
    case _ => p
  }

  function OnHeaderField(p: Parser, ch: byte): Micro {
    var c := Token(ch);
    if c != 0 then Go(FieldChar(p, ch, c))
    else if ch == ':' as int then Micro(p.(state := HeaderValueDiscardWs), [Flush(Field, false)], Next)
    else Stop(p, INVALID_HEADER_TOKEN)
  }

  // ----- header values -----

  function OnHeaderValueDiscardWs(p: Parser, ch: byte): Micro {
    if ch == SP || ch == TAB then Go(p)
    else if ch == CR then Goto(p, HeaderValueDiscardWsAlmostDone)
    else if ch == LF then Goto(p, HeaderValueDiscardLws)
    else OnHeaderValueStart(p, ch)
  }

  function OnHeaderValueStart(p: Parser, ch: byte): Micro {
    After([Mark(Value)], BeginValue(p.(state := HeaderValue, index := 0), ch))
  }

  /** The switch of s_header_value_start on the first byte of a value. */
  function BeginValue(p: Parser, ch: byte): Micro {
    var c := Lower(ch);
    match p.headerState
    case Upgrade => Go(p.(flags := p.flags.(upgrade := true), headerState := General))
    case TransferEncoding =>
      Go(p.(headerState := if c == 'c' as int then MatchingTransferEncodingChunked else General))
    case ContentLength =>
      if !IsNum(ch) then Stop(p, INVALID_CONTENT_LENGTH)
      else if p.flags.contentLength then Stop(p, UNEXPECTED_CONTENT_LENGTH)
      else Go(p.(flags := p.flags.(contentLength := true), contentLength := ch - '0' as int,
                 headerState := ContentLengthNum))
    case Connection =>
      Go(p.(headerState := if c == 'k' as int then MatchingConnectionKeepAlive
                           else if c == 'c' as int then MatchingConnectionClose
                           else if c == 'u' as int then MatchingConnectionUpgrade
                           else MatchingConnectionToken))
    case MatchingConnectionTokenStart => Go(p)
    case _ => Go(p.(headerState := General))
  }

  function MatchValue(p: Parser, c: int, word: string, complete: HeaderState, other: HeaderState): Parser {
    var i := p.index + 1;
    if i > |word| || c != CharAt(word, i) then p.(index := i, headerState := other)
    else if i == |word| - 1 then p.(index := i, headerState := complete)
    else p.(index := i)
  }

  function SetConnectionFlag(p: Parser): Parser {
    match p.headerState
    case ConnectionKeepAlive => p.(flags := p.flags.(keepAlive := true))
    case ConnectionClose => p.(flags := p.flags.(close := true))
    case ConnectionUpgrade => p.(flags := p.flags.(connectionUpgrade := true))
    case _ => p
  }

  /** h_content_length_num. The product and sum are taken modulo 2^64, as uint64_t does. */
  function LengthDigit(p: Parser, ch: byte): (Parser, Errno) {
    if ch == SP then (p.(headerState := ContentLengthWs), OK)
    else if !IsNum(ch) then (p, INVALID_CONTENT_LENGTH)
    else
      var t := (p.contentLength * 10 + (ch - '0' as int)) % (ULLONG_MAX + 1);
      if (ULLONG_MAX - 10) / 10 < p.contentLength then (p, INVALID_CONTENT_LENGTH)
      else (p.(contentLength := t), OK)
  }

  /** The inner switch of s_header_value on a byte other than CR and LF. */
  function ValueChar(p: Parser, ch: byte): (Parser, Errno) {
    var c := Lower(ch);
    match p.headerState
    case General => (p, OK)
    case ContentLength =>
      if ch == SP then (p, OK) else LengthDigit(p.(headerState := ContentLengthNum), ch)
    case ContentLengthNum => LengthDigit(p, ch)
    case ContentLengthWs => if ch == SP then (p, OK) else (p, INVALID_CONTENT_LENGTH)
    case MatchingTransferEncodingChunked => (MatchValue(p, c, "chunked", TransferEncodingChunked, General), OK)
    case MatchingConnectionTokenStart =>
      (p.(headerState :=
            if c == 'k' as int then MatchingConnectionKeepAlive
            else if c == 'c' as int then MatchingConnectionClose
            else if c == 'u' as int then MatchingConnectionUpgrade
            else if LowerIsToken(c) then MatchingConnectionToken
            else if c == SP || c == TAB then MatchingConnectionTokenStart
            else General), OK)
    case MatchingConnectionKeepAlive => (MatchValue(p, c, "keep-alive", ConnectionKeepAlive, MatchingConnectionToken), OK)
    case MatchingConnectionClose => (MatchValue(p, c, "close", ConnectionClose, MatchingConnectionToken), OK)
    case MatchingConnectionUpgrade => (MatchValue(p, c, "upgrade", ConnectionUpgrade, MatchingConnectionToken), OK)
    case MatchingConnectionToken =>
      if ch == ',' as int then (p.(headerState := MatchingConnectionTokenStart, index := 0), OK) else (p, OK)
    case TransferEncodingChunked => if ch != SP then (p.(headerState := General), OK) else (p, OK)
    case ConnectionKeepAlive => AfterConnectionWord(p, ch)
    case ConnectionClose => AfterConnectionWord(p, ch)
    case ConnectionUpgrade => AfterConnectionWord(p, ch)
    case _ => (p.(headerState := General), OK)
  }

  predicate LowerIsToken(c: int) {
    0 <= c < 256 && Token(c) != 0
  }

  function AfterConnectionWord(p: Parser, ch: byte): (Parser, Errno) {
    if ch == ',' as int then (SetConnectionFlag(p).(headerState := MatchingConnectionTokenStart, index := 0), OK)
    else if ch != SP then (p.(headerState := MatchingConnectionToken), OK)
    else (p, OK)
  }

  /** skip: memchr has already jumped past this byte, so IS_HEADER_CHAR is not asked. */
  function OnHeaderValue(p: Parser, ch: byte, skip: bool, hc: Settings): Micro {
    if ch == CR then Micro(p.(state := HeaderAlmostDone), [Flush(Value, false)], Next)
    else if ch == LF then After([Flush(Value, false)], OnHeaderAlmostDone(p.(state := HeaderAlmostDone), ch))
    else if !skip && !hc.lenient && !IsHeaderChar(ch) then Stop(p, INVALID_HEADER_TOKEN)
    else
      var (q, e) := ValueChar(p, ch);
      if e != OK then Stop(q, e) else Go(q)
  }

  function OnHeaderAlmostDone(p: Parser, ch: byte): Micro {
    if ch != LF then Stop(p, LF_EXPECTED) else Goto(p, HeaderValueLws)
  }

  function SetHeaderFlag(p: Parser): Parser {
    if p.headerState == TransferEncodingChunked then p.(flags := p.flags.(chunked := true))
    else SetConnectionFlag(p)
  }

  function OnHeaderValueLws(p: Parser, ch: byte, hc: Settings): Micro {
    if ch == SP || ch == TAB then OnHeaderValueStart(p.(state := HeaderValueStart), ch)
    else OnHeaderFieldStart(SetHeaderFlag(p).(state := HeaderFieldStart), ch, hc)
  }

  function OnHeaderValueDiscardLws(p: Parser, ch: byte, hc: Settings): Micro {
    if ch == SP || ch == TAB then Goto(p, HeaderValueDiscardWs)
    else
      After([Mark(Value), Flush(Value, false)],
            OnHeaderFieldStart(SetHeaderFlag(p).(state := HeaderFieldStart), ch, hc))
  }

  // ----- end of headers -----

  function OnHeadersAlmostDone(p: Parser, ch: byte, hc: Settings): Micro {
    if ch != LF then Stop(p, STRICT)
    else if p.flags.trailing then
      After([Fire(ChunkComplete)], OnMessageDone(p.(state := MessageDone)))
    else if p.flags.chunked && p.flags.contentLength then Stop(p, UNEXPECTED_CONTENT_LENGTH)
    else
      var q := p.(state := HeadersDone,
                  upgrade := if p.flags.upgrade && p.flags.connectionUpgrade then p.typ == Request || p.statusCode == 101
                             else p.verb == CONNECT);
      var r := match hc.headersComplete(q)
        case Proceed => q
        case SkipBody => q.(flags := q.flags.(skipBody := true))
        case SkipBodyAndUpgrade => q.(flags := q.flags.(skipBody := true), upgrade := true);
      After([Fire(HeadersComplete)], OnHeadersDone(r, ch))
  }

  function OnHeadersDone(p: Parser, ch: byte): Micro {
    var hasBody := p.flags.chunked || (p.contentLength > 0 && p.contentLength != ULLONG_MAX);
    var complete := Micro(p.(state := NewMessage(p)), [Fire(MessageComplete)], Next, true);
    if ch != LF then Stop(p, STRICT)
    else if p.upgrade && (p.verb == CONNECT || p.flags.skipBody || !hasBody) then complete.(fin := Exit)
    else if p.flags.skipBody then complete
    else if p.flags.chunked then Goto(p, ChunkSizeStart).(clear := true)
    else if p.contentLength == 0 then complete
    else if p.contentLength != ULLONG_MAX then Goto(p, BodyIdentity).(clear := true)
    else if !NeedsEof(p) then complete
    else Goto(p, BodyIdentityEof).(clear := true)
  }

  function OnMessageDone(p: Parser): Micro {
    Micro(p.(state := NewMessage(p)), [Fire(MessageComplete)], if p.upgrade then Exit else Next)
  }

  // ----- bodies: one byte of them -----

  /** One byte read. The source asserts that one was left: see HttpInvariant.Valid. */
  function OneLess(p: Parser): Parser {
    p.(contentLength := if p.contentLength == 0 then 0 else p.contentLength - 1)
  }

  function OnBodyIdentity(p: Parser): Micro {
    var q := OneLess(p);
    if q.contentLength == 0 then
      After([Mark(Body), Flush(Body, true)], OnMessageDone(q.(state := MessageDone)))
    else Micro(q, [Mark(Body)], Next)
  }

  function OnChunkSizeStart(p: Parser, ch: byte): Micro {
    var v := Unhex(ch);
    if v == -1 then Stop(p, INVALID_CHUNK_SIZE) else Go(p.(contentLength := v, state := ChunkSize))
  }

  function OnChunkSize(p: Parser, ch: byte): Micro {
    var v := Unhex(ch);
    if ch == CR then Goto(p, ChunkSizeAlmostDone)
    else if v == -1 then
      if ch == ';' as int || ch == SP then Goto(p, ChunkParameters) else Stop(p, INVALID_CHUNK_SIZE)
    else
      var t := (p.contentLength * 16 + v) % (ULLONG_MAX + 1);
      if (ULLONG_MAX - 16) / 16 < p.contentLength then Stop(p, INVALID_CONTENT_LENGTH)
      else Go(p.(contentLength := t))
  }

  function OnChunkParameters(p: Parser, ch: byte): Micro {
    if ch == CR then Goto(p, ChunkSizeAlmostDone) else Go(p)
  }

  function OnChunkSizeAlmostDone(p: Parser, ch: byte): Micro {
    if ch != LF then Stop(p, STRICT)
    else if p.contentLength == 0 then
      Micro(p.(flags := p.flags.(trailing := true), state := HeaderFieldStart), [Fire(ChunkHeader(0))], Next, true)
    else Micro(p.(state := ChunkData), [Fire(ChunkHeader(p.contentLength))], Next, true)
  }

  function OnChunkData(p: Parser): Micro {
    var q := OneLess(p);
    Micro(if q.contentLength == 0 then q.(state := ChunkDataAlmostDone) else q, [Mark(Body)], Next)
  }

  function OnChunkDataAlmostDone(p: Parser, ch: byte): Micro {
    if ch != CR then Stop(p, STRICT) else Micro(p.(state := ChunkDataDone), [Flush(Body, false)], Next)
  }

  function OnChunkDataDone(p: Parser, ch: byte): Micro {
    if ch != LF then Stop(p, STRICT) else Micro(p.(state := ChunkSizeStart), [Fire(ChunkComplete)], Next, true)
  }

  /** The whole switch on one byte. */
  function Switch(p: Parser, skip: bool, ch: byte, hc: Settings): Micro {
    match p.state
    case Dead => if ch == CR || ch == LF then Go(p) else Stop(p, CLOSED_CONNECTION)
    case StartReqOrRes => OnStartReqOrRes(p, ch)
    case ResOrRespH => OnResOrRespH(p, ch)
    case StartRes => OnStartRes(p, ch)
    case ResH => Expect(p, ch, 'T' as int, ResHT)
    case ResHT => Expect(p, ch, 'T' as int, ResHTT)
    case ResHTT => Expect(p, ch, 'P' as int, ResHTTP)
    case ResHTTP => Expect(p, ch, '/' as int, ResHttpMajor)
    case ResHttpMajor => OnMajor(p, ch, ResHttpDot)
    case ResHttpDot => OnDot(p, ch, ResHttpMinor)
    case ResHttpMinor => OnMinor(p, ch, ResHttpEnd)
    case ResHttpEnd => OnResHttpEnd(p, ch)
    case ResFirstStatusCode => OnResFirstStatusCode(p, ch)
    case ResStatusCode => OnResStatusCode(p, ch)
    case ResStatusStart => OnResStatusStart(p, ch)
    case ResStatus => OnResStatus(p, ch)
    case ResLineAlmostDone => Expect(p, ch, LF, HeaderFieldStart)
    case StartReq => OnStartReq(p, ch)
    case ReqMethod => OnReqMethod(p, ch)
    case ReqSpacesBeforeUrl => OnReqSpacesBeforeUrl(p, ch)
    case ReqSchema => OnUrlPrefix(p, ch)
    case ReqSchemaSlash => OnUrlPrefix(p, ch)
    case ReqSchemaSlashSlash => OnUrlPrefix(p, ch)
    case ReqServerStart => OnUrlPrefix(p, ch)
    case ReqServer => OnUrl(p, ch)
    case ReqServerWithAt => OnUrl(p, ch)
    case ReqPath => OnUrl(p, ch)
    case ReqQueryStringStart => OnUrl(p, ch)
    case ReqQueryString => OnUrl(p, ch)
    case ReqFragmentStart => OnUrl(p, ch)
    case ReqFragment => OnUrl(p, ch)
    case ReqHttpStart => OnReqHttpStart(p, ch)
    case ReqHttpH => Expect(p, ch, 'T' as int, ReqHttpHT)
    case ReqHttpHT => Expect(p, ch, 'T' as int, ReqHttpHTT)
    case ReqHttpHTT => Expect(p, ch, 'P' as int, ReqHttpHTTP)
    case ReqHttpHTTP => Expect(p, ch, '/' as int, ReqHttpMajor)
    case ReqHttpMajor => OnMajor(p, ch, ReqHttpDot)
    case ReqHttpDot => OnDot(p, ch, ReqHttpMinor)
    case ReqHttpMinor => OnMinor(p, ch, ReqHttpEnd)
    case ReqHttpEnd => OnReqHttpEnd(p, ch)
    case ReqLineAlmostDone => OnReqLineAlmostDone(p, ch)
    case HeaderFieldStart => OnHeaderFieldStart(p, ch, hc)
    case HeaderField => OnHeaderField(p, ch)
    case HeaderValueDiscardWs => OnHeaderValueDiscardWs(p, ch)
    case HeaderValueDiscardWsAlmostDone => Expect(p, ch, LF, HeaderValueDiscardLws)
    case HeaderValueDiscardLws => OnHeaderValueDiscardLws(p, ch, hc)
    case HeaderValueStart => OnHeaderValueStart(p, ch)
    case HeaderValue => OnHeaderValue(p, ch, skip, hc)
    case HeaderValueLws => OnHeaderValueLws(p, ch, hc)
    case HeaderAlmostDone => OnHeaderAlmostDone(p, ch)
    case HeadersAlmostDone => OnHeadersAlmostDone(p, ch, hc)
    case HeadersDone => OnHeadersDone(p, ch)
    case ChunkSizeStart => OnChunkSizeStart(p, ch)
    case ChunkSize => OnChunkSize(p, ch)
    case ChunkParameters => OnChunkParameters(p, ch)
    case ChunkSizeAlmostDone => OnChunkSizeAlmostDone(p, ch)
    case ChunkData => OnChunkData(p)
    case ChunkDataAlmostDone => OnChunkDataAlmostDone(p, ch)
    case ChunkDataDone => OnChunkDataDone(p, ch)
    case BodyIdentity => OnBodyIdentity(p)
    case BodyIdentityEof => Micro(p, [Mark(Body)], Next)
    case MessageDone => OnMessageDone(p)
  }
}
