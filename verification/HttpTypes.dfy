/** The parser record, character classes and callbacks of common/http_parser.h and
    common/http_parser.c, in the strict build (HTTP_PARSER_STRICT == 1). */
module HttpTypes {
  import opened Common

  const CR := 13
  const LF := 10
  const SP := 32
  const TAB := 9
  const ULLONG_MAX := 0xffff_ffff_ffff_ffff
  const HTTP_MAX_HEADER_SIZE := 80 * 1024

  datatype ParserType = Request | Response | Both

  datatype Method =
    | DELETE | GET | HEAD | POST | PUT | CONNECT | OPTIONS | TRACE | COPY | LOCK | MKCOL | MOVE
    | PROPFIND | PROPPATCH | SEARCH | UNLOCK | BIND | REBIND | UNBIND | ACL | REPORT | MKACTIVITY
    | CHECKOUT | MERGE | MSEARCH | NOTIFY | SUBSCRIBE | UNSUBSCRIBE | PATCH | PURGE | MKCALENDAR
    | LINK | UNLINK | SOURCE

  function MethodString(m: Method): string {
    match m
    case DELETE => "DELETE" case GET => "GET" case HEAD => "HEAD" case POST => "POST" case PUT => "PUT"
    case CONNECT => "CONNECT" case OPTIONS => "OPTIONS" case TRACE => "TRACE" case COPY => "COPY"
    case LOCK => "LOCK" case MKCOL => "MKCOL" case MOVE => "MOVE" case PROPFIND => "PROPFIND"
    case PROPPATCH => "PROPPATCH" case SEARCH => "SEARCH" case UNLOCK => "UNLOCK" case BIND => "BIND"
    case REBIND => "REBIND" case UNBIND => "UNBIND" case ACL => "ACL" case REPORT => "REPORT"
    case MKACTIVITY => "MKACTIVITY" case CHECKOUT => "CHECKOUT" case MERGE => "MERGE"
    case MSEARCH => "M-SEARCH" case NOTIFY => "NOTIFY" case SUBSCRIBE => "SUBSCRIBE"
    case UNSUBSCRIBE => "UNSUBSCRIBE" case PATCH => "PATCH" case PURGE => "PURGE"
    case MKCALENDAR => "MKCALENDAR" case LINK => "LINK" case UNLINK => "UNLINK" case SOURCE => "SOURCE"
  }

  datatype Flags = Flags(chunked: bool, keepAlive: bool, close: bool, connectionUpgrade: bool,
                         trailing: bool, upgrade: bool, skipBody: bool, contentLength: bool)

  const NO_FLAGS := Flags(false, false, false, false, false, false, false, false)

  datatype State =
    | Dead
    | StartReqOrRes | ResOrRespH | StartRes | ResH | ResHT | ResHTT | ResHTTP
    | ResHttpMajor | ResHttpDot | ResHttpMinor | ResHttpEnd
    | ResFirstStatusCode | ResStatusCode | ResStatusStart | ResStatus | ResLineAlmostDone
    | StartReq | ReqMethod | ReqSpacesBeforeUrl
    | ReqSchema | ReqSchemaSlash | ReqSchemaSlashSlash | ReqServerStart | ReqServer | ReqServerWithAt
    | ReqPath | ReqQueryStringStart | ReqQueryString | ReqFragmentStart | ReqFragment
    | ReqHttpStart | ReqHttpH | ReqHttpHT | ReqHttpHTT | ReqHttpHTTP
    | ReqHttpMajor | ReqHttpDot | ReqHttpMinor | ReqHttpEnd | ReqLineAlmostDone
    | HeaderFieldStart | HeaderField
    | HeaderValueDiscardWs | HeaderValueDiscardWsAlmostDone | HeaderValueDiscardLws
    | HeaderValueStart | HeaderValue | HeaderValueLws | HeaderAlmostDone
    | ChunkSizeStart | ChunkSize | ChunkParameters | ChunkSizeAlmostDone
    | HeadersAlmostDone | HeadersDone
    | ChunkData | ChunkDataAlmostDone | ChunkDataDone
    | BodyIdentity | BodyIdentityEof | MessageDone

  /** The PARSING_HEADER comparison: every state up to HeadersDone. */
  predicate ParsingHeader(s: State) {
    match s
    case ChunkData => false case ChunkDataAlmostDone => false case ChunkDataDone => false
    case BodyIdentity => false case BodyIdentityEof => false case MessageDone => false
    case _ => true
  }

  datatype HeaderState =
    | General | C | CO | CON
    | MatchingConnection | MatchingProxyConnection | MatchingContentLength
    | MatchingTransferEncoding | MatchingUpgrade
    | Connection | ContentLength | ContentLengthNum | ContentLengthWs | TransferEncoding | Upgrade
    | MatchingTransferEncodingChunked | MatchingConnectionTokenStart
    | MatchingConnectionKeepAlive | MatchingConnectionClose | MatchingConnectionUpgrade
    | MatchingConnectionToken
    | TransferEncodingChunked | ConnectionKeepAlive | ConnectionClose | ConnectionUpgrade

  datatype Errno =
    | OK | INVALID_EOF_STATE | HEADER_OVERFLOW | CLOSED_CONNECTION | INVALID_VERSION | INVALID_STATUS
    | INVALID_METHOD | INVALID_URL | LF_EXPECTED | INVALID_HEADER_TOKEN | INVALID_CONTENT_LENGTH
    | UNEXPECTED_CONTENT_LENGTH | INVALID_CHUNK_SIZE | INVALID_CONSTANT | INVALID_INTERNAL_STATE | STRICT

  /** struct http_parser without nread, http_errno and the setting lenient_http_headers. */
  datatype Parser = Parser(
    typ: ParserType, flags: Flags, state: State, headerState: HeaderState, index: nat,
    contentLength: nat, httpMajor: nat, httpMinor: nat, statusCode: nat, verb: Method, upgrade: bool)

  // ----- callbacks -----

  datatype Kind = Field | Value | Url | Body | Status

  datatype Event =
    | Data(kind: Kind, bytes: seq<byte>)
    | MessageBegin | HeadersComplete | MessageComplete | ChunkHeader(length: nat) | ChunkComplete

  /** What on_headers_complete answers: 0, 1 or 2. Every other callback answers 0. */
  datatype Verdict = Proceed | SkipBody | SkipBodyAndUpgrade

  /** The caller's settings: lenient_http_headers and the on_headers_complete callback. */
  datatype Settings = Settings(lenient: bool, headersComplete: Parser -> Verdict)

  // ----- character classes -----

  function Lower(c: byte): byte {
    if (c / 32) % 2 == 1 then c else c + 32
  }

  predicate IsAlpha(c: byte) {
    'a' as int <= Lower(c) <= 'z' as int
  }

  predicate IsNum(c: byte) {
    '0' as int <= c <= '9' as int
  }

  predicate IsMark(c: byte) {
    c == '-' as int || c == '_' as int || c == '.' as int || c == '!' as int || c == '~' as int
    || c == '*' as int || c == '\'' as int || c == '(' as int || c == ')' as int
  }

  predicate IsUserinfoChar(c: byte) {
    IsAlpha(c) || IsNum(c) || IsMark(c)
    || c == '%' as int || c == ';' as int || c == ':' as int || c == '&' as int
    || c == '=' as int || c == '+' as int || c == '$' as int || c == ',' as int
  }

  /** The bitmap normal_url_char: printable ASCII except '#' and '?'. */
  predicate IsUrlChar(c: byte) {
    33 <= c <= 126 && c != '#' as int && c != '?' as int
  }

  /** The table tokens: 0 for a byte no token may hold, else the byte in lower case. */
  function Token(c: byte): byte {
    if 'A' as int <= c <= 'Z' as int then c + 32
    else if IsNum(c) || 94 <= c <= 122 || 35 <= c <= 39
      || c == '!' as int || c == '*' as int || c == '+' as int || c == '-' as int || c == '.' as int
      || c == '|' as int || c == '~' as int then c
    else 0
  }

  /** The table unhex. Only its first 128 entries are written out in the source; the
      others are zero, so bytes from 0x80 on read as the digit 0 instead of -1. */
  function Unhex(c: byte): int {
    if IsNum(c) then c - '0' as int
    else if 'a' as int <= c <= 'f' as int then c - 'a' as int + 10
    else if 'A' as int <= c <= 'F' as int then c - 'A' as int + 10
    else if c >= 128 then 0
    else -1
  }

  predicate IsHeaderChar(c: byte) {
    c == CR || c == LF || c == 9 || (c > 31 && c != 127)
  }

  /** s[i] of a C string, whose last index holds the terminating 0. */
  function CharAt(s: string, i: nat): int {
    if i < |s| then s[i] as int else 0
  }

  // ----- http_message_needs_eof and http_should_keep_alive -----

  predicate NeedsEof(p: Parser) {
    && p.typ != Request
    && p.statusCode / 100 != 1 && p.statusCode != 204 && p.statusCode != 304
    && !p.flags.skipBody && !p.flags.chunked
    && p.contentLength == ULLONG_MAX
  }

  predicate ShouldKeepAlive(p: Parser) {
    && (if p.httpMajor > 0 && p.httpMinor > 0 then !p.flags.close else p.flags.keepAlive)
    && !NeedsEof(p)
  }

  /** NEW_MESSAGE() */
  function NewMessage(p: Parser): State {
    if !ShouldKeepAlive(p) then Dead
    else if p.typ == Request then StartReq
    else StartRes
  }
}
