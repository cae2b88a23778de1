/** Which byte is refused where, and with which error. */
module HttpErrors {
  import opened Common
  import opened HttpTypes
  import opened HttpSwitch
  import opened HttpInvariant
  import opened HttpSpec
  import opened HttpFragment
  import opened HttpHeaders

  /** The letters that method names begin with. */
  predicate BeginsMethod(ch: byte) {
    'A' as int <= ch <= 'D' as int || ch == 'G' as int || ch == 'H' as int || 'L' as int <= ch <= 'P' as int
    || 'R' as int <= ch <= 'U' as int
  }

  predicate TokenByte(ch: byte) {
    32 <= ch < 127 && !Separator(ch)
  }

  predicate SizeByte(ch: byte) {
    IsNum(ch) || 'a' as int <= ch <= 'f' as int || 'A' as int <= ch <= 'F' as int || ch >= 128
  }

  predicate BreakByte(ch: byte) {
    ch == CR || ch == LF
  }

  datatype Ruling = Accept | Refuse(errno: Errno) | Undecided

  function Only(good: bool, e: Errno): Ruling {
    if good then Accept else Refuse(e)
  }

  /** What a start line makes of a byte, where the state alone decides. */
  function OfStart(s: State, ch: byte): Ruling {
    match s
    case Dead => Only(BreakByte(ch), CLOSED_CONNECTION)
    case StartReq => Only(BreakByte(ch) || BeginsMethod(ch), INVALID_METHOD)
    case StartReqOrRes => Only(BreakByte(ch) || BeginsMethod(ch), INVALID_METHOD)
    case StartRes => Only(BreakByte(ch) || ch == 'H' as int, INVALID_CONSTANT)
    case ResOrRespH => Only(ch == 'T' as int || ch == 'E' as int, INVALID_CONSTANT)
    case ResH => Only(ch == 'T' as int, STRICT)
    case ResHT => Only(ch == 'T' as int, STRICT)
    case ResHTT => Only(ch == 'P' as int, STRICT)
    case ResHTTP => Only(ch == '/' as int, STRICT)
    case ResHttpMajor => Only(IsNum(ch), INVALID_VERSION)
    case ResHttpDot => Only(ch == '.' as int, INVALID_VERSION)
    case ResHttpMinor => Only(IsNum(ch), INVALID_VERSION)
    case ResHttpEnd => Only(ch == SP, INVALID_VERSION)
    case ResFirstStatusCode => Only(IsNum(ch) || ch == SP, INVALID_STATUS)
    case ResStatusCode => if IsNum(ch) then Undecided else Only(BreakByte(ch) || ch == SP, INVALID_STATUS)
    case ResStatusStart => Accept
    case ResStatus => Accept
    case ResLineAlmostDone => Only(ch == LF, STRICT)
    case _ => Undecided
  }

  function OfVersion(s: State, ch: byte): Ruling {
    match s
    case ReqHttpStart => Only(ch == 'H' as int || ch == SP, INVALID_CONSTANT)
    case ReqHttpH => Only(ch == 'T' as int, STRICT)
    case ReqHttpHT => Only(ch == 'T' as int, STRICT)
    case ReqHttpHTT => Only(ch == 'P' as int, STRICT)
    case ReqHttpHTTP => Only(ch == '/' as int, STRICT)
    case ReqHttpMajor => Only(IsNum(ch), INVALID_VERSION)
    case ReqHttpDot => Only(ch == '.' as int, INVALID_VERSION)
    case ReqHttpMinor => Only(IsNum(ch), INVALID_VERSION)
    case ReqHttpEnd => Only(BreakByte(ch), INVALID_VERSION)
    case ReqLineAlmostDone => Only(ch == LF, LF_EXPECTED)
    case _ => Undecided
  }

  /** What a header line or the line of a chunk makes of a byte. */
  function OfLine(s: State, ch: byte): Ruling {
    match s
    case HeaderFieldStart => if ch == LF then Undecided else Only(ch == CR || TokenByte(ch), INVALID_HEADER_TOKEN)
    case HeaderField => Only(TokenByte(ch) || ch == ':' as int, INVALID_HEADER_TOKEN)
    case HeaderValueDiscardWsAlmostDone => Only(ch == LF, STRICT)
    case HeaderAlmostDone => Only(ch == LF, LF_EXPECTED)
    case HeadersAlmostDone => if ch == LF then Undecided else Refuse(STRICT)
    case ChunkSizeStart => Only(SizeByte(ch), INVALID_CHUNK_SIZE)
    case ChunkSize => if SizeByte(ch) then Undecided else Only(ch == CR || ch == ';' as int || ch == SP, INVALID_CHUNK_SIZE)
    case ChunkParameters => Accept
    case ChunkSizeAlmostDone => Only(ch == LF, STRICT)
    case ChunkDataAlmostDone => Only(ch == CR, STRICT)
    case ChunkDataDone => Only(ch == LF, STRICT)
    case _ => Undecided
  }

  function RulingOn(s: State, ch: byte): Ruling {
    if OfStart(s, ch) != Undecided then OfStart(s, ch) else if OfVersion(s, ch) != Undecided then OfVersion(s, ch) else OfLine(s, ch)
  }

  /** The micro step obeys the ruling. */
  predicate Obeys(m: Micro, r: Ruling) {
    match r
    case Accept => m.fin.Next?
    case Refuse(e) => m.fin == Fail(e)
    case Undecided => true
  }

  lemma MethodLetters(ch: byte)
    ensures FirstMethod(ch).Some? <==> BeginsMethod(ch)
  {
  }

  lemma StartRuled(p: Parser, ch: byte, hc: Settings)
    ensures Obeys(Switch(p, false, ch, hc), OfStart(p.state, ch))
  {
    if p.state == StartReq || p.state == StartReqOrRes {
      MethodLetters(ch);
      hide FirstMethod;
    }
  }

  lemma VersionRuled(p: Parser, ch: byte, hc: Settings)
    ensures Obeys(Switch(p, false, ch, hc), OfVersion(p.state, ch))
  {
  }

  lemma LineRuled(p: Parser, ch: byte, hc: Settings)
    ensures Obeys(Switch(p, false, ch, hc), OfLine(p.state, ch))
  {
    BytesExact(ch, 0);
    hide Token, Separator;
  }

  lemma MethodRefused(p: Parser, ch: byte, hc: Settings)
    requires p.state == ReqMethod && Switch(p, false, ch, hc).fin.Fail?
    ensures Switch(p, false, ch, hc).fin == Fail(INVALID_METHOD)
  {
    hide MethodString, Rename;
  }

  /** In the states of a start line, a header name, a line end and the line of a chunk, a byte is
      refused exactly if the ruling says so, and with that error. */
  lemma RulingExact(p: Parser, ch: byte, hc: Settings)
    requires Valid(p)
    ensures
      var r := Run(p, [ch], hc, false);
      && (RulingOn(p.state, ch).Refuse? ==> r == Failed(RulingOn(p.state, ch).errno, 0))
      && (RulingOn(p.state, ch).Accept? ==> r.Running?)
      && (p.state == ReqMethod && r.Failed? ==> r == Failed(INVALID_METHOD, 0))
  {
    hide Valid, Switch, ByteEvents, OfStart, OfVersion, OfLine;
    StartRuled(p, ch, hc);
    VersionRuled(p, ch, hc);
    LineRuled(p, ch, hc);
    if p.state == ReqMethod && Switch(p, false, ch, hc).fin.Fail? {
      MethodRefused(p, ch, hc);
    }
    EmptyRun(p, hc);
    RunOne(p, [ch], 0, hc, false);
    assert [ch][..0] == [] && [ch][..1] == [ch];
  }
}
