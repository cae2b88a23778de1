/** The invariant that every reachable record of the parser keeps, and the discipline of its
    marks: what the source's assertions about both rest on. */
module HttpInvariant {
  import opened Common
  import opened HttpTypes
  import opened HttpSwitch

  // ----- reachable records -----

  /** On which side of the colon a header state occurs. */
  datatype Side = OfName | OfValue | OfBoth

  function SideOf(h: HeaderState): Side {
    match h
    case General => OfBoth
    case C => OfName case CO => OfName case CON => OfName
    case MatchingConnection => OfName case MatchingProxyConnection => OfName
    case MatchingContentLength => OfName case MatchingTransferEncoding => OfName case MatchingUpgrade => OfName
    case Connection => OfName case ContentLength => OfName case TransferEncoding => OfName case Upgrade => OfName
    case _ => OfValue
  }

  predicate FieldState(h: HeaderState) {
    SideOf(h) != OfValue
  }

  predicate ValueState(h: HeaderState) {
    SideOf(h) != OfName
  }

  /** The least index, and the first index too great, while a keyword is being matched:
      the index stays before the last letter. */
  function IndexRange(h: HeaderState): (nat, nat) {
    match h
    case C => (0, 1) case CO => (1, 2) case CON => (2, 3)
    case MatchingConnection => (0, 9)
    case MatchingProxyConnection => (0, 15)
    case MatchingContentLength => (0, 13)
    case MatchingTransferEncoding => (0, 16)
    case MatchingUpgrade => (0, 6)
    case MatchingTransferEncodingChunked => (0, 6)
    case MatchingConnectionKeepAlive => (0, 9)
    case MatchingConnectionClose => (0, 4)
    case MatchingConnectionUpgrade => (0, 6)
    case MatchingConnectionTokenStart => (0, 1)
    case _ => (0, 20)
  }

  predicate Matching(h: HeaderState, index: nat) {
    IndexRange(h).0 <= index < IndexRange(h).1
  }

  /** What the source asserts about the record in a state, and what that needs. */
  datatype Demand = Nothing | Never | InName | AfterName | InValue | AfterValue | InMethod
                  | InBody | ChunkLine | SizeRead | InChunk | ChunkRead

  function DemandOf(s: State): Demand {
    match s
    case HeaderField => InName
    case HeaderValueDiscardWs => AfterName
    case HeaderValueDiscardWsAlmostDone => AfterName
    case HeaderValueDiscardLws => AfterName
    case HeaderValue => InValue
    case HeaderAlmostDone => AfterValue
    case HeaderValueLws => AfterValue
    case ReqMethod => InMethod
    case BodyIdentity => InBody
    case ChunkSizeStart => ChunkLine
    case ChunkDataDone => ChunkLine
    case ChunkSize => SizeRead
    case ChunkParameters => SizeRead
    case ChunkSizeAlmostDone => SizeRead
    case ChunkData => InChunk
    case ChunkDataAlmostDone => ChunkRead
    case HeadersDone => Never
    case MessageDone => Never
    case HeaderValueStart => Never
    case _ => Nothing
  }

  /** The record is fit to be in state s. */
  predicate Fits(p: Parser, s: State) {
    match DemandOf(s)
    case Nothing => true
    case Never => false
    case InName => FieldState(p.headerState) && Matching(p.headerState, p.index)
    case AfterName => FieldState(p.headerState)
    case InValue => ValueState(p.headerState) && Matching(p.headerState, p.index)
    case AfterValue => ValueState(p.headerState)
    case InMethod => p.index <= |MethodString(p.verb)|
    case InBody => 0 < p.contentLength < ULLONG_MAX
    case ChunkLine => p.flags.chunked
    case SizeRead => p.flags.chunked && p.contentLength < ULLONG_MAX
    case InChunk => p.flags.chunked && 0 < p.contentLength < ULLONG_MAX
    case ChunkRead => p.flags.chunked && p.contentLength == 0
  }

  /** The widths of the record's bit fields and integers are never exceeded. */
  predicate Bounded(p: Parser) {
    p.contentLength <= ULLONG_MAX && p.statusCode <= 999 && p.index < 20
  }

  predicate Valid(p: Parser) {
    Bounded(p) && Fits(p, p.state)
  }

  // ----- the shape of what a state handler does -----

  /** The kind of data a record is in the middle of, known from its state alone. A body is
      not: its mark is only set by the byte that follows. */
  function OpenKind(s: State): Option<Kind> {
    match s
    case HeaderField => Some(Field)
    case HeaderValue => Some(Value)
    case ReqPath => Some(Url) case ReqSchema => Some(Url) case ReqSchemaSlash => Some(Url)
    case ReqSchemaSlashSlash => Some(Url) case ReqServerStart => Some(Url) case ReqServer => Some(Url)
    case ReqServerWithAt => Some(Url) case ReqQueryStringStart => Some(Url) case ReqQueryString => Some(Url)
    case ReqFragmentStart => Some(Url) case ReqFragment => Some(Url)
    case ResStatus => Some(Status)
    case _ => None
  }

  /** Does a body mark set earlier in the call still stand in this state? */
  predicate BodyOpen(s: State) {
    match s
    case ChunkData => true case ChunkDataAlmostDone => true
    case BodyIdentity => true case BodyIdentityEof => true
    case _ => false
  }

  /** Where the marks stand between two operations of one byte: none set, one set, or a
      body mark left from earlier bytes of the call that this byte has not joined. */
  datatype Mode = Closed | Open(kind: Kind) | Carried

  /** The mode the operations lead to, or None if they would set two marks, notify with
      data pending, or lose a byte of a body. */
  function RunModes(mode: Mode, ops: seq<Op>): Option<Mode>
    decreases |ops|
  {
    if |ops| == 0 then Some(mode)
    else
      match ops[0]
      case Mark(k) =>
        (match mode
         case Closed => RunModes(Open(k), ops[1..])
         case Open(k') => if k == k' then RunModes(mode, ops[1..]) else None
         case Carried => if k == Body then RunModes(Open(Body), ops[1..]) else None)
      case Flush(k, inclusive) =>
        (match mode
         case Closed => if inclusive then None else RunModes(Closed, ops[1..])
         case Open(k') => if k == k' then RunModes(Closed, ops[1..]) else None
         case Carried => if k == Body && !inclusive then RunModes(Closed, ops[1..]) else None)
      case Fire(e) => if mode == Closed then RunModes(Closed, ops[1..]) else None
  }

  function EntryMode(s: State): Mode {
    match OpenKind(s)
    case Some(k) => Open(k)
    case None => Closed
  }

  /** The mode a byte must end in. Only a byte of a body leaves a body mark set. */
  predicate ExitMode(mode: Mode, s: State) {
    match mode
    case Closed => OpenKind(s) == None
    case Open(k) => if k == Body then BodyOpen(s) else OpenKind(s) == Some(k)
    case Carried => false
  }

  /** What may be wrong with the effect of one byte. */
  datatype Effect = Sound | WrongErrno | WrongRecord | WrongMarks

  /** What every state handler keeps: the record stays valid and the marks well ordered,
      and a parser that waits for the size of a chunk has just reset nread. */
  function EffectOf(m: Micro, entry: Mode): Effect {
    if m.fin.Fail? then
      if m.fin.errno != OK && m.fin.errno != HEADER_OVERFLOW then Sound else WrongErrno
    else if !Valid(m.p) || (m.p.state == ChunkSizeStart && !m.clear) then WrongRecord
    else
      match RunModes(entry, m.ops)
      case None => WrongMarks
      case Some(mode) =>
        if ExitMode(mode, m.p.state) && (m.fin.Exit? ==> mode == Closed) then Sound else WrongMarks
  }

  /** A state with no conditions on the record and no data in progress. */
  predicate Plain(s: State) {
    match s
    case ResHttpDot => true case ResHttpMinor => true case ResHttpEnd => true
    case ReqHttpDot => true case ReqHttpMinor => true case ReqHttpEnd => true
    case _ => false
  }

  /** A partition of the states, to take the switch in four parts. */
  function Part(s: State): nat {
    match s
    case StartReqOrRes => 0 case ResOrRespH => 0 case StartRes => 0 case ResH => 0 case ResHT => 0
    case ResHTT => 0 case ResHTTP => 0 case ResHttpMajor => 0 case ResHttpDot => 0 case ResHttpMinor => 0
    case ResHttpEnd => 0 case ResFirstStatusCode => 0 case ResStatusCode => 0 case ResStatusStart => 0
    case ResStatus => 0 case ResLineAlmostDone => 0 case StartReq => 0 case Dead => 0
    case HeaderFieldStart => 2 case HeaderField => 2 case HeaderValueDiscardWs => 2
    case HeaderValueDiscardWsAlmostDone => 2 case HeaderValueDiscardLws => 2 case HeaderValueStart => 2
    case HeaderValue => 2 case HeaderValueLws => 2 case HeaderAlmostDone => 2 case HeadersAlmostDone => 2
    case HeadersDone => 2
    case ChunkSizeStart => 3 case ChunkSize => 3 case ChunkParameters => 3 case ChunkSizeAlmostDone => 3
    case ChunkData => 3 case ChunkDataAlmostDone => 3 case ChunkDataDone => 3
    case BodyIdentity => 3 case BodyIdentityEof => 3 case MessageDone => 3
    case _ => 1
  }
}
