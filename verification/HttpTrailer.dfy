/** A whole chunked body with its trailer: what is delivered, however the input is cut. */
module HttpTrailer {
  import opened Common
  import opened HttpTypes
  import opened HttpSwitch
  import opened HttpInvariant
  import opened HttpSpec
  import opened HttpFragment
  import opened HttpBody

  // ----- header fields hand over no body and complete no message -----

  /** The states between the start of a header field and the end of the headers. */
  predicate InHeader(s: State) {
    match s
    case HeaderFieldStart => true case HeaderField => true
    case HeaderValueDiscardWs => true case HeaderValueDiscardWsAlmostDone => true case HeaderValueDiscardLws => true
    case HeaderValue => true case HeaderValueLws => true case HeaderAlmostDone => true
    case _ => false
  }

  predicate QuietOp(op: Op) {
    (op.Mark? || op.Flush?) && op.kind != Body
  }

  predicate QuietOps(ops: seq<Op>) {
    forall i :: 0 <= i < |ops| ==> QuietOp(ops[i])
  }

  predicate StaysIn(q: Parser, m: Micro) {
    m.fin.Next? && (InHeader(m.p.state) || m.p.state == HeadersAlmostDone)
  }

  lemma FieldStartQuiet(p: Parser, ch: byte, hc: Settings)
    requires StaysIn(p, OnHeaderFieldStart(p, ch, hc))
    ensures
      var m := OnHeaderFieldStart(p, ch, hc);
      QuietOps(m.ops) && m.p.flags == p.flags
  {
  }

  lemma ValueStartQuiet(p: Parser, ch: byte)
    ensures
      var m := OnHeaderValueStart(p, ch);
      QuietOps(m.ops) && m.p.flags.trailing == p.flags.trailing
  {
  }

  lemma FieldCharFlags(p: Parser, ch: byte, c: int)
    ensures FieldChar(p, ch, c).flags == p.flags
  {
  }

  lemma MatchValueFlags(p: Parser, c: int, word: string, complete: HeaderState, other: HeaderState)
    ensures MatchValue(p, c, word, complete, other).flags == p.flags
  {
  }

  lemma LengthDigitFlags(p: Parser, ch: byte)
    ensures LengthDigit(p, ch).0.flags == p.flags
  {
  }

  lemma ValueCharFlags(p: Parser, ch: byte)
    ensures ValueChar(p, ch).0.flags.trailing == p.flags.trailing
  {
    hide Lower, LowerIsToken, LengthDigit, MatchValue;
    var c := Lower(ch);
    match p.headerState
    case ContentLength => LengthDigitFlags(p.(headerState := ContentLengthNum), ch);
    case ContentLengthNum => LengthDigitFlags(p, ch);
    case MatchingTransferEncodingChunked => MatchValueFlags(p, c, "chunked", TransferEncodingChunked, General);
    case MatchingConnectionKeepAlive => MatchValueFlags(p, c, "keep-alive", ConnectionKeepAlive, MatchingConnectionToken);
    case MatchingConnectionClose => MatchValueFlags(p, c, "close", ConnectionClose, MatchingConnectionToken);
    case MatchingConnectionUpgrade => MatchValueFlags(p, c, "upgrade", ConnectionUpgrade, MatchingConnectionToken);
    case _ =>
  }

  lemma HeaderQuiet(q: Parser, ch: byte, hc: Settings)
    requires InHeader(q.state) && StaysIn(q, Switch(q, false, ch, hc))
    ensures
      var m := Switch(q, false, ch, hc);
      QuietOps(m.ops) && m.p.flags.trailing == q.flags.trailing
  {
    hide OnHeaderFieldStart, OnHeaderValueStart, FieldChar, ValueChar, Token, IsHeaderChar;
    match q.state
    case HeaderFieldStart => FieldStartQuiet(q, ch, hc);
    case HeaderField => FieldCharFlags(q, ch, Token(ch));
    case HeaderValueDiscardWs => ValueStartQuiet(q, ch);
    case HeaderValueDiscardLws =>
      if ch != SP && ch != TAB {
        FieldStartQuiet(SetHeaderFlag(q).(state := HeaderFieldStart), ch, hc);
      }
    case HeaderValue => ValueCharFlags(q, ch);
    case HeaderValueLws =>
      if ch == SP || ch == TAB {
        ValueStartQuiet(q.(state := HeaderValueStart), ch);
      } else {
        FieldStartQuiet(SetHeaderFlag(q).(state := HeaderFieldStart), ch, hc);
      }
    case _ =>
  }

  lemma {:induction false} QuietEvents(open: Option<Kind>, ops: seq<Op>, ch: byte)
    requires QuietOps(ops) && open != Some(Body)
    ensures BodyOf(ByteEvents(open, ops, ch)) == [] && Completed(ByteEvents(open, ops, ch)) == 0
    decreases |ops|
  {
    var none: seq<Event> := [];
    assert BodyOf(none) == [] && Completed(none) == 0;
    if |ops| == 0 {
      if open.Some? {
        SeenOne(none, Data(open.value, [ch]));
        assert none + [Data(open.value, [ch])] == [Data(open.value, [ch])];
      }
    } else {
      assert QuietOp(ops[0]);
      match ops[0]
      case Mark(k) => QuietEvents(if open.Some? then open else Some(k), ops[1..], ch);
      case Flush(k, inclusive) =>
        if open == Some(k) {
          QuietEvents(None, ops[1..], ch);
          var e := Data(k, if inclusive then [ch] else []);
          SeenOne(none, e);
          assert none + [e] == [e];
          SeenConcat([e], ByteEvents(None, ops[1..], ch));
        } else {
          QuietEvents(open, ops[1..], ch);
        }
    }
  }

  // ----- trailers -----

  /** The bytes t are header fields, of a head or a trailer, and the first byte of the empty
      line after them: from p they lead to r with the callbacks es, without leaving the headers. */
  ghost predicate Fields(p: Parser, t: seq<byte>, hc: Settings, r: Parser, es: seq<Event>) {
    && Reads(p, t, hc, r, es) && r.state == HeadersAlmostDone
    && forall i {:trigger Run(p, t[..i], hc, false)} :: 0 <= i < |t| ==>
         Run(p, t[..i], hc, false).Running? && InHeader(Run(p, t[..i], hc, false).p.state)
  }

  lemma {:induction false} PrefixQuiet(p: Parser, t: seq<byte>, hc: Settings, i: nat)
    requires Valid(p) && i <= |t| && Run(p, t[..i], hc, false).Running?
    requires Run(p, t[..i], hc, false).p.state == HeadersAlmostDone || InHeader(Run(p, t[..i], hc, false).p.state)
    requires forall k {:trigger Run(p, t[..k], hc, false)} :: 0 <= k < i ==>
               Run(p, t[..k], hc, false).Running? && InHeader(Run(p, t[..k], hc, false).p.state)
    ensures
      var o := Run(p, t[..i], hc, false);
      o.p.flags.trailing == p.flags.trailing && BodyOf(o.events) == [] && Completed(o.events) == 0
    decreases i
  {
    hide Valid, Switch, ByteEvents, BodyOf, Completed, QuietOps;
    if i == 0 {
      EmptyRun(p, hc);
      assert t[..0] == [];
      NothingSeen();
    } else {
      var before := Run(p, t[..i - 1], hc, false);
      PrefixQuiet(p, t, hc, i - 1);
      StrictNeverSkips(p, t[..i - 1], hc);
      RunOne(p, t, i - 1, hc, false);
      HeaderQuiet(before.p, t[i - 1], hc);
      var ops := Switch(before.p, false, t[i - 1], hc).ops;
      QuietEvents(OpenKind(before.p.state), ops, t[i - 1]);
      SeenConcat(before.events, ByteEvents(OpenKind(before.p.state), ops, t[i - 1]));
    }
  }

  lemma NothingSeen()
    ensures BodyOf([]) == [] && Completed([]) == 0
  {
  }

  lemma TrailerQuiet(p: Parser, t: seq<byte>, hc: Settings, r: Parser, es: seq<Event>)
    requires Fields(p, t, hc, r, es)
    ensures r.flags.trailing == p.flags.trailing && BodyOf(es) == [] && Completed(es) == 0
  {
    hide Valid, Switch, Run, Join, BodyOf, Completed;
    assert t[..|t|] == t;
    PrefixQuiet(p, t, hc, |t|);
    SeenJoined(Run(p, t, hc, false).events);
    SeenJoined(es);
  }

  // ----- a chunked body -----

  function ChunkedBody(cs: seq<Chunk>, size: seq<byte>, extension: seq<byte>, t: seq<byte>): seq<byte> {
    EncodeAll(cs) + (size + extension + [CR, LF]) + t + [LF]
  }

  /** After the line of the last chunk. */
  function AfterLast(p: Parser): Parser {
    Announced(p, 0)
  }

  function ChunkedEvents(cs: seq<Chunk>, es: seq<Event>): seq<Event> {
    AllEvents(cs) + [ChunkHeader(0)] + es + [ChunkComplete]
  }

  lemma ChunkedBodyRead(p: Parser, cs: seq<Chunk>, size: seq<byte>, extension: seq<byte>, t: seq<byte>,
                        r: Parser, es: seq<Event>, hc: Settings)
    requires Valid(p) && p.state == ChunkSizeStart && forall i :: 0 <= i < |cs| ==> WellFormed(cs[i])
    requires SizeLine(size, extension, 0) && Fields(AfterLast(p), t, hc, r, es)
    ensures
      var w := ChunkedBody(cs, size, extension, t);
      Completes(Run(p, w, hc, false), r, ChunkedEvents(cs, es), |w|)
  {
    hide Valid, Run, Reads, SizeLine, EncodeAll, AllEvents, Completes;
    var p1 := if cs == [] then p else p.(contentLength := 0);
    Chunks(p, cs, hc);
    ReadsKeeps(p, EncodeAll(cs), hc, p1, AllEvents(cs));
    var line := size + extension + [CR, LF];
    Line(p1, size, extension, 0, hc);
    Then(p, EncodeAll(cs), p1, AllEvents(cs), line, AfterLast(p), [ChunkHeader(0)], hc);
    Then(p, EncodeAll(cs) + line, AfterLast(p), AllEvents(cs) + [ChunkHeader(0)], t, r, es, hc);
    TrailerQuiet(AfterLast(p), t, hc, r, es);
    TrailerEnds(p, EncodeAll(cs) + line + t, AllEvents(cs) + [ChunkHeader(0)] + es, r, hc);
  }

  lemma SeenChunked(cs: seq<Chunk>, es: seq<Event>)
    requires BodyOf(es) == [] && Completed(es) == 0
    ensures BodyOf(ChunkedEvents(cs, es)) == AllData(cs) && Completed(ChunkedEvents(cs, es)) == 0
  {
    hide BodyOf, Completed;
    SeenChunks(cs);
    SeenOne(AllEvents(cs), ChunkHeader(0));
    SeenConcat(AllEvents(cs) + [ChunkHeader(0)], es);
    SeenOne(AllEvents(cs) + [ChunkHeader(0)] + es, ChunkComplete);
    assert AllData(cs) + [] == AllData(cs);
  }

  /** Any list of chunks and any trailer, however the encoding is cut into calls, is
      delivered as exactly the data of the chunks and one completed message. */
  lemma ChunkedDelivery(p: Parser, cs: seq<Chunk>, size: seq<byte>, extension: seq<byte>, t: seq<byte>,
                        r: Parser, es: seq<Event>, hc: Settings, fs: seq<seq<byte>>)
    requires Valid(p) && p.state == ChunkSizeStart && forall i :: 0 <= i < |cs| ==> WellFormed(cs[i])
    requires SizeLine(size, extension, 0) && Fields(AfterLast(p), t, hc, r, es)
    requires Concat(fs) == ChunkedBody(cs, size, extension, t)
    ensures
      var o := Feed(p, fs, hc);
      && !o.Failed? && (o.Upgraded? <==> r.upgrade) && o.p == r.(state := NewMessage(r))
      && Join(o.events) == Join(ChunkedEvents(cs, es) + [MessageComplete])
      && BodyOf(o.events) == AllData(cs) && Completed(o.events) == 1
  {
    hide Valid, Join, Run, SizeLine, NewMessage, ChunkedBody, BodyOf, Completed, Completes, Feed, ChunkedEvents;
    ChunkedBodyRead(p, cs, size, extension, t, r, es, hc);
    Delivered(p, ChunkedBody(cs, size, extension, t), r, ChunkedEvents(cs, es), hc, fs);
    TrailerQuiet(AfterLast(p), t, hc, r, es);
    SeenChunked(cs, es);
  }
}
