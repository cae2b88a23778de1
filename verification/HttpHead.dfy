/** Whole heads: what any header fields do to the record, and a field found anywhere in a head. */
module HttpHead {
  import opened Common
  import opened HttpTypes
  import opened HttpSwitch
  import opened HttpInvariant
  import opened HttpSpec
  import opened HttpFragment
  import opened HttpBody
  import opened HttpTrailer
  import opened HttpHeaders

  // ----- header fields only add flags -----

  /** The flags g with those of f: set once, set for good. Two of them no header touches. */
  function Over(f: Flags, g: Flags): Flags {
    Flags(f.chunked || g.chunked, f.keepAlive || g.keepAlive, f.close || g.close, f.connectionUpgrade || g.connectionUpgrade,
          f.trailing, f.upgrade || g.upgrade, f.skipBody, f.contentLength || g.contentLength)
  }

  predicate FlagsRise(f: Flags, g: Flags) {
    Over(f, g) == g
  }

  /** All that header fields change. */
  predicate Rises(p: Parser, q: Parser) {
    FlagsRise(p.flags, q.flags)
    && q == p.(flags := q.flags, state := q.state, headerState := q.headerState, index := q.index, contentLength := q.contentLength)
  }

  /** A length has been read to its end: no header can change it any more. */
  predicate Fixed(p: Parser) {
    p.flags.contentLength && !(p.state == HeaderValue && p.headerState == ContentLengthNum)
  }

  /** One step: Rises, and a fixed length stays. */
  predicate Moves(p: Parser, q: Parser) {
    Rises(p, q) && (Fixed(p) ==> Fixed(q) && q.contentLength == p.contentLength)
  }

  lemma HeadersEndLeaves(p: Parser, ch: byte, hc: Settings)
    ensures !StaysIn(p, OnHeadersAlmostDone(p, ch, hc))
  {
  }

  lemma FieldStartMoves(p: Parser, ch: byte, hc: Settings)
    requires StaysIn(p, OnHeaderFieldStart(p, ch, hc))
    ensures
      var q := OnHeaderFieldStart(p, ch, hc).p;
      Rises(p, q) && q.contentLength == p.contentLength && q.state != HeaderValue
  {
    hide OnHeadersAlmostDone, Token;
    HeadersEndLeaves(p.(state := HeadersAlmostDone), ch, hc);
  }

  lemma ValueStartMoves(p: Parser, ch: byte)
    requires OnHeaderValueStart(p, ch).fin.Next?
    ensures
      var q := OnHeaderValueStart(p, ch).p;
      Rises(p, q) && (p.flags.contentLength ==> q.contentLength == p.contentLength && q.headerState != ContentLengthNum)
  {
    hide BeginValue, FlagsRise;
    BeginValueMoves(p.(state := HeaderValue, index := 0), ch);
  }

  lemma BeginValueMoves(p: Parser, ch: byte)
    requires BeginValue(p, ch).fin.Next?
    ensures
      var q := BeginValue(p, ch).p;
      && FlagsRise(p.flags, q.flags) && q == p.(flags := q.flags, headerState := q.headerState, contentLength := q.contentLength)
      && (p.flags.contentLength ==> q.contentLength == p.contentLength && q.headerState != ContentLengthNum)
  {
    hide Lower, FlagsRise, Over;
    OverSelf(p.flags);
    OverOne(p.flags);
  }

  lemma OverSelf(f: Flags)
    ensures FlagsRise(f, f)
  {
  }

  lemma OverOne(f: Flags)
    ensures FlagsRise(f, f.(upgrade := true)) && FlagsRise(f, f.(contentLength := true)) && FlagsRise(f, f.(chunked := true))
    ensures FlagsRise(f, f.(keepAlive := true)) && FlagsRise(f, f.(close := true)) && FlagsRise(f, f.(connectionUpgrade := true))
  {
  }

  lemma SetFlagMoves(p: Parser)
    ensures Rises(p, SetHeaderFlag(p)) && SetHeaderFlag(p).contentLength == p.contentLength
  {
    hide FlagsRise;
    SetFlagRises(p);
    assert SetHeaderFlag(p) == p.(flags := SetHeaderFlag(p).flags);
    hide SetHeaderFlag;
  }

  lemma SetFlagRises(p: Parser)
    ensures FlagsRise(p.flags, SetHeaderFlag(p).flags)
  {
    hide FlagsRise;
    OverSelf(p.flags);
    OverOne(p.flags);
  }

  lemma FieldCharMoves(p: Parser, ch: byte, c: int)
    ensures
      var q := FieldChar(p, ch, c);
      Rises(p, q) && q.contentLength == p.contentLength && q.state == p.state
  {
    FieldCharKeeps(p, ch, c);
    hide FieldChar;
  }

  lemma MatchValueMoves(p: Parser, c: int, word: string, complete: HeaderState, other: HeaderState)
    requires complete != ContentLengthNum && other != ContentLengthNum && p.headerState != ContentLengthNum
    ensures
      var q := MatchValue(p, c, word, complete, other);
      q == p.(headerState := q.headerState, index := q.index) && q.headerState != ContentLengthNum
  {
  }

  lemma ValueCharMoves(p: Parser, ch: byte)
    requires ValueState(p.headerState)
    ensures
      var q := ValueChar(p, ch).0;
      && Rises(p, q) && q.state == p.state
      && (p.headerState != ContentLengthNum ==> q.contentLength == p.contentLength && q.headerState != ContentLengthNum)
  {
    hide Lower, LowerIsToken, MatchValue;
    var c := Lower(ch);
    match p.headerState
    case MatchingTransferEncodingChunked => MatchValueMoves(p, c, "chunked", TransferEncodingChunked, General);
    case MatchingConnectionKeepAlive => MatchValueMoves(p, c, "keep-alive", ConnectionKeepAlive, MatchingConnectionToken);
    case MatchingConnectionClose => MatchValueMoves(p, c, "close", ConnectionClose, MatchingConnectionToken);
    case MatchingConnectionUpgrade => MatchValueMoves(p, c, "upgrade", ConnectionUpgrade, MatchingConnectionToken);
    case _ =>
  }

  lemma HeaderMoves(q: Parser, ch: byte, hc: Settings)
    requires Valid(q) && InHeader(q.state) && StaysIn(q, Switch(q, false, ch, hc))
    ensures Moves(q, Switch(q, false, ch, hc).p)
  {
    hide OnHeaderFieldStart, OnHeaderValueStart, FieldChar, ValueChar, Token, IsHeaderChar, SetHeaderFlag;
    match q.state
    case HeaderFieldStart => FieldStartMoves(q, ch, hc);
    case HeaderField => FieldCharMoves(q, ch, Token(ch));
    case HeaderValueDiscardWs => if ch != SP && ch != TAB && ch != CR && ch != LF { ValueStartMoves(q, ch); }
    case HeaderValueDiscardLws =>
      if ch != SP && ch != TAB {
        SetFlagMoves(q);
        FieldStartMoves(SetHeaderFlag(q).(state := HeaderFieldStart), ch, hc);
      }
    case HeaderValue => ValueCharMoves(q, ch);
    case HeaderValueLws =>
      if ch == SP || ch == TAB {
        ValueStartMoves(q.(state := HeaderValueStart), ch);
      } else {
        SetFlagMoves(q);
        FieldStartMoves(SetHeaderFlag(q).(state := HeaderFieldStart), ch, hc);
      }
    case _ =>
  }

  // ----- from one byte of a head to a later one -----

  lemma MovesOn(p: Parser, q: Parser, r: Parser)
    requires Moves(p, q) && Moves(q, r)
    ensures Moves(p, r)
  {
  }

  lemma ReadsRun(p: Parser, w: seq<byte>, hc: Settings, q: Parser, es: seq<Event>)
    requires Reads(p, w, hc, q, es)
    ensures Valid(p) && Run(p, w, hc, false).Running? && Run(p, w, hc, false).p == q
  {
    hide Valid, Switch, Join, Run;
  }

  lemma PrefixRuns(p: Parser, w: seq<byte>, hc: Settings, i: nat)
    requires Valid(p) && i <= |w| && Run(p, w, hc, false).Running?
    ensures Run(p, w[..i], hc, false).Running?
  {
    hide Valid, Switch, Run;
    if !Run(p, w[..i], hc, false).Running? {
      RunEnded(p, w, i, hc, false);
    }
  }

  /** Within a head, flags are only added, and a fixed length stays. */
  lemma {:induction false} PrefixMoves(p: Parser, w: seq<byte>, hc: Settings, r: Parser, es: seq<Event>, i: nat, j: nat)
    requires Fields(p, w, hc, r, es) && i <= j <= |w|
    ensures Valid(p) && Run(p, w[..i], hc, false).Running? && Run(p, w[..j], hc, false).Running?
    ensures Moves(Run(p, w[..i], hc, false).p, Run(p, w[..j], hc, false).p)
    decreases j
  {
    hide Valid, Switch, Run, Reads, Moves;
    ReadsRun(p, w, hc, r, es);
    assert w[..|w|] == w;
    PrefixRuns(p, w, hc, i);
    PrefixRuns(p, w, hc, j);
    if i == j {
      MovesSelf(Run(p, w[..i], hc, false).p);
    } else {
      PrefixMoves(p, w, hc, r, es, i, j - 1);
      var a, b := Run(p, w[..j - 1], hc, false), Run(p, w[..j], hc, false);
      StrictNeverSkips(p, w[..j - 1], hc);
      RunOne(p, w, j - 1, hc, false);
      InHeadAt(p, w, hc, r, es, j);
      HeaderMoves(a.p, w[j - 1], hc);
      MovesOn(Run(p, w[..i], hc, false).p, a.p, b.p);
    }
  }

  lemma InHeadAt(p: Parser, w: seq<byte>, hc: Settings, r: Parser, es: seq<Event>, j: nat)
    requires Fields(p, w, hc, r, es) && 0 < j <= |w|
    ensures Valid(p) && Run(p, w[..j - 1], hc, false).Running? && Run(p, w[..j], hc, false).Running?
    ensures Valid(Run(p, w[..j - 1], hc, false).p) && InHeader(Run(p, w[..j - 1], hc, false).p.state)
    ensures InHeader(Run(p, w[..j], hc, false).p.state) || Run(p, w[..j], hc, false).p.state == HeadersAlmostDone
  {
    hide Switch, Run, Reads, Valid;
    ReadsRun(p, w, hc, r, es);
    assert w[..|w|] == w;
  }

  lemma MovesSelf(p: Parser)
    ensures Moves(p, p)
  {
    hide FlagsRise;
    OverSelf(p.flags);
  }

  // ----- where a field begins -----

  predicate FieldStart(s: State) {
    s == HeaderFieldStart || s == HeaderValueLws || s == HeaderValueDiscardLws
  }

  /** The record as the next field finds it. */
  function Settled(p: Parser): Parser {
    if p.state == HeaderFieldStart then p else SetHeaderFlag(p).(state := HeaderFieldStart)
  }

  lemma SettledValid(p: Parser)
    requires Valid(p) && FieldStart(p.state)
    ensures Valid(Settled(p)) && Settled(p).state == HeaderFieldStart
  {
    SetFlagMoves(p);
    SetFlagKeeps(p);
    hide SetHeaderFlag, FlagsRise;
  }

  lemma SetFlagKeeps(p: Parser)
    ensures SetHeaderFlag(p) == p.(flags := SetHeaderFlag(p).flags)
  {
  }

  lemma FieldStartSwitch(p: Parser, ch: byte, hc: Settings)
    requires p.state == HeaderFieldStart
    ensures Switch(p, false, ch, hc) == OnHeaderFieldStart(p, ch, hc)
  {
    hide OnHeaderFieldStart;
  }

  lemma LineOverSwitch(p: Parser, ch: byte, hc: Settings)
    requires p.state == HeaderValueLws || p.state == HeaderValueDiscardLws
    ensures p.state == HeaderValueLws ==> Switch(p, false, ch, hc) == OnHeaderValueLws(p, ch, hc)
    ensures p.state == HeaderValueDiscardLws ==> Switch(p, false, ch, hc) == OnHeaderValueDiscardLws(p, ch, hc)
  {
    hide OnHeaderValueLws, OnHeaderValueDiscardLws;
  }

  lemma SettledSwitch(p: Parser, ch: byte, hc: Settings)
    requires FieldStart(p.state) && ch != SP && ch != TAB
    ensures
      var a, b := Switch(p, false, ch, hc), Switch(Settled(p), false, ch, hc);
      a.p == b.p && a.fin == b.fin
  {
    hide Switch, OnHeaderFieldStart, SetHeaderFlag;
    SetFlagKeeps(p);
    FieldStartSwitch(Settled(p), ch, hc);
    if p.state != HeaderFieldStart {
      LineOverSwitch(p, ch, hc);
    }
  }

  lemma OneByte(p: Parser, ch: byte, hc: Settings)
    requires Valid(p)
    ensures
      var m, r := Switch(p, false, ch, hc), Run(p, [ch], hc, false);
      (r.Running? <==> m.fin.Next?) && (r.Running? ==> r.p == m.p)
  {
    hide Valid, Switch, ByteEvents, Run;
    EmptyRun(p, hc);
    RunOne(p, [ch], 0, hc, false);
    assert [ch][..0] == [] && [ch][..1] == [ch];
  }

  /** A field is read the same after another one as at the start. */
  lemma SettledRun(p: Parser, w: seq<byte>, hc: Settings)
    requires Valid(p) && FieldStart(p.state) && |w| > 0 && w[0] != SP && w[0] != TAB
    ensures Valid(Settled(p))
    ensures
      var a, b := Run(p, w, hc, false), Run(Settled(p), w, hc, false);
      (a.Running? <==> b.Running?) && (a.Running? ==> a.p == b.p)
  {
    hide Valid, Switch, Run, Settled;
    SettledValid(p);
    SettledSwitch(p, w[0], hc);
    OneByte(p, w[0], hc);
    OneByte(Settled(p), w[0], hc);
    assert w == [w[0]] + w[1..];
    StrictConcat(p, [w[0]], w[1..], hc);
    StrictConcat(Settled(p), [w[0]], w[1..], hc);
  }
}
