/** Header fields: what a list of them leaves in the record, and the names and values they hand
    over. Values folded over several lines are not covered here. */
module HttpFields {
  import opened Common
  import opened HttpTypes
  import opened HttpSwitch
  import opened HttpInvariant
  import opened HttpSpec
  import opened HttpFragment
  import opened HttpBody
  import opened HttpLength
  import opened HttpNames
  import opened HttpHeaders
  import opened HttpCoding
  import opened HttpConnection
  import opened HttpHead
  import opened HttpStart

  // ----- what a head says about its message -----

  datatype Framing = Framing(flags: Flags, length: nat)

  /** A Content-Length value without the spaces after it. */
  function Number(v: seq<byte>): seq<byte> {
    if |v| > 0 && v[|v| - 1] == SP then Number(v[..|v| - 1]) else v
  }

  predicate GoodLength(v: seq<byte>) {
    |Number(v)| > 0 && Digits(Number(v)) && Decimal(Number(v)) <= LONGEST
  }

  predicate NameIs(name: seq<byte>, word: string) {
    Spells(Lowered(name), word)
  }

  /** A name, the spaces after the colon, a value and a line end. */
  datatype FieldLine = FieldLine(name: seq<byte>, spaces: seq<byte>, value: seq<byte>, end: seq<byte>)

  /** A field that is read to its end after others. A value may be empty; a length is a number
      and the only one. */
  predicate GoodField(h: Framing, f: FieldLine, hc: Settings) {
    && |f.name| > 0 && AllTokens(f.name) && Spaces(f.spaces) && EndOfLine(f.end)
    && (|f.value| > 0 ==> f.value[0] != SP && f.value[0] != TAB && Text(f.value, hc))
    && (|f.value| > 0 && NameIs(f.name, CONTENT_LENGTH) ==> !h.flags.contentLength && GoodLength(f.value))
  }

  /** The effect of a field: an empty value has none. */
  function Effect(h: Framing, f: FieldLine): Framing {
    if f.value == [] then h
    else if NameIs(f.name, CONNECTION) || NameIs(f.name, PROXY_CONNECTION) then h.(flags := SeenFlags(h.flags, f.value))
    else if NameIs(f.name, TRANSFER_ENCODING) then h.(flags := h.flags.(chunked := h.flags.chunked || SaysChunked(f.value)))
    else if NameIs(f.name, UPGRADE) then h.(flags := h.flags.(upgrade := true))
    else if NameIs(f.name, CONTENT_LENGTH) && GoodLength(f.value) then
      Framing(h.flags.(contentLength := true), Decimal(Number(f.value)))
    else h
  }

  function FramingOf(p: Parser): Framing {
    Framing(p.flags, p.contentLength)
  }

  /** p with another framing. What is left of the matching of words does not matter. */
  predicate Framed(p: Parser, q: Parser, h: Framing) {
    q == p.(flags := h.flags, contentLength := h.length, state := q.state, headerState := q.headerState, index := q.index)
  }

  // ----- values of no interest -----

  /** The value of a field whose name says nothing. */
  predicate Unnoticed(h: HeaderState) {
    FieldState(h) && h != Connection && h != ContentLength && h != TransferEncoding && h != Upgrade
  }

  /** The record in such a value. */
  function InPlain(p: Parser): Parser {
    p.(state := HeaderValue, headerState := General, index := 0,
       flags := if p.headerState == Upgrade then p.flags.(upgrade := true) else p.flags)
  }

  lemma PlainBegins(p: Parser, ch: byte, hc: Settings)
    requires p.state == HeaderValueDiscardWs && (Unnoticed(p.headerState) || p.headerState == Upgrade)
    requires ch != SP && ch != TAB && ch != CR && ch != LF
    ensures Switch(p, false, ch, hc) == Micro(InPlain(p), [Mark(Value)], Next)
  {
    assert Switch(p, false, ch, hc) == OnHeaderValueStart(p, ch);
    hide Switch, Lower;
    var none: seq<Op> := [];
    assert [Mark(Value)] + none == [Mark(Value)];
  }

  lemma PlainGoesOn(q: Parser, ch: byte, hc: Settings)
    requires q.state == HeaderValue && q.headerState == General && ch != CR && ch != LF && (hc.lenient || IsHeaderChar(ch))
    ensures Switch(q, false, ch, hc) == Go(q)
  {
    assert Switch(q, false, ch, hc) == OnHeaderValue(q, ch, false, hc);
    hide Switch, IsHeaderChar;
  }

  lemma {:induction false} PlainReads(p: Parser, v: seq<byte>, hc: Settings)
    requires Valid(p) && p.state == HeaderValueDiscardWs && (Unnoticed(p.headerState) || p.headerState == Upgrade)
    requires |v| > 0 && v[0] != SP && v[0] != TAB && Text(v, hc)
    ensures Reads(p, v, hc, InPlain(p), [Data(Value, v)])
    decreases |v|
  {
    hide Valid, Switch, Reads, IsHeaderChar, Unnoticed;
    var n, q := |v| - 1, InPlain(p);
    assert v == v[..n] + [v[n]];
    if n == 0 {
      assert v == [v[0]];
      PlainBegins(p, v[0], hc);
      DataFirst(p, Value, v[0], q, hc);
    } else {
      PlainReads(p, v[..n], hc);
      PlainGoesOn(q, v[n], hc);
      DataMore(p, v[..n], q, Value, v[n], q, hc);
    }
  }

  // ----- the value of Content-Length -----

  lemma SpaceAfterNumber(q: Parser, hc: Settings)
    requires q.state == HeaderValue && (q.headerState == ContentLengthNum || q.headerState == ContentLengthWs)
    ensures Switch(q, false, SP, hc) == Go(q.(headerState := ContentLengthWs))
  {
    assert Switch(q, false, SP, hc) == OnHeaderValue(q, SP, false, hc);
  }

  /** A number and the spaces after it. */
  lemma {:induction false} LengthReads(p: Parser, v: seq<byte>, hc: Settings) returns (q: Parser)
    requires Valid(p) && p.state == HeaderValueDiscardWs && p.headerState == ContentLength && !p.flags.contentLength
    requires GoodLength(v)
    ensures Reads(p, v, hc, q, [Data(Value, v)]) && q == Measured(p, Decimal(Number(v))).(headerState := q.headerState)
    ensures q.headerState == ContentLengthNum || q.headerState == ContentLengthWs
    decreases |v|
  {
    hide Valid, Switch, Reads, Decimal, Digits;
    if |v| > 0 && v[|v| - 1] == SP {
      var n := |v| - 1;
      assert v == v[..n] + [SP];
      var r := LengthReads(p, v[..n], hc);
      q := r.(headerState := ContentLengthWs);
      SpaceAfterNumber(r, hc);
      DataMore(p, v[..n], r, Value, SP, q, hc);
    } else {
      q := Measured(p, Decimal(v));
      LengthAccepted(p, v, hc);
    }
  }

  // ----- any value -----

  lemma NamesApart(low: seq<int>)
    ensures Spells(low, CONNECTION) || Spells(low, PROXY_CONNECTION) ==>
              !Spells(low, TRANSFER_ENCODING) && !Spells(low, UPGRADE) && !Spells(low, CONTENT_LENGTH)
    ensures Spells(low, TRANSFER_ENCODING) ==> !Spells(low, UPGRADE) && !Spells(low, CONTENT_LENGTH)
    ensures Spells(low, UPGRADE) ==> !Spells(low, CONTENT_LENGTH)
  {
    WordFacts();
  }

  lemma CodingFlag(q: Parser, v: seq<byte>)
    requires InCoding(q, v)
    ensures SetHeaderFlag(q) == q.(flags := q.flags.(chunked := q.flags.chunked || SaysChunked(v)))
  {
    hide SaysChunked, Begins;
  }

  lemma NothingSet(q: Parser)
    requires q.headerState == General || q.headerState == ContentLengthNum || q.headerState == ContentLengthWs
    ensures SetHeaderFlag(q) == q
  {
  }

  /** A value with the effect of its field. */
  lemma ValueReads(p: Parser, f: FieldLine, hc: Settings) returns (q: Parser)
    requires Valid(p) && p.state == HeaderValueDiscardWs && FieldState(p.headerState)
    requires Named(p.headerState, Lowered(f.name)) && GoodField(FramingOf(p), f, hc) && |f.value| > 0
    ensures Reads(p, f.value, hc, q, [Data(Value, f.value)]) && q.state == HeaderValue
    ensures Framed(p, SetHeaderFlag(q), Effect(FramingOf(p), f))
  {
    var low := Lowered(f.name);
    NamesApart(low);
    hide Valid, Switch, Reads, Text, InCoding, SetHeaderFlag, SeenFlags, SaysChunked, Lowered, Spells, AllTokens, GoodLength, Decimal;
    if Spells(low, CONNECTION) || Spells(low, PROXY_CONNECTION) {
      q := ConnectionExact(p, f.value, hc);
    } else if Spells(low, TRANSFER_ENCODING) {
      q := CodingExact(p, f.value, hc);
      CodingOpen(q, f.value);
      CodingFlag(q, f.value);
    } else if Spells(low, CONTENT_LENGTH) {
      q := LengthReads(p, f.value, hc);
      NothingSet(q);
    } else {
      q := InPlain(p);
      PlainReads(p, f.value, hc);
      NothingSet(q);
    }
  }

  // ----- the end of a line -----

  lemma ValueLineFeed(q: Parser, hc: Settings)
    requires q.state == HeaderValue
    ensures Switch(q, false, LF, hc) == Micro(q.(state := HeaderValueLws), [Flush(Value, false)], Next)
  {
    assert Switch(q, false, LF, hc) == OnHeaderValue(q, LF, false, hc);
    hide Switch;
    var none: seq<Op> := [];
    assert [Flush(Value, false)] + none == [Flush(Value, false)];
  }

  lemma ValueLine(p: Parser, w: seq<byte>, q: Parser, es: seq<Event>, v: seq<byte>, end: seq<byte>, hc: Settings)
    requires Reads(p, w, hc, q, es + [Data(Value, v)]) && q.state == HeaderValue && EndOfLine(end)
    ensures Reads(p, w + end, hc, q.(state := HeaderValueLws), es + [Data(Value, v)])
  {
    hide Valid, Switch, Reads, ByteEvents;
    ReadsKeeps(p, w, hc, q, es + [Data(Value, v)]);
    EmptyData(Value, end[0]);
    assert v + [] == v;
    if end == [LF] {
      ValueLineFeed(q, hc);
      ReadsByte(q, LF, hc);
      ThenMore(p, w, q, es, Value, v, [LF], q.(state := HeaderValueLws), [], hc);
    } else {
      var r := q.(state := HeaderAlmostDone);
      ValueEnds(q, hc);
      ReadsByte(q, CR, hc);
      ThenMore(p, w, q, es, Value, v, [CR], r, [], hc);
      HttpLength.LineEnded(r, hc);
      QuietMore(p, w + [CR], r, LF, r.(state := HeaderValueLws), es + [Data(Value, v)], hc);
      assert w + [CR] + [LF] == w + end;
    }
  }

  lemma NoValueSwitches(q: Parser, hc: Settings)
    requires q.state == HeaderValueDiscardWs
    ensures Switch(q, false, CR, hc) == Go(q.(state := HeaderValueDiscardWsAlmostDone))
    ensures Switch(q, false, LF, hc) == Go(q.(state := HeaderValueDiscardLws))
  {
    assert Switch(q, false, CR, hc) == OnHeaderValueDiscardWs(q, CR);
    assert Switch(q, false, LF, hc) == OnHeaderValueDiscardWs(q, LF);
    hide Switch;
  }

  lemma NoValueLineFeed(q: Parser, hc: Settings)
    requires q.state == HeaderValueDiscardWsAlmostDone
    ensures Switch(q, false, LF, hc) == Go(q.(state := HeaderValueDiscardLws))
  {
  }

  lemma NoValueLine(p: Parser, w: seq<byte>, q: Parser, es: seq<Event>, end: seq<byte>, hc: Settings)
    requires Reads(p, w, hc, q, es) && q.state == HeaderValueDiscardWs && EndOfLine(end)
    ensures Reads(p, w + end, hc, q.(state := HeaderValueDiscardLws), es)
  {
    hide Valid, Switch, Reads;
    NoValueSwitches(q, hc);
    if end == [LF] {
      QuietMore(p, w, q, LF, q.(state := HeaderValueDiscardLws), es, hc);
    } else {
      var r := q.(state := HeaderValueDiscardWsAlmostDone);
      NoValueLineFeed(r, hc);
      QuietMore(p, w, q, CR, r, es, hc);
      QuietMore(p, w + [CR], r, LF, r.(state := HeaderValueDiscardLws), es, hc);
      assert w + [CR] + [LF] == w + end;
    }
  }

  // ----- one field, from the beginning of a line -----

  function FieldBytes(f: FieldLine): seq<byte> {
    f.name + [':' as int] + f.spaces + f.value + f.end
  }

  function FieldEvents(f: FieldLine): seq<Event> {
    [Data(Field, f.name), Data(Value, f.value)]
  }

  /** The callback for an empty value comes with the first byte of the next line. */
  function Late(q: Parser): seq<Event> {
    if q.state == HeaderValueDiscardLws then [Data(Value, [])] else []
  }

  /** From a line end or the end of the start line on. */
  lemma FirstField(p: Parser, f: FieldLine, hc: Settings) returns (q: Parser, es: seq<Event>)
    requires Valid(p) && p.state == HeaderFieldStart && GoodField(FramingOf(p), f, hc)
    ensures Reads(p, FieldBytes(f), hc, q, es) && es + Late(q) == FieldEvents(f)
    ensures FieldStart(q.state) && Framed(p, Settled(q), Effect(FramingOf(p), f))
  {
    hide Valid, Switch, Reads, Text, SetHeaderFlag, SeenFlags, SaysChunked, Lowered, Spells, AllTokens, Spaces, GoodLength, Decimal, Named, Effect;
    var r := HeaderNameExact(p, f.name, hc);
    var w, w1 := f.name + [':' as int], f.name + [':' as int] + f.spaces;
    SpacesSkipped(r, f.spaces, hc);
    Then(p, w, r, [Data(Field, f.name)], f.spaces, r, [], hc);
    assert [Data(Field, f.name)] + [] == [Data(Field, f.name)];
    if f.value == [] {
      NoValueLine(p, w1, r, [Data(Field, f.name)], f.end, hc);
      q, es := r.(state := HeaderValueDiscardLws), [Data(Field, f.name)];
      assert w1 + f.end == FieldBytes(f);
      NoEffect(r, f);
    } else {
      var t := ValueReads(r, f, hc);
      Then(p, w1, r, [Data(Field, f.name)], f.value, t, [Data(Value, f.value)], hc);
      ValueLine(p, w1 + f.value, t, [Data(Field, f.name)], f.value, f.end, hc);
      q, es := t.(state := HeaderValueLws), [Data(Field, f.name)] + [Data(Value, f.value)];
      assert es + [] == FieldEvents(f);
      StateAside(t);
    }
  }

  lemma NoEffect(r: Parser, f: FieldLine)
    requires f.value == [] && FieldState(r.headerState)
    ensures SetHeaderFlag(r.(state := HeaderValueDiscardLws)) == r.(state := HeaderValueDiscardLws) && Effect(FramingOf(r), f) == FramingOf(r)
  {
  }

  lemma StateAside(t: Parser)
    ensures SetHeaderFlag(t.(state := HeaderValueLws)) == SetHeaderFlag(t).(state := HeaderValueLws)
  {
  }

  // ----- a field after another one -----

  lemma LateEvents(ops: seq<Op>, ch: byte)
    ensures ByteEvents(None, [Mark(Value), Flush(Value, false)] + ops, ch) == [Data(Value, [])] + ByteEvents(None, ops, ch)
  {
    var all := [Mark(Value), Flush(Value, false)] + ops;
    assert all[1..] == [Flush(Value, false)] + ops && all[1..][1..] == ops;
    assert ByteEvents(Some(Value), all[1..], ch) == [Data(Value, [])] + ByteEvents(None, ops, ch);
  }

  lemma SettledMicro(b: Parser, ch: byte, hc: Settings)
    requires FieldStart(b.state) && ch != SP && ch != TAB
    ensures
      var m, n := Switch(b, false, ch, hc), Switch(Settled(b), false, ch, hc);
      && m.p == n.p && m.fin == n.fin
      && m.ops == (if b.state == HeaderValueDiscardLws then [Mark(Value), Flush(Value, false)] else []) + n.ops
  {
    hide Switch, OnHeaderFieldStart, SetHeaderFlag;
    SetFlagKeeps(b);
    FieldStartSwitch(Settled(b), ch, hc);
    if b.state != HeaderFieldStart {
      LineOverSwitch(b, ch, hc);
    }
    assert [] + Switch(Settled(b), false, ch, hc).ops == Switch(Settled(b), false, ch, hc).ops;
  }

  lemma FieldStartClosed(b: Parser)
    requires FieldStart(b.state)
    ensures OpenKind(b.state) == None && OpenKind(Settled(b).state) == None
  {
    hide SetHeaderFlag;
  }

  lemma SettledByte(b: Parser, ch: byte, hc: Settings)
    requires Valid(b) && Valid(Settled(b)) && FieldStart(b.state) && ch != SP && ch != TAB
    ensures
      var r, s := Run(b, [ch], hc, false), Run(Settled(b), [ch], hc, false);
      && (r.Running? <==> s.Running?) && (r.Running? ==> r.p == s.p && r.events == Late(b) + s.events)
  {
    hide Valid, Switch, ByteEvents, Settled;
    var m, n := Switch(b, false, ch, hc), Switch(Settled(b), false, ch, hc);
    SettledMicro(b, ch, hc);
    FieldStartClosed(b);
    LateEvents(n.ops, ch);
    EmptyRun(b, hc);
    EmptyRun(Settled(b), hc);
    RunOne(b, [ch], 0, hc, false);
    RunOne(Settled(b), [ch], 0, hc, false);
    assert [ch][..0] == [] && [ch][..1] == [ch];
    assert [] + n.ops == n.ops && [] + ByteEvents(None, m.ops, ch) == ByteEvents(None, m.ops, ch);
    assert [] + ByteEvents(None, n.ops, ch) == ByteEvents(None, n.ops, ch);
  }

  /** What is read from a settled record is read from the unsettled one, after the callback
      that is late. */
  lemma SettledReads(b: Parser, w: seq<byte>, q: Parser, es: seq<Event>, hc: Settings)
    requires Valid(b) && FieldStart(b.state) && |w| > 0 && w[0] != SP && w[0] != TAB
    requires Reads(Settled(b), w, hc, q, es)
    ensures Reads(b, w, hc, q, Late(b) + es)
  {
    hide Valid, Switch, Join, Run, Settled, Late;
    SettledByte(b, w[0], hc);
    assert w == [w[0]] + w[1..];
    StrictConcat(b, [w[0]], w[1..], hc);
    StrictConcat(Settled(b), [w[0]], w[1..], hc);
    ReadsRun(Settled(b), w, hc, q, es);
    var r := Run(Settled(b), [w[0]], hc, false);
    PrefixRuns(Settled(b), w, hc, 1);
    assert w[..1] == [w[0]];
    var rest := Run(r.p, w[1..], hc, false);
    assert Late(b) + r.events + rest.events == Late(b) + (r.events + rest.events);
    JoinBoth(Late(b), Late(b), r.events + rest.events, es);
  }

  // ----- a list of fields -----

  function AllBytes(fs: seq<FieldLine>): seq<byte> {
    if |fs| == 0 then [] else FieldBytes(fs[0]) + AllBytes(fs[1..])
  }

  function AllFields(fs: seq<FieldLine>): seq<Event> {
    if |fs| == 0 then [] else FieldEvents(fs[0]) + AllFields(fs[1..])
  }

  function AllEffects(h: Framing, fs: seq<FieldLine>): Framing
    decreases |fs|
  {
    if |fs| == 0 then h else AllEffects(Effect(h, fs[0]), fs[1..])
  }

  predicate GoodFields(h: Framing, fs: seq<FieldLine>, hc: Settings)
    decreases |fs|
  {
    |fs| == 0 || (GoodField(h, fs[0], hc) && GoodFields(Effect(h, fs[0]), fs[1..], hc))
  }

  lemma FieldFirstByte(f: FieldLine, h: Framing, hc: Settings)
    requires GoodField(h, f, hc)
    ensures |FieldBytes(f)| > 0 && FieldBytes(f)[0] != SP && FieldBytes(f)[0] != TAB
  {
    TokenFirst(f.name);
    hide Text, AllTokens, GoodLength, Lowered;
  }

  lemma TokenFirst(name: seq<byte>)
    requires |name| > 0 && AllTokens(name)
    ensures name[0] != SP && name[0] != TAB
  {
    NoSpaceToken(name[0]);
  }

  lemma FramedOn(p: Parser, q: Parser, r: Parser, h: Framing, g: Framing)
    requires Framed(p, q, h) && Framed(q, r, g)
    ensures Framed(p, r, g)
  {
  }

  lemma FramedIs(p: Parser, q: Parser, h: Framing)
    requires Framed(p, q, h)
    ensures FramingOf(q) == h
  {
  }

  lemma NoneLate(a: seq<Event>, b: seq<Event>, c: seq<Event>, d: seq<Event>, e: seq<Event>, f: seq<Event>, g: seq<Event>)
    requires a + b == c && d + e == b + f
    ensures g + a + d + e == g + (c + f)
  {
    assert a + (d + e) == a + b + f;
    assert g + a + d + e == g + (a + (d + e));
  }

  /** Any list of fields, at the beginning of a head or after other fields. */
  lemma {:induction false} FieldList(b: Parser, fs: seq<FieldLine>, hc: Settings) returns (q: Parser, es: seq<Event>)
    requires Valid(b) && FieldStart(b.state) && GoodFields(FramingOf(Settled(b)), fs, hc)
    ensures Reads(b, AllBytes(fs), hc, q, es) && es + Late(q) == Late(b) + AllFields(fs)
    ensures FieldStart(q.state) && Framed(Settled(b), Settled(q), AllEffects(FramingOf(Settled(b)), fs))
    decreases |fs|
  {
    hide Valid, Reads, GoodField, Effect, Settled, Late, FieldBytes, FieldEvents, Framed, FieldStart;
    if |fs| == 0 {
      q, es := b, [];
      ReadsNothing(b, hc);
      assert [] + Late(b) == Late(b) + [];
      FramedSelf(Settled(b));
    } else {
      SettledValid(b);
      var r, e1 := FirstField(Settled(b), fs[0], hc);
      FieldFirstByte(fs[0], FramingOf(Settled(b)), hc);
      SettledReads(b, FieldBytes(fs[0]), r, e1, hc);
      ReadsKeeps(b, FieldBytes(fs[0]), hc, r, Late(b) + e1);
      FramedIs(Settled(b), Settled(r), Effect(FramingOf(Settled(b)), fs[0]));
      var e2;
      q, e2 := FieldList(r, fs[1..], hc);
      FramedOn(Settled(b), Settled(r), Settled(q), Effect(FramingOf(Settled(b)), fs[0]), AllEffects(FramingOf(Settled(r)), fs[1..]));
      es := Late(b) + e1 + e2;
      Then(b, FieldBytes(fs[0]), r, Late(b) + e1, AllBytes(fs[1..]), q, e2, hc);
      NoneLate(e1, Late(r), FieldEvents(fs[0]), e2, Late(q), AllFields(fs[1..]), Late(b));
    }
  }

  lemma FramedSelf(p: Parser)
    ensures Framed(p, p, FramingOf(p))
  {
  }

  lemma HeadEnd(p: Parser, hc: Settings)
    requires Valid(p) && p.state == HeaderFieldStart
    ensures Reads(p, [CR], hc, p.(state := HeadersAlmostDone), [])
  {
    hide Valid, Reads;
    assert Switch(p, false, CR, hc) == OnHeaderFieldStart(p, CR, hc);
    hide Switch;
    Quiet(p, CR, p.(state := HeadersAlmostDone), hc);
  }

  /** A head: its fields and the first byte of the empty line. Every name and value is handed
      over; the record has the flags and the length the fields say. */
  lemma HeadReads(p: Parser, fs: seq<FieldLine>, hc: Settings) returns (r: Parser)
    requires Valid(p) && p.state == HeaderFieldStart && GoodFields(FramingOf(p), fs, hc)
    ensures Reads(p, AllBytes(fs) + [CR], hc, r, AllFields(fs))
    ensures r.state == HeadersAlmostDone && Framed(p, r, AllEffects(FramingOf(p), fs))
  {
    hide Valid, Reads, GoodFields, AllEffects, AllBytes, AllFields, SetHeaderFlag;
    assert Settled(p) == p && Late(p) == [];
    var q, es := FieldList(p, fs, hc);
    ReadsKeeps(p, AllBytes(fs), hc, q, es);
    SettledValid(q);
    r := Settled(q).(state := HeadersAlmostDone);
    HeadEnd(Settled(q), hc);
    SettledReads(q, [CR], r, [], hc);
    Then(p, AllBytes(fs), q, es, [CR], r, Late(q) + [], hc);
    assert es + (Late(q) + []) == es + Late(q) && es + Late(q) == [] + AllFields(fs) && [] + AllFields(fs) == AllFields(fs);
  }

  // ----- an empty line of LF alone -----

  /** Outcomes alike, but that the one is a byte shorter. */
  ghost predicate OneShorter(a: Outcome, b: Outcome) {
    match a
    case Running(p, _, es) => b.Running? && b.p == p && Join(b.events) == Join(es)
    case Failed(e, at) => b.Failed? && b.errno == e && b.at == at - 1
    case Upgraded(p, es, at) => b.Upgraded? && b.p == p && Join(b.events) == Join(es) && b.at == at - 1
  }

  lemma LfSwitch(q: Parser, hc: Settings)
    requires q.state == HeaderFieldStart
    ensures Switch(q, false, LF, hc) == Switch(q.(state := HeadersAlmostDone), false, LF, hc)
  {
    hide OnHeadersAlmostDone;
    FieldStartSwitch(q, LF, hc);
    HeadEndSwitch(q.(state := HeadersAlmostDone), hc);
  }

  /** The line feed at the end of a head, after CR or at the beginning of a line. */
  lemma LfByte(q: Parser, hc: Settings)
    requires Valid(q) && FieldStart(q.state) && Valid(Settled(q).(state := HeadersAlmostDone))
    ensures
      var a, b := Run(Settled(q).(state := HeadersAlmostDone), [LF], hc, false), Run(q, [LF], hc, false);
      match a
      case Running(p, _, es) => b.Running? && b.p == p && b.events == Late(q) + es
      case Failed(e, at) => b == a
      case Upgraded(p, es, at) => b.Upgraded? && b.p == p && b.events == Late(q) + es && b.at == at
  {
    hide Valid, Switch, ByteEvents, Settled;
    var r := Settled(q).(state := HeadersAlmostDone);
    var m, n := Switch(q, false, LF, hc), Switch(r, false, LF, hc);
    SettledState(q);
    SettledMicro(q, LF, hc);
    LfSwitch(Settled(q), hc);
    FieldStartClosed(q);
    LateEvents(n.ops, LF);
    EmptyRun(q, hc);
    EmptyRun(r, hc);
    RunOne(q, [LF], 0, hc, false);
    RunOne(r, [LF], 0, hc, false);
    assert [LF as byte][..0] == [] && [LF as byte][..1] == [LF];
    assert [] + n.ops == n.ops && [] + ByteEvents(None, m.ops, LF) == ByteEvents(None, m.ops, LF);
    assert [] + ByteEvents(None, n.ops, LF) == ByteEvents(None, n.ops, LF);
  }

  lemma SettledState(q: Parser)
    requires FieldStart(q.state)
    ensures Settled(q).state == HeaderFieldStart && OpenKind(HeadersAlmostDone) == None
  {
    hide SetHeaderFlag;
  }

  lemma ReadsEvents(p: Parser, w: seq<byte>, hc: Settings, q: Parser, es: seq<Event>)
    requires Reads(p, w, hc, q, es)
    ensures Valid(p) && Run(p, w, hc, false).Running? && Run(p, w, hc, false).p == q && Join(Run(p, w, hc, false).events) == Join(es)
  {
    hide Valid, Switch, Join, Run;
  }

  /** The same outcome after the same callbacks, a byte earlier. */
  lemma PrependShorter(before: seq<Event>, late: seq<Event>, r: Outcome)
    requires Join(before) == Join(late)
    ensures OneShorter(Prepend(before, 1, r), if r.Running? then Running(r.p, r.skip, late + r.events)
                                              else if r.Upgraded? then Upgraded(r.p, late + r.events, r.at) else r)
  {
    hide Join;
    if !r.Failed? {
      JoinCongruent(before, late, r.events);
    }
  }

  /** A head may end with LF alone: what follows is read the same. */
  lemma LfAlone(q: Parser, tail: seq<byte>, hc: Settings)
    requires Valid(q) && FieldStart(q.state)
    ensures OneShorter(Run(q, [CR] + ([LF] + tail), hc, false), Run(q, [LF] + tail, hc, false))
  {
    hide Valid, Switch, Join, Settled, Late, Run, Reads;
    SettledValid(q);
    var r := Settled(q).(state := HeadersAlmostDone);
    HeadEnd(Settled(q), hc);
    SettledReads(q, [CR], r, [], hc);
    assert Late(q) + [] == Late(q);
    ReadsEvents(q, [CR], hc, r, Late(q));
    ReadsKeeps(q, [CR], hc, r, Late(q));
    StrictConcat(q, [CR], [LF] + tail, hc);
    PrependShorter(Run(q, [CR], hc, false).events, Late(q), Run(r, [LF] + tail, hc, false));
    LfTail(q, tail, hc);
  }

  lemma LfTail(q: Parser, tail: seq<byte>, hc: Settings)
    requires Valid(q) && FieldStart(q.state) && Valid(Settled(q).(state := HeadersAlmostDone))
    ensures
      var r := Run(Settled(q).(state := HeadersAlmostDone), [LF] + tail, hc, false);
      Unskipped(Run(q, [LF] + tail, hc, false)) ==
        Unskipped(if r.Running? then Running(r.p, r.skip, Late(q) + r.events)
                  else if r.Upgraded? then Upgraded(r.p, Late(q) + r.events, r.at) else r)
  {
    hide Valid, Switch, Settled, Late, Run;
    var r := Settled(q).(state := HeadersAlmostDone);
    LfByte(q, hc);
    StrictConcat(r, [LF], tail, hc);
    StrictConcat(q, [LF], tail, hc);
    var a := Run(r, [LF], hc, false);
    if a.Running? {
      var rest := Run(a.p, tail, hc, false);
      if !rest.Failed? {
        assert Late(q) + a.events + rest.events == Late(q) + (a.events + rest.events);
      }
    }
  }

  // ----- values over several lines -----

  /** The record when a line begins with a space: whatever word was matched is forgotten, but a
      search for the next word of Connection goes on. */
  function Folded(q: Parser): Parser {
    q.(state := HeaderValue, index := 0,
       headerState := if q.headerState == MatchingConnectionTokenStart then MatchingConnectionTokenStart else General)
  }

  /** A value goes on in a line that begins with a space or a tab, which belongs to it; no flag
      is set at the end of the line before. */
  lemma FoldExact(q: Parser, ch: byte, hc: Settings)
    requires Valid(q) && q.state == HeaderValueLws && (ch == SP || ch == TAB)
    ensures Reads(q, [ch], hc, Folded(q), [Data(Value, [ch])])
  {
    FoldSwitch(q, ch, hc);
    FoldClosed(q);
    hide Valid, Switch, Reads;
    DataFirst(q, Value, ch, Folded(q), hc);
  }

  lemma FoldSwitch(q: Parser, ch: byte, hc: Settings)
    requires Valid(q) && q.state == HeaderValueLws && (ch == SP || ch == TAB)
    ensures Switch(q, false, ch, hc) == Micro(Folded(q), [Mark(Value)], Next)
  {
    assert Switch(q, false, ch, hc) == OnHeaderValueStart(q.(state := HeaderValueStart), ch);
    hide Switch, Lower;
    var none: seq<Op> := [];
    assert [Mark(Value)] + none == [Mark(Value)];
  }

  lemma FoldClosed(q: Parser)
    requires q.state == HeaderValueLws
    ensures OpenKind(q.state) == None
  {
  }

  /** A value of no interest over one more line: it is handed over with its leading space. */
  lemma FoldedLine(p: Parser, w: seq<byte>, q: Parser, es: seq<Event>, v: seq<byte>, line: seq<byte>, end: seq<byte>, hc: Settings)
    requires Reads(p, w, hc, q, es + [Data(Value, v)]) && q.state == HeaderValueLws && q.headerState != MatchingConnectionTokenStart
    requires |line| > 0 && (line[0] == SP || line[0] == TAB) && Text(line, hc) && EndOfLine(end)
    ensures Reads(p, w + line + end, hc, Folded(q).(state := HeaderValueLws), es + [Data(Value, v + line)])
  {
    hide Valid, Switch, Reads, Folded, Text;
    ReadsKeeps(p, w, hc, q, es + [Data(Value, v)]);
    FoldedBytes(q, line, hc);
    FoldedState(q);
    ThenMore(p, w, q, es, Value, v, line, Folded(q), line, hc);
    ValueLine(p, w + line, Folded(q), es, v + line, end, hc);
  }

  lemma FoldedState(q: Parser)
    ensures Folded(q).state == HeaderValue
    ensures q.headerState != MatchingConnectionTokenStart ==> Folded(q).headerState == General
  {
  }

  lemma {:induction false} FoldedBytes(q: Parser, line: seq<byte>, hc: Settings)
    requires Valid(q) && q.state == HeaderValueLws && q.headerState != MatchingConnectionTokenStart
    requires |line| > 0 && (line[0] == SP || line[0] == TAB) && Text(line, hc)
    ensures Reads(q, line, hc, Folded(q), [Data(Value, line)])
    decreases |line|
  {
    hide Valid, Switch, Reads, Folded, IsHeaderChar;
    var n := |line| - 1;
    assert line == line[..n] + [line[n]];
    if n == 0 {
      assert line == [line[0]];
      FoldExact(q, line[0], hc);
    } else {
      FoldedBytes(q, line[..n], hc);
      FoldedState(q);
      PlainGoesOn(Folded(q), line[n], hc);
      DataMore(q, line[..n], Folded(q), Value, line[n], Folded(q), hc);
    }
  }

  // ----- what a list of fields says -----

  predicate AnyField(fs: seq<FieldLine>, says: FieldLine -> bool) {
    exists i :: 0 <= i < |fs| && says(fs[i])
  }

  predicate IsConnection(f: FieldLine) {
    NameIs(f.name, CONNECTION) || NameIs(f.name, PROXY_CONNECTION)
  }

  predicate SaysKeepAlive(f: FieldLine) {
    IsConnection(f) && Seen(f.value, KEEP_ALIVE)
  }

  predicate SaysClose(f: FieldLine) {
    IsConnection(f) && Seen(f.value, CLOSE)
  }

  predicate SaysUpgrade(f: FieldLine) {
    IsConnection(f) && Seen(f.value, HttpHeaders.UPGRADE)
  }

  predicate NamesProtocol(f: FieldLine) {
    NameIs(f.name, HttpHeaders.UPGRADE) && f.value != []
  }

  predicate CodesChunked(f: FieldLine) {
    NameIs(f.name, TRANSFER_ENCODING) && SaysChunked(f.value)
  }

  predicate GivesLength(f: FieldLine) {
    NameIs(f.name, CONTENT_LENGTH) && f.value != [] && GoodLength(f.value)
  }

  function GivenLength(f: FieldLine): nat
    requires GivesLength(f)
  {
    Decimal(Number(f.value))
  }

  lemma NothingSeen(word: string)
    requires |word| > 0
    ensures !Seen([], word)
  {
    var ps := Pieces([]);
    assert ps == [[]] && Element(ps, 0) == [];
  }

  lemma EffectFlags(h: Framing, f: FieldLine)
    ensures Effect(h, f).flags ==
              Flags(h.flags.chunked || CodesChunked(f), h.flags.keepAlive || SaysKeepAlive(f), h.flags.close || SaysClose(f),
                    h.flags.connectionUpgrade || SaysUpgrade(f), h.flags.trailing, h.flags.upgrade || NamesProtocol(f),
                    h.flags.skipBody, h.flags.contentLength || GivesLength(f))
    ensures Effect(h, f).length == if GivesLength(f) then GivenLength(f) else h.length
  {
    NamesApart(Lowered(f.name));
    NothingSeen(KEEP_ALIVE);
    NothingSeen(CLOSE);
    NothingSeen(HttpHeaders.UPGRADE);
    hide Seen, GoodLength, Decimal, Lowered, Spells;
  }

  lemma AnyFirst(fs: seq<FieldLine>, says: FieldLine -> bool)
    requires |fs| > 0
    ensures AnyField(fs, says) <==> says(fs[0]) || AnyField(fs[1..], says)
  {
    if AnyField(fs, says) {
      var i :| 0 <= i < |fs| && says(fs[i]);
      if i > 0 {
        assert fs[1..][i - 1] == fs[i];
      }
    }
    if AnyField(fs[1..], says) {
      var i :| 0 <= i < |fs| - 1 && says(fs[1..][i]);
      assert fs[i + 1] == fs[1..][i];
    }
  }

  /** The flags of a list of fields: each is set exactly if one of the fields says so. */
  lemma {:induction false} ListFlags(h: Framing, fs: seq<FieldLine>)
    ensures AllEffects(h, fs).flags ==
              Flags(h.flags.chunked || AnyField(fs, CodesChunked), h.flags.keepAlive || AnyField(fs, SaysKeepAlive),
                    h.flags.close || AnyField(fs, SaysClose), h.flags.connectionUpgrade || AnyField(fs, SaysUpgrade),
                    h.flags.trailing, h.flags.upgrade || AnyField(fs, NamesProtocol),
                    h.flags.skipBody, h.flags.contentLength || AnyField(fs, GivesLength))
    decreases |fs|
  {
    if |fs| > 0 {
      EffectFlags(h, fs[0]);
      ListFlags(Effect(h, fs[0]), fs[1..]);
      hide Effect, AnyField, CodesChunked, SaysKeepAlive, SaysClose, SaysUpgrade, NamesProtocol, GivesLength;
      AnyFirst(fs, CodesChunked);
      AnyFirst(fs, SaysKeepAlive);
      AnyFirst(fs, SaysClose);
      AnyFirst(fs, SaysUpgrade);
      AnyFirst(fs, NamesProtocol);
      AnyFirst(fs, GivesLength);
    }
  }

  /** The length is that of the one field that gives it. */
  lemma {:induction false} ListLength(h: Framing, fs: seq<FieldLine>, hc: Settings)
    requires GoodFields(h, fs, hc)
    ensures !AnyField(fs, GivesLength) ==> AllEffects(h, fs).length == h.length
    ensures forall i :: 0 <= i < |fs| && GivesLength(fs[i]) ==> AllEffects(h, fs).length == GivenLength(fs[i])
    decreases |fs|
  {
    hide GivesLength, GivenLength, Effect, Text, AllTokens, GoodLength;
    if |fs| > 0 {
      EffectFlags(h, fs[0]);
      ListLength(Effect(h, fs[0]), fs[1..], hc);
      AnyFirst(fs, GivesLength);
      forall i | 0 <= i < |fs| && GivesLength(fs[i])
        ensures AllEffects(h, fs).length == GivenLength(fs[i])
      {
        if i > 0 {
          assert fs[1..][i - 1] == fs[i];
        } else {
          NoLengthAgain(Effect(h, fs[0]), fs[1..], hc);
        }
      }
    }
  }

  /** After a length, no field gives another. */
  lemma {:induction false} NoLengthAgain(h: Framing, fs: seq<FieldLine>, hc: Settings)
    requires GoodFields(h, fs, hc) && h.flags.contentLength
    ensures !AnyField(fs, GivesLength)
    decreases |fs|
  {
    if |fs| > 0 {
      EffectFlags(h, fs[0]);
      NotAgain(h, fs[0], hc);
      hide GivesLength, Effect, GoodField;
      NoLengthAgain(Effect(h, fs[0]), fs[1..], hc);
      AnyFirst(fs, GivesLength);
    }
  }

  lemma NotAgain(h: Framing, f: FieldLine, hc: Settings)
    requires GoodField(h, f, hc) && h.flags.contentLength
    ensures !GivesLength(f)
  {
    hide Text, AllTokens, GoodLength;
  }
}
