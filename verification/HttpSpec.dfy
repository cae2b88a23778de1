/** What a run of the parser means, independently of how its input is cut: the final
    record and the sequence of callbacks, adjacent data of one kind joined. */
module HttpSpec {
  import opened Common
  import opened HttpTypes
  import opened HttpSwitch
  import opened HttpInvariant
  import opened HttpRun

  // ----- joining data callbacks -----

  function Joined(acc: seq<Event>, e: Event): seq<Event> {
    if |acc| > 0 && acc[|acc| - 1].Data? && e.Data? && acc[|acc| - 1].kind == e.kind
    then acc[..|acc| - 1] + [Data(e.kind, acc[|acc| - 1].bytes + e.bytes)]
    else acc + [e]
  }

  function Join(es: seq<Event>): seq<Event> {
    if |es| == 0 then [] else Joined(Join(es[..|es| - 1]), es[|es| - 1])
  }

  lemma JoinOne(a: seq<Event>, e: Event)
    ensures Join(a + [e]) == Joined(Join(a), e)
  {
    assert (a + [e])[..|a|] == a;
  }

  lemma {:induction false} JoinCongruent(a: seq<Event>, b: seq<Event>, es: seq<Event>)
    requires Join(a) == Join(b)
    ensures Join(a + es) == Join(b + es)
    decreases |es|
  {
    if |es| == 0 {
      assert a + es == a && b + es == b;
    } else {
      var n := |es| - 1;
      JoinCongruent(a, b, es[..n]);
      assert a + es == (a + es[..n]) + [es[n]];
      assert b + es == (b + es[..n]) + [es[n]];
      JoinOne(a + es[..n], es[n]);
      JoinOne(b + es[..n], es[n]);
    }
  }

  lemma JoinPair(a: seq<Event>, k: Kind, x: seq<byte>, y: seq<byte>)
    ensures Join(a + [Data(k, x)] + [Data(k, y)]) == Join(a + [Data(k, x + y)])
  {
    hide Join, Joined;
    JoinOne(a + [Data(k, x)], Data(k, y));
    JoinOne(a, Data(k, x));
    JoinOne(a, Data(k, x + y));
    JoinedPair(Join(a), k, x, y);
  }

  lemma JoinedPair(acc: seq<Event>, k: Kind, x: seq<byte>, y: seq<byte>)
    ensures Joined(Joined(acc, Data(k, x)), Data(k, y)) == Joined(acc, Data(k, x + y))
  {
    if |acc| > 0 && acc[|acc| - 1].Data? && acc[|acc| - 1].kind == k {
      var z := acc[|acc| - 1].bytes;
      assert (z + x) + y == z + (x + y);
    }
  }

  // ----- one byte -----

  /** The callbacks of one byte fed alone: marks start at the byte and are flushed after it. */
  function ByteEvents(open: Option<Kind>, ops: seq<Op>, ch: byte): seq<Event>
    decreases |ops|
  {
    if |ops| == 0 then
      (match open
       case Some(k) => [Data(k, [ch])]
       case None => [])
    else
      match ops[0]
      case Mark(k) => ByteEvents(if open.Some? then open else Some(k), ops[1..], ch)
      case Flush(k, inclusive) =>
        if open == Some(k) then [Data(k, if inclusive then [ch] else [])] + ByteEvents(None, ops[1..], ch)
        else ByteEvents(open, ops[1..], ch)
      case Fire(e) => [e] + ByteEvents(open, ops[1..], ch)
  }

  // ----- a whole input -----

  /** at: how many bytes were consumed, which http_parser_execute returns. */
  datatype Outcome =
    | Running(p: Parser, skip: bool, events: seq<Event>)
    | Failed(errno: Errno, at: nat)
    | Upgraded(p: Parser, events: seq<Event>, at: nat)

  /** The record http_parser_init leaves in cleared memory. */
  function Initial(t: ParserType): (p: Parser)
    ensures Valid(p) && p.typ == t && OpenKind(p.state) == None
  {
    var s := match t case Request => StartReq case Response => StartRes case Both => StartReqOrRes;
    Parser(t, NO_FLAGS, s, General, 0, 0, 0, 0, 0, DELETE, false)
  }

  /** What of an outcome does not depend on how its data is cut: the record or the error,
      the position and the joined callbacks. */
  function Meaning(r: Outcome): Outcome {
    match r
    case Running(p, _, es) => Running(p, false, Join(es))
    case Failed(_, _) => r
    case Upgraded(p, es, at) => Upgraded(p, Join(es), at)
  }

  /** An outcome without the note whether memchr is ahead. */
  function Unskipped(r: Outcome): Outcome {
    if r.Running? then r.(skip := false) else r
  }

  predicate InGeneral(p: Parser) {
    p.state == HeaderValue && p.headerState == General
  }

  /** One byte after a run. jump: does a header value of no interest get skipped with
      memchr, so that only the first byte of a stretch is checked? */
  function Step(r: Outcome, ch: byte, n: nat, hc: Settings, jump: bool): (s: Outcome)
    requires r.Running? || r.Upgraded? ==> Valid(r.p)
    ensures s.Running? || s.Upgraded? ==> Valid(s.p)
  {
    if r.Running? then
      SwitchLeads(r.p, r.skip, ch, hc, EntryMode(r.p.state));
      var m := Switch(r.p, r.skip, ch, hc);
      var events := r.events + ByteEvents(OpenKind(r.p.state), m.ops, ch);
      match m.fin
      case Next => Running(m.p, jump && InGeneral(r.p) && InGeneral(m.p), events)
      case Fail(e) => Failed(e, n)
      case Exit => Upgraded(m.p, events, n + 1)
    else r
  }

  function Run(p: Parser, w: seq<byte>, hc: Settings, jump: bool): (r: Outcome)
    requires Valid(p)
    ensures r.Running? || r.Upgraded? ==> Valid(r.p)
    decreases |w|
  {
    if |w| == 0 then Running(p, false, [])
    else Step(Run(p, w[..|w| - 1], hc, jump), w[|w| - 1], |w| - 1, hc, jump)
  }

  lemma RunOne(p: Parser, w: seq<byte>, i: nat, hc: Settings, jump: bool)
    requires Valid(p) && i < |w|
    ensures Run(p, w[..i + 1], hc, jump) == Step(Run(p, w[..i], hc, jump), w[i], i, hc, jump)
  {
    assert w[..i + 1][..i] == w[..i];
  }

  /** Once a run has ended, the rest of the input does not matter. */
  lemma {:induction false} RunEnded(p: Parser, w: seq<byte>, i: nat, hc: Settings, jump: bool)
    requires Valid(p) && i <= |w| && !Run(p, w[..i], hc, jump).Running?
    ensures Run(p, w, hc, jump) == Run(p, w[..i], hc, jump)
    decreases |w| - i
  {
    hide Switch, Run;
    if i == |w| {
      assert w[..i] == w;
    } else {
      RunOne(p, w, i, hc, jump);
      RunEnded(p, w, i + 1, hc, jump);
    }
  }

  // ----- marks -----

  /** The marks of a call: position of the first byte not yet handed over, by kind. */
  type Marks = map<Kind, nat>

  function MarksOf(mode: Mode, m: nat): (marks: Marks)
    ensures forall k :: k in marks ==> marks[k] == m
  {
    match mode
    case Closed => map[]
    case Open(k) => map[k := m]
    case Carried => map[Body := m]
  }

  /** The data a mark stands for, already accounted for byte by byte. */
  function Pending(mode: Mode, bytes: seq<byte>): seq<Event> {
    if mode == Closed || |bytes| == 0 then [] else [Data(if mode.Open? then mode.kind else Body, bytes)]
  }

  /** Running the mark and callback macros at byte p of data. */
  function RunOps(marks: Marks, ops: seq<Op>, data: seq<byte>, p: nat): (r: (seq<Event>, Marks))
    requires p < |data| && forall k :: k in marks ==> marks[k] <= p
    ensures forall k :: k in r.1 ==> r.1[k] <= p
    decreases |ops|
  {
    if |ops| == 0 then ([], marks)
    else
      match ops[0]
      case Mark(k) => RunOps(if k in marks then marks else marks[k := p], ops[1..], data, p)
      case Flush(k, inclusive) =>
        if k in marks then
          var (es, ms) := RunOps(marks - {k}, ops[1..], data, p);
          ([Data(k, data[marks[k]..if inclusive then p + 1 else p])] + es, ms)
        else RunOps(marks, ops[1..], data, p)
      case Fire(e) =>
        var (es, ms) := RunOps(marks, ops[1..], data, p);
        ([e] + es, ms)
  }

  function SpecOpen(mode: Mode): Option<Kind> {
    match mode
    case Open(k) => Some(k)
    case _ => None
  }

  /** More data of the open kind, handed over byte by byte or in one piece. */
  lemma MoreData(k: Kind, before: seq<byte>, x: seq<byte>, out: seq<Event>, spec: seq<Event>)
    requires Join(spec) == Join(out + Pending(Open(k), before))
    ensures Join(spec + [Data(k, x)]) == Join(out + [Data(k, before + x)])
  {
    JoinCongruent(spec, out + Pending(Open(k), before), [Data(k, x)]);
    if |before| == 0 {
      assert out + [] == out && before + x == x;
    } else {
      JoinPair(out, k, before, x);
    }
  }

  /** The operations of one byte, run with real marks, hand over the same data as the byte
      fed alone, once adjacent data is joined. */
  lemma {:induction false} OpsAgree(mode: Mode, m: nat, ops: seq<Op>, data: seq<byte>, p: nat,
                                    out: seq<Event>, spec: seq<Event>, end: Mode)
    returns (m': nat)
    requires m <= p < |data| && RunModes(mode, ops) == Some(end) && end != Carried
    requires mode == Carried ==> m < p
    requires Join(spec) == Join(out + Pending(mode, data[m..p]))
    ensures m' <= p
    ensures
      var (es, ms) := RunOps(MarksOf(mode, m), ops, data, p);
      && ms == MarksOf(end, m')
      && Join(spec + ByteEvents(SpecOpen(mode), ops, data[p])) == Join(out + es + Pending(end, data[m'..p + 1]))
    decreases |ops|, 2
  {
    hide Join;
    if |ops| == 0 {
      m' := m;
      assert out + [] == out;
      assert data[m..p + 1] == data[m..p] + [data[p]];
      match mode
      case Closed => assert spec + [] == spec;
      case Open(k) => MoreData(k, data[m..p], [data[p]], out, spec);
    } else {
      match ops[0]
      case Mark(k) =>
        assert data[p..p] == [];
        if mode == Closed {
          m' := OpsAgree(Open(k), p, ops[1..], data, p, out, spec, end);
        } else {
          m' := OpsAgree(Open(if mode.Open? then mode.kind else k), m, ops[1..], data, p, out, spec, end);
        }
      case Flush(k, inclusive) =>
        if mode == Closed {
          m' := OpsAgree(Closed, m, ops[1..], data, p, out, spec, end);
        } else {
          m' := FlushAgrees(mode, m, ops, data, p, out, spec, end);
        }
      case Fire(e) =>
        assert out + [] == out;
        JoinCongruent(spec, out, [e]);
        m' := ClosedAgrees(m, ops[1..], data, p, out, spec, e, e, end);
    }
  }

  /** After an event handed over on both sides, the remaining operations agree. */
  lemma {:induction false} ClosedAgrees(m: nat, ops: seq<Op>, data: seq<byte>, p: nat,
                                        out: seq<Event>, spec: seq<Event>, e: Event, f: Event, end: Mode)
    returns (m': nat)
    requires m <= p < |data| && RunModes(Closed, ops) == Some(end) && end != Carried
    requires Join(spec + [f]) == Join(out + [e])
    ensures m' <= p
    ensures
      var (es, ms) := RunOps(map[], ops, data, p);
      && ms == MarksOf(end, m')
      && Join(spec + ([f] + ByteEvents(None, ops, data[p]))) == Join(out + ([e] + es) + Pending(end, data[m'..p + 1]))
    decreases |ops|, 3
  {
    hide Join, RunModes;
    assert out + [e] + Pending(Closed, data[m..p]) == out + [e];
    m' := OpsAgree(Closed, m, ops, data, p, out + [e], spec + [f], end);
    var (es, ms) := RunOps(map[], ops, data, p);
    assert out + ([e] + es) == out + [e] + es;
    assert spec + ([f] + ByteEvents(None, ops, data[p])) == spec + [f] + ByteEvents(None, ops, data[p]);
  }

  lemma {:induction false} FlushAgrees(mode: Mode, m: nat, ops: seq<Op>, data: seq<byte>, p: nat,
                                       out: seq<Event>, spec: seq<Event>, end: Mode)
    returns (m': nat)
    requires |ops| > 0 && ops[0].Flush? && mode != Closed
    requires m <= p < |data| && RunModes(mode, ops) == Some(end) && end != Carried
    requires mode == Carried ==> m < p
    requires Join(spec) == Join(out + Pending(mode, data[m..p]))
    ensures m' <= p
    ensures
      var (es, ms) := RunOps(MarksOf(mode, m), ops, data, p);
      && ms == MarksOf(end, m')
      && Join(spec + ByteEvents(SpecOpen(mode), ops, data[p])) == Join(out + es + Pending(end, data[m'..p + 1]))
    decreases |ops|, 0
  {
    hide Join;
    var k, inclusive := ops[0].kind, ops[0].inclusive;
    var x := if inclusive then [data[p]] else [];
    var e := Data(k, data[m..if inclusive then p + 1 else p]);
    assert data[m..if inclusive then p + 1 else p] == data[m..p] + x;
    assert MarksOf(mode, m) - {k} == map[];
    match mode
    case Open(_) =>
      MoreData(k, data[m..p], x, out, spec);
      m' := ClosedAgrees(m, ops[1..], data, p, out, spec, e, Data(k, x), end);
    case Carried =>
      assert e == Data(Body, data[m..p]);
      assert out + [e] + Pending(Closed, data[m..p]) == out + [e];
      m' := OpsAgree(Closed, m, ops[1..], data, p, out + [e], spec, end);
      var (es, ms) := RunOps(map[], ops[1..], data, p);
      assert out + ([e] + es) == out + [e] + es;
  }
}
