/** http_parser_execute (common/http_parser.c:632-2046) over a parser object: one call,
    with positions for marks and whole stretches of input taken at once. */
module HttpExecute {
  import opened Common
  import opened HttpTypes
  import opened HttpSwitch
  import opened HttpInvariant
  import opened HttpRun
  import opened HttpSpec
  import opened HttpSync
  import opened HttpSize

  /** What a call must have done, given the reference run over its data. */
  ghost predicate Refines(r: Outcome, n: nat, p: Parser, errno: Errno, consumed: nat, fired: seq<Event>) {
    match r
    case Running(q, skip, events) => errno == OK && consumed == n && p == q && Join(fired) == Join(events)
    case Failed(e, at) => errno == e && consumed == at
    case Upgraded(q, events, at) => errno == OK && consumed == at && p == q && Join(fired) == Join(events)
  }

  lemma SwitchEnds(p: Parser, skip: bool, ch: byte, hc: Settings)
    requires Valid(p)
    ensures
      var m := Switch(p, skip, ch, hc);
      && (m.fin.Fail? ==> m.fin.errno != OK && m.fin.errno != HEADER_OVERFLOW)
      && (!m.fin.Fail? ==> Valid(m.p) && (m.p.state == ChunkSizeStart ==> m.clear))
  {
    hide Switch, Valid, RunModes;
    SwitchLeads(p, skip, ch, hc, EntryMode(p.state));
  }

  /** A line end leaves the states of a header value. */
  lemma LineEndLeaves(p: Parser, skip: bool, ch: byte, hc: Settings)
    requires p.state == HeaderValue ==> ch == CR || ch == LF
    ensures var m := Switch(p, skip, ch, hc); !(InGeneral(p) && InGeneral(m.p))
    ensures Switch(p, skip, ch, hc) == Switch(p, false, ch, hc)
  {
    if p.state == HeaderValue {
      assert Switch(p, skip, ch, hc) == OnHeaderValue(p, ch, skip, hc);
      assert OnHeaderAlmostDone(p.(state := HeaderAlmostDone), LF).p.state == HeaderValueLws;
    } else {
      NotSkipped(p, skip, ch, hc);
    }
  }

  lemma ValueCr(p: Parser, hc: Settings)
    requires p.state == HeaderValue
    ensures
      var m := Switch(p, false, CR, hc);
      m.fin.Next? && !m.clear && m.p.state == HeaderAlmostDone
  {
    assert Switch(p, false, CR, hc) == OnHeaderValue(p, CR, false, hc);
  }

  lemma NotSkipped(p: Parser, skip: bool, ch: byte, hc: Settings)
    requires p.state != HeaderValue
    ensures Switch(p, skip, ch, hc) == Switch(p, false, ch, hc)
  {
  }

  /** One more character of a header name. */
  lemma FieldByte(c0: Parser, data: seq<byte>, hc: Settings, j: nat, q: Parser, skip: bool, m: nat, out: seq<Event>)
    requires m <= j < |data| && Valid(c0) && Valid(q) && q.state == HeaderField && Token(data[j]) != 0
    requires Sync(c0, data, hc, j, q, skip, Open(Field), m, out)
    ensures
      var q1 := FieldChar(q, data[j], Token(data[j]));
      Valid(q1) && q1.state == HeaderField && Sync(c0, data, hc, j + 1, q1, false, Open(Field), m, out)
  {
    hide Valid, Sync, Token, Join, Run, FieldChar;
    var q1 := FieldChar(q, data[j], Token(data[j]));
    assert Switch(q, skip, data[j], hc) == Go(q1);
    var mode', m' := SyncByte(c0, data, hc, j, q, skip, Open(Field), m, out);
    SameMarks(Open(Field), m, mode', m');
    assert out + [] == out;
    FieldCharState(q, data[j]);
  }

  lemma FieldTally(c0: Parser, n0: nat, data: seq<byte>, hc: Settings, j: nat, q: Parser, skip: bool, m: nat, out: seq<Event>)
    requires m <= j < |data| && Valid(c0) && Valid(q) && q.state == HeaderField && Token(data[j]) != 0
    requires Sync(c0, data, hc, j, q, skip, Open(Field), m, out)
    ensures Tally(c0, n0, data[..j + 1], hc) == Tally(c0, n0, data[..j], hc) + 1
  {
    hide Valid, Sync, Token, Run, FieldChar, Tally;
    SyncRun(c0, data, hc, j, q, skip, Open(Field), m, out);
    var q1 := FieldChar(q, data[j], Token(data[j]));
    assert Switch(q, skip, data[j], hc) == Go(q1);
    hide Switch;
    CountedByte(c0, n0, data, j, q, skip, q1, hc);
  }

  lemma FieldCharState(p: Parser, ch: byte)
    ensures FieldChar(p, ch, Token(ch)).state == p.state
  {
    hide Token;
  }

  /** One more character of a header value, its character class checked. */
  lemma ValueByte(c0: Parser, data: seq<byte>, hc: Settings, j: nat, q: Parser, m: nat, out: seq<Event>)
    requires m <= j < |data| && Valid(c0) && Valid(q) && q.state == HeaderValue
    requires data[j] != CR && data[j] != LF && (hc.lenient || IsHeaderChar(data[j])) && ValueChar(q, data[j]).1 == OK
    requires Sync(c0, data, hc, j, q, false, Open(Value), m, out)
    ensures
      var q1 := ValueChar(q, data[j]).0;
      && Valid(q1) && q1.state == HeaderValue
      && Sync(c0, data, hc, j + 1, q1, InGeneral(q) && InGeneral(q1), Open(Value), m, out)
  {
    hide Valid, Sync, Join, Run, ValueChar, IsHeaderChar;
    var q1 := ValueChar(q, data[j]).0;
    assert Switch(q, false, data[j], hc) == Go(q1);
    var mode', m' := SyncByte(c0, data, hc, j, q, false, Open(Value), m, out);
    SameMarks(Open(Value), m, mode', m');
    assert out + [] == out;
    ValueCharState(q, data[j]);
  }

  lemma ValueTally(c0: Parser, n0: nat, data: seq<byte>, hc: Settings, j: nat, q: Parser, m: nat, out: seq<Event>)
    requires m <= j < |data| && Valid(c0) && Valid(q) && q.state == HeaderValue
    requires data[j] != CR && data[j] != LF && (hc.lenient || IsHeaderChar(data[j])) && ValueChar(q, data[j]).1 == OK
    requires Sync(c0, data, hc, j, q, false, Open(Value), m, out)
    ensures Tally(c0, n0, data[..j + 1], hc) == Tally(c0, n0, data[..j], hc) + 1
  {
    hide Valid, Sync, Join, Run, ValueChar, IsHeaderChar, Tally;
    SyncRun(c0, data, hc, j, q, false, Open(Value), m, out);
    var q1 := ValueChar(q, data[j]).0;
    assert Switch(q, false, data[j], hc) == Go(q1);
    hide Switch;
    CountedByte(c0, n0, data, j, q, false, q1, hc);
  }

  /** And all the bytes up to t, when the value is of no interest. */
  lemma StretchTally(c0: Parser, n0: nat, data: seq<byte>, hc: Settings, j: nat, t: nat, q: Parser, m: nat, out: seq<Event>)
    requires m <= j < t <= |data| && Valid(c0) && Valid(q) && InGeneral(q)
    requires Sync(c0, data, hc, j + 1, q, true, Open(Value), m, out)
    requires forall k :: j < k < t ==> data[k] != CR && data[k] != LF
    ensures Run(c0, data[..t], hc, true).Running?
    ensures Tally(c0, n0, data[..t], hc) == Tally(c0, n0, data[..j + 1], hc) + (t - j - 1)
  {
    hide Valid, Sync, Run, Tally;
    SyncRun(c0, data, hc, j + 1, q, true, Open(Value), m, out);
    JumpTally(c0, n0, data, j + 1, t, q, hc);
  }

  lemma GeneralByte(p: Parser, ch: byte)
    requires p.headerState == General
    ensures ValueChar(p, ch) == (p, OK)
  {
  }

  lemma ValueCharState(p: Parser, ch: byte)
    requires Valid(p) && p.state == HeaderValue
    ensures ValueChar(p, ch).0.state == p.state
  {
    hide ValueChar;
    ValueCharValid(p, ch);
  }

  /** A header value character that is an error. */
  lemma ValueError(c0: Parser, data: seq<byte>, hc: Settings, j: nat, q: Parser, m: nat, out: seq<Event>)
    requires m <= j < |data| && Valid(c0) && Valid(q) && q.state == HeaderValue
    requires data[j] != CR && data[j] != LF
    requires Sync(c0, data, hc, j, q, false, Open(Value), m, out)
    ensures !hc.lenient && !IsHeaderChar(data[j]) ==> Run(c0, data, hc, true) == Failed(INVALID_HEADER_TOKEN, j)
    ensures (hc.lenient || IsHeaderChar(data[j])) && ValueChar(q, data[j]).1 != OK ==>
              Run(c0, data, hc, true) == Failed(ValueChar(q, data[j]).1, j)
  {
    hide Valid, Sync, Join, Run, ValueChar, IsHeaderChar, RunOps;
    if !hc.lenient && !IsHeaderChar(data[j]) {
      assert Switch(q, false, data[j], hc) == Stop(q, INVALID_HEADER_TOKEN);
      SyncLast(c0, data, hc, j, q, false, Open(Value), m, out);
    } else if ValueChar(q, data[j]).1 != OK {
      assert Switch(q, false, data[j], hc) == Stop(ValueChar(q, data[j]).0, ValueChar(q, data[j]).1);
      SyncLast(c0, data, hc, j, q, false, Open(Value), m, out);
    }
  }

  /** memchr(&data[from], c, limit): the index of the first c, or -1. */
  method MemChr(data: seq<byte>, from: nat, limit: nat, c: byte) returns (r: int)
    requires from + limit <= |data|
    ensures r == -1 ==> forall k :: from <= k < from + limit ==> data[k] != c
    ensures r != -1 ==> from <= r < from + limit && data[r] == c && forall k :: from <= k < r ==> data[k] != c
  {
    r := from;
    while r < from + limit
      invariant from <= r <= from + limit
      invariant forall k :: from <= k < r ==> data[k] != c
    {
      if data[r] == c {
        return;
      }
      r := r + 1;
    }
    r := -1;
  }

  /** Where the h_general case continues: the first line end within the limit, or the end
      of the data. */
  method LineEnd(data: seq<byte>, j: nat) returns (t: nat)
    requires j < |data| && data[j] != CR && data[j] != LF
    ensures j < t <= |data|
    ensures t < |data| ==> data[t] == CR || data[t] == LF
    ensures t < |data| || |data| - j <= HTTP_MAX_HEADER_SIZE ==>
              forall k :: j <= k < t ==> data[k] != CR && data[k] != LF
    ensures forall k :: j <= k < t && k < j + HTTP_MAX_HEADER_SIZE ==> data[k] != CR && data[k] != LF
  {
    var limit := if |data| - j < HTTP_MAX_HEADER_SIZE then |data| - j else HTTP_MAX_HEADER_SIZE;
    var cr := MemChr(data, j, limit, CR);
    var lf := MemChr(data, j, limit, LF);
    if cr != -1 {
      if lf != -1 && cr >= lf {
        t := lf;
      } else {
        t := cr;
      }
    } else if lf != -1 {
      t := lf;
    } else {
      t := |data|;
    }
  }

  lemma NotEmptyStretch(data: seq<byte>, i: nat, j: nat)
    requires i < |data| && j == |data|
    ensures i < j
  {
  }

  lemma ErrorKind(c0: Parser, data: seq<byte>, hc: Settings, e: Errno, at: nat)
    requires Valid(c0) && Run(c0, data, hc, true) == Failed(e, at)
    ensures e != OK && e != HEADER_OVERFLOW
  {
    RunErrors(c0, data, hc);
  }

  lemma {:induction false} RunErrors(c0: Parser, data: seq<byte>, hc: Settings)
    requires Valid(c0)
    ensures var r := Run(c0, data, hc, true); r.Failed? ==> r.errno != OK && r.errno != HEADER_OVERFLOW
    decreases |data|
  {
    hide Switch, Valid;
    if |data| > 0 {
      var n := |data| - 1;
      RunErrors(c0, data[..n], hc);
      var r := Run(c0, data[..n], hc, true);
      if r.Running? {
        SwitchEnds(r.p, r.skip, data[n], hc);
      }
    }
  }

  /** The assertions of the body states. */
  lemma BodyAsserts(p: Parser)
    requires Valid(p)
    ensures p.state == BodyIdentity || p.state == ChunkData ==> p.contentLength != 0 && p.contentLength != ULLONG_MAX
    ensures p.state == ChunkData ==> p.flags.chunked
  {
  }

  /** The source asserts that at most one mark is left at the end of the data. */
  lemma OneMark(mode: Mode, m: nat)
    ensures |MarksOf(mode, m)| <= 1
    ensures forall k :: k in MarksOf(mode, m) <==> mode != Closed && k == (if mode.Open? then mode.kind else Body)
  {
  }

  function EntryMarks(s: State): Marks {
    MarksOf(EntryMode(s), 0)
  }

  /** Some beginning of the data is as long as a head may be. */
  ghost predicate Overlong(c0: Parser, n0: nat, data: seq<byte>, hc: Settings)
    requires Valid(c0)
  {
    exists k {:trigger data[..k]} :: 0 <= k <= |data| && Run(c0, data[..k], hc, true).Running?
                                     && Tally(c0, n0, data[..k], hc) >= HTTP_MAX_HEADER_SIZE
  }

  lemma OverlongAt(c0: Parser, n0: nat, data: seq<byte>, hc: Settings, k: nat)
    requires Valid(c0) && k <= |data| && Run(c0, data[..k], hc, true).Running?
    requires Tally(c0, n0, data[..k], hc) >= HTTP_MAX_HEADER_SIZE
    ensures Overlong(c0, n0, data, hc)
  {
    hide Valid, Run, Tally;
  }

  lemma OverlongBound(c0: Parser, n0: nat, data: seq<byte>, hc: Settings)
    requires Valid(c0) && Overlong(c0, n0, data, hc)
    ensures n0 + |data| >= HTTP_MAX_HEADER_SIZE
  {
    hide Valid, Run, Tally;
    var k :| 0 <= k <= |data| && Run(c0, data[..k], hc, true).Running? && Tally(c0, n0, data[..k], hc) >= HTTP_MAX_HEADER_SIZE;
    TallyBound(c0, n0, data[..k], hc);
  }

  /** A call in progress: the record, counter and callbacks it began with, and its arguments. */
  datatype Call = Call(c0: Parser, n0: nat, base: seq<Event>, data: seq<byte>, hc: Settings)

  /** The states in which the input may end. */
  predicate BetweenMessages(s: State) {
    s.Dead? || s.StartReqOrRes? || s.StartRes? || s.StartReq?
  }

  class HttpParser {
    /** struct http_parser, its byte counter and its error code. */
    var p: Parser
    var nread: nat
    var errno: Errno
    /** The callbacks made so far. */
    var log: seq<Event>

    /** What holds between calls unless an error was reported. */
    ghost predicate Ready()
      reads this
    {
      errno == OK ==> Valid(p) && nread <= HTTP_MAX_HEADER_SIZE && (p.state == ChunkSizeStart ==> nread == 0)
    }

    /** http_parser_init on cleared memory */
    constructor (t: ParserType)
      ensures Ready() && errno == OK && nread == 0 && log == [] && p == Initial(t)
    {
      p := Initial(t);
      nread := 0;
      errno := OK;
      log := [];
    }

    /** COUNT_HEADER_SIZE(v) */
    method Count(v: nat) returns (overflow: bool)
      modifies this`nread, this`errno
      ensures nread == old(nread) + v
      ensures overflow == (nread > HTTP_MAX_HEADER_SIZE)
      ensures errno == if overflow then HEADER_OVERFLOW else old(errno)
    {
      nread := nread + v;
      overflow := nread > HTTP_MAX_HEADER_SIZE;
      if overflow {
        errno := HEADER_OVERFLOW;
      }
    }

    /** The mark and callback macros of one byte, in order. */
    method Apply(ops: seq<Op>, data: seq<byte>, i: nat, marks: Marks) returns (marks': Marks)
      requires i < |data| && forall k :: k in marks ==> marks[k] <= i
      modifies this`log
      ensures log == old(log) + RunOps(marks, ops, data, i).0 && marks' == RunOps(marks, ops, data, i).1
    {
      marks' := marks;
      var n := 0;
      while n < |ops|
        invariant 0 <= n <= |ops|
        invariant forall k :: k in marks' ==> marks'[k] <= i
        invariant log + RunOps(marks', ops[n..], data, i).0 == old(log) + RunOps(marks, ops, data, i).0
        invariant RunOps(marks', ops[n..], data, i).1 == RunOps(marks, ops, data, i).1
      {
        assert ops[n..][1..] == ops[n + 1..];
        match ops[n] {
          case Mark(k) =>
            if k !in marks' {
              marks' := marks'[k := i];
            }
          case Flush(k, inclusive) =>
            if k in marks' {
              log := log + [Data(k, data[marks'[k]..if inclusive then i + 1 else i])];
              marks' := marks' - {k};
            }
          case Fire(e) =>
            log := log + [e];
        }
        n := n + 1;
      }
    }

    /** The loop of s_header_field: name characters from i on. */
    method ScanField(data: seq<byte>, i: nat, hc: Settings,
                     ghost c0: Parser, ghost n0: nat, ghost skip: bool, ghost m: nat, ghost out: seq<Event>)
      returns (j: nat)
      requires m <= i < |data| && Valid(c0) && Valid(p) && p.state == HeaderField
      requires Sync(c0, data, hc, i, p, skip, Open(Field), m, out)
      modifies this`p
      ensures i <= j <= |data| && Valid(p) && p.state == HeaderField
      ensures j < |data| ==> Token(data[j]) == 0
      ensures Sync(c0, data, hc, j, p, if j == i then skip else false, Open(Field), m, out)
      ensures Tally(c0, n0, data[..j], hc) == Tally(c0, n0, data[..i], hc) + (j - i)
    {
      hide Valid, Sync, Token, RunModes, Join, Run, Tally, Switch;
      j := i;
      while j < |data| && Token(data[j]) != 0
        invariant i <= j <= |data| && Valid(p) && p.state == HeaderField
        invariant Sync(c0, data, hc, j, p, if j == i then skip else false, Open(Field), m, out)
        invariant Tally(c0, n0, data[..j], hc) == Tally(c0, n0, data[..i], hc) + (j - i)
      {
        FieldTally(c0, n0, data, hc, j, p, if j == i then skip else false, m, out);
        FieldByte(c0, data, hc, j, p, if j == i then skip else false, m, out);
        p := FieldChar(p, data[j], Token(data[j]));
        j := j + 1;
      }
    }
  
    /** The loop of s_header_value, up to a line end, an error or the end of the data.
        Within the bytes memchr can miss, counted is too large for a header. */
    method ScanValue(data: seq<byte>, i: nat, hc: Settings, ghost c0: Parser, ghost n0: nat, ghost m: nat, ghost out: seq<Event>)
      returns (j: nat, err: Errno, ghost skip: bool, ghost synced: bool)
      requires m <= i < |data| && Valid(c0) && Valid(p) && p.state == HeaderValue
      requires Sync(c0, data, hc, i, p, false, Open(Value), m, out)
      modifies this`p
      ensures i <= j <= |data|
      ensures err != OK ==> synced && j < |data| && Run(c0, data, hc, true) == Failed(err, j)
      ensures err == OK && synced ==> Valid(p) && p.state == HeaderValue && (j < |data| ==> data[j] == CR || data[j] == LF)
      ensures err == OK && synced ==> Sync(c0, data, hc, j, p, skip, Open(Value), m, out)
      ensures err == OK && synced ==> Tally(c0, n0, data[..j], hc) == Tally(c0, n0, data[..i], hc) + (j - i)
      ensures !synced ==> err == OK && j == |data| && |data| - i > HTTP_MAX_HEADER_SIZE
      ensures !synced ==> Overlong(c0, n0, data, hc)
    {
      hide Valid, Sync, RunModes, Join, Run, ValueChar, IsHeaderChar, Switch, Tally, Overlong;
      j, err, skip, synced := i, OK, false, true;
      while j < |data| && data[j] != CR && data[j] != LF
        invariant i <= j <= |data| && err == OK && synced && Valid(p) && p.state == HeaderValue
        invariant Sync(c0, data, hc, j, p, skip, Open(Value), m, out)
        invariant skip ==> j == |data| || data[j] == CR || data[j] == LF
        invariant Tally(c0, n0, data[..j], hc) == Tally(c0, n0, data[..i], hc) + (j - i)
      {
        if !hc.lenient && !IsHeaderChar(data[j]) {
          ValueError(c0, data, hc, j, p, m, out);
          err := INVALID_HEADER_TOKEN;
          return;
        }
        var (q, e) := ValueChar(p, data[j]);
        if p.headerState == General {
          var t := LineEnd(data, j);
          GeneralByte(p, data[j]);
          ValueByte(c0, data, hc, j, p, m, out);
          ValueTally(c0, n0, data, hc, j, p, m, out);
          if t == |data| && |data| - j > HTTP_MAX_HEADER_SIZE {
            StretchTally(c0, n0, data, hc, j, j + HTTP_MAX_HEADER_SIZE, p, m, out);
            OverlongAt(c0, n0, data, hc, j + HTTP_MAX_HEADER_SIZE);
            j, synced := t, false;
            return;
          }
          StretchTally(c0, n0, data, hc, j, t, p, m, out);
          SyncJump(c0, data, hc, j + 1, t, p, m, out);
          j, skip := t, true;
        } else {
          if e != OK {
            ValueError(c0, data, hc, j, p, m, out);
            p, err := q, e;
            return;
          }
          ValueByte(c0, data, hc, j, p, m, out);
          ValueTally(c0, n0, data, hc, j, p, m, out);
          p, j := q, j + 1;
          skip := false;
        }
      }
    }
  
    // ----- one turn of the main loop -----

    /** The state of the main loop before byte i. */
    ghost predicate InLoop(c: Call, i: nat, marks: Marks, mode: Mode, m: nat, skip: bool)
      reads this`p, this`log
    {
      && Valid(p) && Valid(c.c0) && c.base <= log
      && Sync(c.c0, c.data, c.hc, i, p, skip, mode, m, log[|c.base|..])
      && marks == MarksOf(mode, m)
    }

    /** memchr's jumps end at a line end or at the end of the data. */
    ghost predicate Going(c: Call, i: nat, skip: bool)
      reads this`errno
    {
      errno == OK && i <= |c.data| && (i < |c.data| ==> !skip)
    }

    /** nread between two turns: the bytes that count, and one more if the data ended inside
        a header field or value. */
    ghost predicate Counted(c: Call, i: nat)
      requires Valid(c.c0) && i <= |c.data|
      reads this`nread, this`p
    {
      var t := Tally(c.c0, c.n0, c.data[..i], c.hc);
      && t <= nread <= t + (if i == |c.data| then 1 else 0)
      && nread <= HTTP_MAX_HEADER_SIZE
      && (p.state == ChunkSizeStart ==> nread == 0)
    }

    /** nread after the count of byte i: exactly the bytes that count. */
    ghost predicate CountedAt(c: Call, i: nat)
      requires Valid(c.c0) && i < |c.data|
      reads this`nread, this`p
    {
      && nread == Tally(c.c0, c.n0, c.data[..i], c.hc) + (if ParsingHeader(p.state) then 1 else 0)
      && nread <= HTTP_MAX_HEADER_SIZE
    }

    /** How a turn may end the call. */
    ghost predicate Ended(c: Call, i: nat)
      reads this
    {
      && c.base <= log && Valid(c.c0) && i <= |c.data|
      && if errno == HEADER_OVERFLOW then Overlong(c.c0, c.n0, c.data, c.hc)
         else (&& Refines(Run(c.c0, c.data, c.hc, true), |c.data|, p, errno, i, log[|c.base|..])
               && (errno == OK ==> Valid(p) && Counted(c, i)))
    }

    /** Every state that takes one byte at a time. */
    method TakeByte(hc: Settings, data: seq<byte>, i: nat, marks: Marks,
                    ghost c: Call, ghost mode: Mode, ghost m: nat, ghost skip: bool)
      returns (marks': Marks, done: bool, i': nat, ghost mode': Mode, ghost m': nat, ghost skip': bool)
      requires c.data == data && c.hc == hc && i < |data|
      requires errno == OK && InLoop(c, i, marks, mode, m, skip)
      requires p.state == HeaderValue ==> data[i] == CR || data[i] == LF
      requires nread <= HTTP_MAX_HEADER_SIZE && (CountedAt(c, i) || (p.state == HeaderValue && data[i] == CR))
      modifies this
      ensures !done ==> i' == i + 1 && InLoop(c, i', marks', mode', m', skip') && Going(c, i', skip')
      ensures !done && old(CountedAt(c, i)) ==> Counted(c, i')
      ensures !done ==> p == Switch(old(p), false, data[i], hc).p
      ensures !done && old(p.state == HeaderValue && data[i] == CR) ==>
                nread == old(nread) && Tally(c.c0, c.n0, data[..i + 1], hc) == Tally(c.c0, c.n0, data[..i], hc) + 1
      ensures done ==> Ended(c, i')
    {
      hide Switch, Valid, Sync, Run, RunOps, Join, RunModes, MarksOf, Tally, Overlong, ParsingHeader;
      ByteTally(c, i, marks, mode, m, skip);
      SyncBounds(c.c0, data, hc, i, p, skip, mode, m, log[|c.base|..]);
      LineEndLeaves(p, skip, data[i], hc);
      SwitchEnds(p, false, data[i], hc);
      var mi := Switch(p, false, data[i], hc);
      ghost var out, q := log[|c.base|..], p;
      marks' := Apply(mi.ops, data, i, marks);
      assert log[|c.base|..] == out + RunOps(marks, mi.ops, data, i).0;
      mode', m', skip' := mode, m, false;
      if mi.fin.Next? {
        mode', m' := SyncByte(c.c0, data, hc, i, q, skip, mode, m, out);
      } else {
        SyncLast(c.c0, data, hc, i, q, skip, mode, m, out);
      }
      p := mi.p;
      if mi.clear {
        nread := 0;
      }
      match mi.fin {
        case Fail(e) => errno, done, i' := e, true, i;
        case Exit => done, i' := true, i + 1;
        case Next => done, i' := false, i + 1;
      }
    }
  
    lemma ByteTally(c: Call, i: nat, marks: Marks, mode: Mode, m: nat, skip: bool)
      requires i < |c.data| && InLoop(c, i, marks, mode, m, skip)
      requires p.state == HeaderValue ==> c.data[i] == CR || c.data[i] == LF
      ensures
        var mi, t := Switch(p, false, c.data[i], c.hc), Tally(c.c0, c.n0, c.data[..i], c.hc);
        && Tally(c.c0, c.n0, c.data[..i + 1], c.hc) == (if mi.clear then 0 else if ParsingHeader(p.state) then t + 1 else t)
        && (p.state == HeaderValue && c.data[i] == CR ==>
              mi.fin.Next? && mi.p.state == HeaderAlmostDone && !mi.clear && Tally(c.c0, c.n0, c.data[..i + 1], c.hc) == t + 1)
    {
      hide Switch, Valid, Sync, Run, Tally;
      SyncRun(c.c0, c.data, c.hc, i, p, skip, mode, m, log[|c.base|..]);
      TallyStep(c.c0, c.n0, c.data, i, c.hc);
      LineEndLeaves(p, skip, c.data[i], c.hc);
      if p.state == HeaderValue && c.data[i] == CR {
        ValueCr(p, c.hc);
      }
    }

    /** s_header_field: the name so far, then the byte that ends it. */
    method TakeField(hc: Settings, data: seq<byte>, i: nat, marks: Marks, ghost c: Call, ghost m: nat)
      returns (marks': Marks, done: bool, i': nat, ghost mode': Mode, ghost m': nat, ghost skip': bool)
      requires c.data == data && c.hc == hc && i < |data| && p.state == HeaderField
      requires errno == OK && InLoop(c, i, marks, Open(Field), m, false) && CountedAt(c, i)
      modifies this
      ensures !done ==> i < i' && InLoop(c, i', marks', mode', m', skip') && Going(c, i', skip') && Counted(c, i')
      ensures done ==> Ended(c, i')
    {
      hide Switch, Valid, Sync, Run, RunOps, Join, RunModes, MarksOf, Token, Tally, Overlong;
      SyncBounds(c.c0, data, hc, i, p, false, Open(Field), m, log[|c.base|..]);
      mode', m', skip' := Open(Field), m, false;
      var j := ScanField(data, i, hc, c.c0, c.n0, false, m, log[|c.base|..]);
      marks', i' := marks, j;
      done := Count(j - i);
      if done {
        SyncRun(c.c0, data, hc, j, p, false, Open(Field), m, log[|c.base|..]);
        OverlongAt(c.c0, c.n0, data, hc, j);
        return;
      }
      if j < |data| {
        marks', done, i', mode', m', skip' := TakeByte(hc, data, j, marks, c, Open(Field), m, false);
      } else {
        NotEmptyStretch(data, i, j);
      }
    }

    /** s_header_value: the value so far, then its line end if that is there. */
    method TakeValue(hc: Settings, data: seq<byte>, i: nat, marks: Marks, ghost c: Call, ghost m: nat)
      returns (marks': Marks, done: bool, i': nat, ghost mode': Mode, ghost m': nat, ghost skip': bool)
      requires c.data == data && c.hc == hc && i < |data| && p.state == HeaderValue
      requires errno == OK && InLoop(c, i, marks, Open(Value), m, false) && CountedAt(c, i)
      modifies this
      ensures !done ==> i < i' && InLoop(c, i', marks', mode', m', skip') && Going(c, i', skip') && Counted(c, i')
      ensures done ==> Ended(c, i')
    {
      hide Switch, Valid, Sync, Run, RunOps, Join, RunModes, MarksOf, Tally, Overlong;
      SyncBounds(c.c0, data, hc, i, p, false, Open(Value), m, log[|c.base|..]);
      mode', m' := Open(Value), m;
      ghost var synced: bool;
      var j, err;
      j, err, skip', synced := ScanValue(data, i, hc, c.c0, c.n0, m, log[|c.base|..]);
      marks', i' := marks, j;
      if err != OK {
        errno, done := err, true;
        ErrorKind(c.c0, data, hc, err, j);
        return;
      }
      if synced {
        SyncRun(c.c0, data, hc, j, p, skip', Open(Value), m, log[|c.base|..]);
      }
      if j < |data| && data[j] == CR {
        // the callback precedes the count here
        ValueCr(p, hc);
        marks', done, i', mode', m', skip' := TakeByte(hc, data, j, marks, c, Open(Value), m, skip');
        if !done {
          done := Count(j - i);
          if done {
            SyncRun(c.c0, data, hc, j + 1, p, skip', mode', m', log[|c.base|..]);
            OverlongAt(c.c0, c.n0, data, hc, j + 1);
          }
        }
      } else {
        done := Count(j - i);
        if done && synced {
          OverlongAt(c.c0, c.n0, data, hc, j);
        }
        if !done && j < |data| {
          marks', done, i', mode', m', skip' := TakeByte(hc, data, j, marks, c, Open(Value), m, skip');
        }
      }
    }

    /** A stretch of a body is not counted. */
    lemma StillCounted(c: Call, i: nat, t: nat, marks: Marks, mode: Mode, m: nat)
      requires i + t <= |c.data| && InLoop(c, i, marks, mode, m, false) && InBodyState(p, t)
      ensures Tally(c.c0, c.n0, c.data[..i + t], c.hc) == Tally(c.c0, c.n0, c.data[..i], c.hc)
    {
      hide Valid, Sync, Run, Tally;
      SyncRun(c.c0, c.data, c.hc, i, p, false, mode, m, log[|c.base|..]);
      BodyTally(c.c0, c.n0, c.data, i, t, c.hc);
    }

    /** s_body_identity_eof: everything to the end of the data. */
    method TakeRest(hc: Settings, data: seq<byte>, i: nat, marks: Marks, ghost c: Call, ghost mode: Mode, ghost m: nat)
      returns (marks': Marks, i': nat, ghost mode': Mode, ghost m': nat, ghost skip': bool)
      requires c.data == data && c.hc == hc && i < |data| && p.state == BodyIdentityEof
      requires errno == OK && InLoop(c, i, marks, mode, m, false) && Counted(c, i)
      ensures i' == |data| && InLoop(c, i', marks', mode', m', skip') && Going(c, i', skip') && Counted(c, i')
    {
      hide Switch, Valid, Sync, Run, RunOps, Join, RunModes, MarksOf, Tally;
      SyncBounds(c.c0, data, hc, i, p, false, mode, m, log[|c.base|..]);
      StillCounted(c, i, |data| - i, marks, mode, m);
      marks' := marks;
      if Body !in marks' {
        marks' := marks'[Body := i];
      }
      i' := |data|;
      skip' := false;
      BodyMarks(mode, m, i);
      mode', m' := SyncRest(c.c0, data, hc, i, p, mode, m, log[|c.base|..]);
    }

    /** s_chunk_data: the rest of the chunk, or of the data. */
    method TakeChunk(hc: Settings, data: seq<byte>, i: nat, marks: Marks, ghost c: Call, ghost mode: Mode, ghost m: nat)
      returns (marks': Marks, i': nat, ghost mode': Mode, ghost m': nat, ghost skip': bool)
      requires c.data == data && c.hc == hc && i < |data| && p.state == ChunkData
      requires errno == OK && InLoop(c, i, marks, mode, m, false) && Counted(c, i)
      modifies this`p
      ensures i < i' && InLoop(c, i', marks', mode', m', skip') && Going(c, i', skip') && Counted(c, i')
    {
      hide Switch, Valid, Sync, Run, RunOps, Join, RunModes, MarksOf, OpenKind, EntryMode, Boundary, BodyOpen, Tally;
      SyncBounds(c.c0, data, hc, i, p, false, mode, m, log[|c.base|..]);
      BodyAsserts(p);
      assert p.flags.chunked && p.contentLength != 0 && p.contentLength != ULLONG_MAX;
      var toRead := if p.contentLength < |data| - i then p.contentLength else |data| - i;
      ghost var out := log[|c.base|..];
      StillCounted(c, i, toRead, marks, mode, m);
      mode', m', skip' := SyncChunk(c.c0, data, hc, i, p, toRead, mode, m, out);
      marks' := marks;
      if Body !in marks' {
        marks' := marks'[Body := i];
      }
      var q := p.(contentLength := p.contentLength - toRead);
      if q.contentLength == 0 {
        q := q.(state := ChunkDataAlmostDone);
      }
      assert q.state != ChunkSizeStart;
      p := q;
      i' := i + toRead;
      assert log[|c.base|..] == out;
    }

    /** The end of s_body_identity: the callback one byte early, then s_message_done. */
    method FinishBody(hc: Settings, data: seq<byte>, i: nat, n: nat, marks: Marks,
                      ghost c: Call, ghost mode: Mode, ghost m: nat, ghost q: Parser, ghost out: seq<Event>)
      returns (marks': Marks, done: bool, ghost m': nat)
      requires c.data == data && c.hc == hc && errno == OK && Valid(c.c0) && c.base <= log
      requires out == log[|c.base|..] && m <= i < |data| && (mode == Closed || mode == Carried)
      requires Sync(c.c0, data, hc, i, q, false, mode, m, out) && Valid(q) && q.state == BodyIdentity
      requires n == i + q.contentLength <= |data| && p == q.(contentLength := 0)
      requires marks == map[Body := if mode == Closed then i else m]
      requires nread <= HTTP_MAX_HEADER_SIZE && nread == Tally(c.c0, c.n0, data[..n], hc)
      modifies this
      ensures !done ==> InLoop(c, n, marks', Closed, m', false) && Going(c, n, false) && Counted(c, n)
      ensures done ==> Ended(c, n)
    {
      hide Switch, Valid, Sync, Run, RunOps, Join, RunModes, Tally, Overlong;
      ghost var mode';
      mode', m' := SyncBodyEnd(c.c0, data, hc, i, q, mode, m, out);
      BodyLength(q);
      var mi := OnMessageDone(p.(state := MessageDone));
      assert p.(state := MessageDone) == q.(contentLength := 0, state := MessageDone);
      log := log + [Data(Body, data[marks[Body]..n])];
      marks' := marks - {Body};
      log := log + [MessageComplete];
      p := mi.p;
      assert log[|c.base|..] == out + [Data(Body, data[(if mode == Closed then i else m)..n]), MessageComplete];
      done := mi.fin == Exit;
      NewMessageState(q.(contentLength := 0, state := MessageDone));
    }

    /** s_body_identity: the rest of the body, or of the data. A body that ends hands over
        its data and completes the message on its last byte. */
    method TakeBody(hc: Settings, data: seq<byte>, i: nat, marks: Marks, ghost c: Call, ghost mode: Mode, ghost m: nat)
      returns (marks': Marks, done: bool, i': nat, ghost mode': Mode, ghost m': nat, ghost skip': bool)
      requires c.data == data && c.hc == hc && i < |data| && p.state == BodyIdentity
      requires errno == OK && InLoop(c, i, marks, mode, m, false) && Counted(c, i)
      modifies this
      ensures !done ==> i < i' && InLoop(c, i', marks', mode', m', skip') && Going(c, i', skip') && Counted(c, i')
      ensures done ==> Ended(c, i')
    {
      hide Switch, Valid, Sync, Run, RunOps, Join, RunModes, MarksOf, Ended, BodyOpen, Tally;
      SyncBounds(c.c0, data, hc, i, p, false, mode, m, log[|c.base|..]);
      ghost var q, out := p, log[|c.base|..];
      BodyAsserts(p);
      BodyMarks(mode, m, i);
      assert p.contentLength != 0 && p.contentLength != ULLONG_MAX;
      var toRead := if p.contentLength < |data| - i then p.contentLength else |data| - i;
      StillCounted(c, i, toRead, marks, mode, m);
      marks' := marks;
      if Body !in marks' {
        marks' := marks'[Body := i];
      }
      p := p.(contentLength := p.contentLength - toRead);
      i' := i + toRead;
      skip', done := false, false;
      if p.contentLength == 0 {
        mode' := Closed;
        marks', done, m' := FinishBody(hc, data, i, i', marks', c, mode, m, q, out);
      } else {
        mode', m', skip' := SyncBody(c.c0, data, hc, i, toRead, q, false, mode, m, out);
        assert p == q.(contentLength := q.contentLength - toRead) && i' == |data|;
        assert marks' == MarksOf(mode', m');
        BodyNotGeneral(c.c0, data, hc, i', p, skip', mode', m', out);
      }
    }
  
    lemma InLoopValid(c: Call, i: nat, marks: Marks, mode: Mode, m: nat, skip: bool)
      requires InLoop(c, i, marks, mode, m, skip)
      ensures Valid(p) && Valid(c.c0) && i <= |c.data|
    {
      hide Valid, Run, Join;
    }

    lemma EndedByOverflow(c: Call, i: nat, marks: Marks, mode: Mode, m: nat, skip: bool)
      requires i <= |c.data| && InLoop(c, i, marks, mode, m, skip)
      requires errno == HEADER_OVERFLOW && Tally(c.c0, c.n0, c.data[..i], c.hc) >= HTTP_MAX_HEADER_SIZE
      ensures Ended(c, i)
    {
      hide Sync, Valid, Run, Tally, Overlong;
      SyncRun(c.c0, c.data, c.hc, i, p, skip, mode, m, log[|c.base|..]);
      OverlongAt(c.c0, c.n0, c.data, c.hc, i);
    }

    /** One turn of the main loop: the count, then the switch. */
    method Turn(hc: Settings, data: seq<byte>, i: nat, marks: Marks, ghost c: Call, ghost mode: Mode, ghost m: nat)
      returns (marks': Marks, done: bool, i': nat, ghost mode': Mode, ghost m': nat, ghost skip': bool)
      requires c.data == data && c.hc == hc && i < |data|
      requires errno == OK && InLoop(c, i, marks, mode, m, false) && Counted(c, i)
      modifies this
      ensures !done ==> i < i' && InLoop(c, i', marks', mode', m', skip') && Going(c, i', skip') && Counted(c, i')
      ensures done ==> Ended(c, i')
    {
      hide Ended, InLoop, Switch, Valid, Sync, Run, Tally;
      InLoopValid(c, i, marks, mode, m, false);
      ModeOfState(c, i, marks, mode, m, false);
      marks', i', mode', m', skip', done := marks, i, mode, m, false, false;
      if ParsingHeader(p.state) {
        done := Count(1);
        if done {
          EndedByOverflow(c, i, marks, mode, m, false);
          return;
        }
      }
      if p.state == HeaderField {
        marks', done, i', mode', m', skip' := TakeField(hc, data, i, marks, c, m);
      } else if p.state == HeaderValue {
        marks', done, i', mode', m', skip' := TakeValue(hc, data, i, marks, c, m);
      } else if p.state == BodyIdentity {
        marks', done, i', mode', m', skip' := TakeBody(hc, data, i, marks, c, mode, m);
      } else if p.state == BodyIdentityEof {
        marks', i', mode', m', skip' := TakeRest(hc, data, i, marks, c, mode, m);
      } else if p.state == ChunkData {
        marks', i', mode', m', skip' := TakeChunk(hc, data, i, marks, c, mode, m);
      } else {
        assert p.state == ChunkSizeStart ==> nread == 1;
        marks', done, i', mode', m', skip' := TakeByte(hc, data, i, marks, c, mode, m, false);
      }
    }

    lemma ModeOfState(c: Call, i: nat, marks: Marks, mode: Mode, m: nat, skip: bool)
      requires InLoop(c, i, marks, mode, m, skip)
      ensures p.state == HeaderField ==> mode == Open(Field)
      ensures p.state == HeaderValue ==> mode == Open(Value)
    {
      hide Sync, Valid, Run;
      SyncBounds(c.c0, c.data, c.hc, i, p, skip, mode, m, log[|c.base|..]);
    }

    /** CALLBACK_DATA_NOADVANCE(kind) after the last byte. */
    method FlushMark(kind: Kind, data: seq<byte>, marks: Marks)
      requires forall k :: k in marks ==> marks[k] <= |data|
      modifies this`log
      ensures log == if kind in marks then old(log) + [Data(kind, data[marks[kind]..])] else old(log)
    {
      if kind in marks {
        log := log + [Data(kind, data[marks[kind]..])];
      }
    }

    /** The callbacks for the marks left over at the end of the data. */
    method FlushMarks(data: seq<byte>, marks: Marks, ghost mode: Mode, ghost m: nat)
      requires marks == MarksOf(mode, m) && m <= |data|
      modifies this`log
      ensures log == if mode == Closed then old(log)
                     else old(log) + [Data(if mode.Open? then mode.kind else Body, data[m..])]
    {
      OneMark(mode, m);
      hide MarksOf;
      assert |marks| <= 1;
      FlushMark(Field, data, marks);
      FlushMark(Value, data, marks);
      FlushMark(Url, data, marks);
      FlushMark(Body, data, marks);
      FlushMark(Status, data, marks);
    }

    /** The call at the end of the input, with no data. */
    method ExecuteEof() returns (consumed: nat)
      requires errno == OK
      modifies this`log, this`errno
      ensures errno == (if BetweenMessages(p.state) || p.state == BodyIdentityEof then OK else INVALID_EOF_STATE)
      ensures consumed == (if errno == OK then 0 else 1)
      ensures log == old(log) + (if p.state == BodyIdentityEof then [MessageComplete] else [])
    {
      consumed := 0;
      if p.state == BodyIdentityEof {
        log := log + [MessageComplete];
      } else if !BetweenMessages(p.state) {
        errno := INVALID_EOF_STATE;
        consumed := 1;
      }
    }

    /** http_parser_execute */
    method Execute(data: seq<byte>, hc: Settings) returns (consumed: nat)
      requires Ready()
      modifies this
      ensures Ready() && old(log) <= log
      ensures old(errno) != OK ==> consumed == 0 && errno == old(errno) && p == old(p) && log == old(log)
      ensures old(errno) == OK && |data| == 0 ==>
                && p == old(p) && nread == old(nread)
                && errno == (if BetweenMessages(p.state) || p.state == BodyIdentityEof then OK else INVALID_EOF_STATE)
                && consumed == (if errno == OK then 0 else 1)
                && log == old(log) + (if p.state == BodyIdentityEof then [MessageComplete] else [])
      ensures consumed <= |data| || |data| == 0
      ensures old(errno) == OK && |data| > 0 ==>
                if errno == HEADER_OVERFLOW then Overlong(old(p), old(nread), data, hc)
                else Refines(Run(old(p), data, hc, true), |data|, p, errno, consumed, log[|old(log)|..])
      ensures old(errno) == OK && |data| > 0 && errno == OK ==>
                var t := Tally(old(p), old(nread), data[..consumed], hc);
                t <= nread <= t + (if consumed == |data| then 1 else 0) && nread <= 80 * 1024
    {
      hide Switch, Valid, Sync, Run, RunOps, Join, RunModes, MarksOf;
      if errno != OK {
        return 0;
      }
      if |data| == 0 {
        consumed := ExecuteEof();
        return;
      }
      ghost var c := Call(p, nread, log, data, hc);
      var done: bool;
      consumed, done := Loop(data, hc, c);
    }

    method Loop(data: seq<byte>, hc: Settings, ghost c: Call) returns (i: nat, done: bool)
      requires Ready() && errno == OK && |data| > 0 && c == Call(p, nread, log, data, hc)
      modifies this
      ensures Ended(c, i)
    {
      hide Switch, Valid, Sync, Run, RunOps, Join, RunModes, MarksOf;
      ghost var mode, m: nat, skip := EntryMode(p.state), 0, false;
      var marks := EntryMarks(p.state);
      i, done := 0, false;
      SyncStart(p, data, hc);
      assert log[|c.base|..] == [];
      while i < |data| && !done
        invariant !done ==> InLoop(c, i, marks, mode, m, skip) && Going(c, i, skip) && Counted(c, i)
        invariant done ==> Ended(c, i)
        decreases if done then 0 else |data| - i + 1
      {
        marks, done, i, mode, m, skip := Turn(hc, data, i, marks, c, mode, m);
      }
      if !done {
        Finish(data, marks, c, mode, m, skip);
      }
    }

    method Finish(data: seq<byte>, marks: Marks, ghost c: Call, ghost mode: Mode, ghost m: nat, ghost skip: bool)
      requires |data| > 0 && c.data == data && errno == OK
      requires InLoop(c, |data|, marks, mode, m, skip) && Counted(c, |data|)
      modifies this`log
      ensures Ended(c, |data|)
    {
      hide Switch, Valid, Sync, Run, RunOps, Join, RunModes, MarksOf;
      ghost var out := log[|c.base|..];
      SyncBounds(c.c0, data, c.hc, |data|, p, skip, mode, m, out);
      SyncEnd(c.c0, data, c.hc, p, skip, mode, m, out);
      FlushMarks(data, marks, mode, m);
      assert log[|c.base|..] == if mode == Closed then out
                                else out + [Data(if mode.Open? then mode.kind else Body, data[m..])];
    }
  }
}
