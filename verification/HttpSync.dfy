/** The relation between http_parser_execute in the middle of its data and the reference
    run over the bytes consumed so far. */
module HttpSync {
  import opened Common
  import opened HttpTypes
  import opened HttpSwitch
  import opened HttpInvariant
  import opened HttpRun
  import opened HttpSpec

  /** The mode at a byte boundary in state s: the kind of data in progress, or a body mark
      set by an earlier byte of the call. */
  predicate Boundary(mode: Mode, s: State) {
    mode == EntryMode(s) || (mode == Carried && BodyOpen(s))
  }

  /** The call has consumed data[..i], reached q, emitted out, and holds the marks
      MarksOf(mode, m). */
  ghost predicate Sync(c0: Parser, data: seq<byte>, hc: Settings, i: nat,
                       q: Parser, skip: bool, mode: Mode, m: nat, out: seq<Event>)
    requires Valid(c0)
  {
    && i <= |data| && m <= i
    && Boundary(mode, q.state) && (mode != Closed ==> m < i || i == 0) && (mode == Carried ==> m < i)
    && var r := Run(c0, data[..i], hc, true);
       r.Running? && r.skip == skip && Meaning(r) == Meaning(Running(q, skip, out + Pending(mode, data[m..i])))
  }

  lemma SyncStart(c0: Parser, data: seq<byte>, hc: Settings)
    requires Valid(c0)
    ensures Sync(c0, data, hc, 0, c0, false, EntryMode(c0.state), 0, [])
  {
    hide Switch;
    assert data[..0] == [] && data[0..0] == [];
    var none: seq<Event> := [];
    assert none + [] == none;
  }

  /** One more byte that ends in break. */
  lemma SyncByte(c0: Parser, data: seq<byte>, hc: Settings, i: nat,
                 q: Parser, skip: bool, mode: Mode, m: nat, out: seq<Event>)
    returns (mode': Mode, m': nat)
    requires m <= i < |data| && Valid(c0) && Sync(c0, data, hc, i, q, skip, mode, m, out)
    requires Valid(q) && Switch(q, skip, data[i], hc).fin.Next?
    ensures
      var mi := Switch(q, skip, data[i], hc);
      var (es, ms) := RunOps(MarksOf(mode, m), mi.ops, data, i);
      && ms == MarksOf(mode', m')
      && Valid(mi.p)
      && Sync(c0, data, hc, i + 1, mi.p, InGeneral(q) && InGeneral(mi.p), mode', m', out + es)
  {
    hide Switch, Valid, Join, RunModes, RunOps, ByteEvents;
    var mi := Switch(q, skip, data[i], hc);
    var r := Run(c0, data[..i], hc, true);
    SwitchLeads(q, skip, data[i], hc, EntryMode(q.state));
    SwitchLeads(q, skip, data[i], hc, mode);
    RunOne(c0, data, i, hc, true);
    var end := RunModes(mode, mi.ops).value;
    m' := OpsAgree(mode, m, mi.ops, data, i, out, r.events, end);
    mode' := if end == Open(Body) then Carried else end;
    EntryAgrees(q.state, mode, mi.ops, data[i]);
  }

  /** A carried body mark is not part of the byte fed alone. */
  lemma EntryAgrees(s: State, mode: Mode, ops: seq<Op>, ch: byte)
    requires Boundary(mode, s)
    ensures ByteEvents(OpenKind(s), ops, ch) == ByteEvents(SpecOpen(mode), ops, ch)
  {
  }

  /** A byte that ends in an error, or in the exit after an upgrade. */
  lemma SyncLast(c0: Parser, data: seq<byte>, hc: Settings, i: nat,
                 q: Parser, skip: bool, mode: Mode, m: nat, out: seq<Event>)
    requires m <= i < |data| && Valid(c0) && Sync(c0, data, hc, i, q, skip, mode, m, out)
    requires Valid(q) && !Switch(q, skip, data[i], hc).fin.Next?
    ensures
      var mi := Switch(q, skip, data[i], hc);
      var (es, ms) := RunOps(MarksOf(mode, m), mi.ops, data, i);
      var r := Run(c0, data, hc, true);
      && (mi.fin.Fail? ==> r == Failed(mi.fin.errno, i))
      && (mi.fin.Exit? ==> r.Upgraded? && r.p == mi.p && r.at == i + 1 && Join(r.events) == Join(out + es))
  {
    hide Switch, Valid, Join, RunModes, RunOps, ByteEvents;
    var mi := Switch(q, skip, data[i], hc);
    var r := Run(c0, data[..i], hc, true);
    SwitchLeads(q, skip, data[i], hc, mode);
    RunOne(c0, data, i, hc, true);
    RunEnded(c0, data, i + 1, hc, true);
    if mi.fin.Exit? {
      var m' := OpsAgree(mode, m, mi.ops, data, i, out, r.events, Closed);
      EntryAgrees(q.state, mode, mi.ops, data[i]);
      var (es, ms) := RunOps(MarksOf(mode, m), mi.ops, data, i);
      assert out + es + [] == out + es;
    }
  }

  /** The end of the data: what is pending is handed over. */
  lemma SyncEnd(c0: Parser, data: seq<byte>, hc: Settings,
                q: Parser, skip: bool, mode: Mode, m: nat, out: seq<Event>)
    requires Valid(c0) && Sync(c0, data, hc, |data|, q, skip, mode, m, out) && |data| > 0
    ensures
      var r := Run(c0, data, hc, true);
      && r.Running? && r.p == q
      && Join(r.events) == Join(if mode == Closed then out
                                else out + [Data(if mode.Open? then mode.kind else Body, data[m..])])
  {
    hide Switch, Run, Join;
    assert data[..|data|] == data;
    assert data[m..|data|] == data[m..];
    assert out + [] == out;
  }

  // ----- stretches of bytes handled at once -----

  /** memchr's jump: bytes of a header value of no interest change nothing. */
  lemma {:induction false} SyncJump(c0: Parser, data: seq<byte>, hc: Settings, i: nat, j: nat,
                                    q: Parser, m: nat, out: seq<Event>)
    requires Valid(c0) && i <= j <= |data| && Valid(q) && InGeneral(q)
    requires Sync(c0, data, hc, i, q, true, Open(Value), m, out)
    requires forall k :: i <= k < j ==> data[k] != CR && data[k] != LF
    ensures Sync(c0, data, hc, j, q, true, Open(Value), m, out)
    decreases j - i
  {
    hide Sync, Valid, Join;
    if i < j {
      assert Switch(q, true, data[i], hc) == Go(q);
      SyncBounds(c0, data, hc, i, q, true, Open(Value), m, out);
      var mode', m' := SyncByte(c0, data, hc, i, q, true, Open(Value), m, out);
      SameMarks(Open(Value), m, mode', m');
      assert out + [] == out;
      SyncJump(c0, data, hc, i + 1, j, q, m, out);
    }
  }

  lemma SameMarks(mode: Mode, m: nat, mode': Mode, m': nat)
    requires MarksOf(mode, m) == MarksOf(mode', m')
    ensures mode != Closed ==> m == m' && mode' != Closed
    ensures mode == Closed ==> mode' == Closed
    ensures mode.Open? && mode.kind != Body ==> mode' == mode
  {
    if mode != Closed {
      var k := if mode.Open? then mode.kind else Body;
      assert MarksOf(mode, m)[k] == m;
      assert k in MarksOf(mode', m');
    }
    if mode' != Closed {
      var k := if mode'.Open? then mode'.kind else Body;
      assert k in MarksOf(mode, m);
    }
  }

  lemma SyncBounds(c0: Parser, data: seq<byte>, hc: Settings, i: nat,
                   q: Parser, skip: bool, mode: Mode, m: nat, out: seq<Event>)
    requires Valid(c0) && Sync(c0, data, hc, i, q, skip, mode, m, out)
    ensures m <= i <= |data| && Valid(q) && Boundary(mode, q.state)
  {
    hide Switch, Join;
  }

  lemma SyncRun(c0: Parser, data: seq<byte>, hc: Settings, i: nat,
                q: Parser, skip: bool, mode: Mode, m: nat, out: seq<Event>)
    requires Valid(c0) && Sync(c0, data, hc, i, q, skip, mode, m, out)
    ensures i <= |data| && Run(c0, data[..i], hc, true).Running?
    ensures Run(c0, data[..i], hc, true).p == q && Run(c0, data[..i], hc, true).skip == skip
  {
    hide Switch, Join, Run, Valid;
  }

  /** One byte of a body that does not end with it. */
  lemma SyncBodyByte(c0: Parser, data: seq<byte>, hc: Settings, i: nat,
                     q: Parser, skip: bool, mode: Mode, m: nat, out: seq<Event>)
    returns (mode': Mode, m': nat)
    requires m <= i < |data| && Valid(c0) && Sync(c0, data, hc, i, q, skip, mode, m, out)
    requires Valid(q) && (q.state == BodyIdentity || q.state == ChunkData) && q.contentLength > 1
    ensures Valid(q.(contentLength := q.contentLength - 1))
    ensures m' <= i + 1
    ensures Sync(c0, data, hc, i + 1, q.(contentLength := q.contentLength - 1), false, mode', m', out)
    ensures mode' != Closed
    ensures MarksOf(mode', m') == if mode == Closed then map[Body := i] else MarksOf(mode, m)
  {
    hide Sync, Join, Run, Switch, RunOps;
    var q1 := q.(contentLength := q.contentLength - 1);
    MoreBodyByte(q, skip, data[i], hc);
    SyncBounds(c0, data, hc, i, q, skip, mode, m, out);
    mode', m' := SyncByte(c0, data, hc, i, q, skip, mode, m, out);
    MarkBody(mode, m, data, i);
    assert out + [] == out;
    SyncBounds(c0, data, hc, i + 1, q1, false, mode', m', out);
    assert mode' != Closed by {
      assert Body in MarksOf(mode', m');
    }
  }

  lemma MarkBody(mode: Mode, m: nat, data: seq<byte>, i: nat)
    requires m <= i < |data| && (mode == Closed || mode == Carried)
    ensures RunOps(MarksOf(mode, m), [Mark(Body)], data, i) ==
            ([], if mode == Closed then map[Body := i] else MarksOf(mode, m))
  {
    assert [Mark(Body)][1..] == [];
  }

  /** t bytes of a body that does not end with them. */
  lemma {:induction false} SyncBody(c0: Parser, data: seq<byte>, hc: Settings, i: nat, t: nat,
                                    q: Parser, skip: bool, mode: Mode, m: nat, out: seq<Event>)
    returns (mode': Mode, m': nat, skip': bool)
    requires m <= i && Valid(c0) && Sync(c0, data, hc, i, q, skip, mode, m, out)
    requires Valid(q) && (q.state == BodyIdentity || q.state == ChunkData)
    requires i + t <= |data| && t < q.contentLength
    ensures m' <= i + t
    ensures Valid(q.(contentLength := q.contentLength - t))
    ensures Sync(c0, data, hc, i + t, q.(contentLength := q.contentLength - t), skip', mode', m', out)
    ensures t > 0 ==> mode' != Closed && MarksOf(mode', m') == (if mode == Closed then map[Body := i] else MarksOf(mode, m))
    ensures t == 0 ==> mode' == mode && m' == m
    decreases t
  {
    hide Sync, Join, Run, Switch, MarksOf, Valid;
    if t == 0 {
      mode', m', skip' := mode, m, skip;
      assert q.(contentLength := q.contentLength - 0) == q;
    } else {
      var q1 := q.(contentLength := q.contentLength - 1);
      var mode1, m1 := SyncBodyByte(c0, data, hc, i, q, skip, mode, m, out);
      mode', m', skip' := SyncBody(c0, data, hc, i + 1, t - 1, q1, false, mode1, m1, out);
      assert q1.(contentLength := q1.contentLength - (t - 1)) == q.(contentLength := q.contentLength - t);
    }
  }

  /** A body mark carried into byte i, or set there. */
  lemma BodyMarks(mode: Mode, m: nat, i: nat)
    requires mode == Closed || mode == Carried
    ensures mode == Closed ==> Body !in MarksOf(mode, m) && MarksOf(mode, m)[Body := i] == map[Body := i]
    ensures mode == Carried ==> Body in MarksOf(mode, m) && MarksOf(mode, m)[Body] == m
    ensures map[Body := i] - {Body} == map[] && MarksOf(Carried, m) - {Body} == map[]
  {
  }

  lemma BodyNotGeneral(c0: Parser, data: seq<byte>, hc: Settings, i: nat,
                       q: Parser, skip: bool, mode: Mode, m: nat, out: seq<Event>)
    requires Valid(c0) && Sync(c0, data, hc, i, q, skip, mode, m, out)
    requires q.state == BodyIdentity || q.state == ChunkData
    ensures !skip
  {
    hide Switch, Join;
    if i > 0 {
      assert data[..i][..i - 1] == data[..i - 1];
    }
  }

  /** A stretch of body until the end of the data, when the body has no given length. */
  lemma {:induction false} SyncRest(c0: Parser, data: seq<byte>, hc: Settings, i: nat,
                                    q: Parser, mode: Mode, m: nat, out: seq<Event>)
    returns (mode': Mode, m': nat)
    requires m <= i <= |data| && Valid(c0) && Sync(c0, data, hc, i, q, false, mode, m, out)
    requires Valid(q) && q.state == BodyIdentityEof
    ensures Sync(c0, data, hc, |data|, q, false, mode', m', out)
    ensures i < |data| ==> MarksOf(mode', m') == if Body in MarksOf(mode, m) then MarksOf(mode, m) else map[Body := i]
    ensures i == |data| ==> mode' == mode && m' == m
    decreases |data| - i
  {
    hide Sync, Join, Run, Valid;
    if i == |data| {
      mode', m' := mode, m;
    } else {
      assert Switch(q, false, data[i], hc) == Micro(q, [Mark(Body)], Next);
      SyncBounds(c0, data, hc, i, q, false, mode, m, out);
      mode', m' := SyncByte(c0, data, hc, i, q, false, mode, m, out);
      MarkBody(mode, m, data, i);
      assert out + [] == out;
      SyncBounds(c0, data, hc, i + 1, q, false, mode', m', out);
      assert Body in MarksOf(mode', m');
      mode', m' := SyncRest(c0, data, hc, i + 1, q, mode', m', out);
    }
  }

  /** All that is left of a chunk. */
  lemma SyncChunkEnd(c0: Parser, data: seq<byte>, hc: Settings, i: nat,
                     q: Parser, mode: Mode, m: nat, out: seq<Event>)
    returns (mode': Mode, m': nat)
    requires m <= i && Valid(c0) && Sync(c0, data, hc, i, q, false, mode, m, out)
    requires Valid(q) && q.state == ChunkData && i + q.contentLength <= |data|
    ensures Valid(q.(contentLength := 0, state := ChunkDataAlmostDone))
    ensures Sync(c0, data, hc, i + q.contentLength, q.(contentLength := 0, state := ChunkDataAlmostDone), false, mode', m', out)
    ensures MarksOf(mode', m') == if Body in MarksOf(mode, m) then MarksOf(mode, m) else map[Body := i]
  {
    hide Sync, Join, Run, Switch, RunOps, Valid, MarksOf;
    ChunkLength(q);
    SyncBounds(c0, data, hc, i, q, false, mode, m, out);
    BodyMarks(mode, m, i);
    var t := q.contentLength - 1;
    var mode1, m1, skip1 := SyncBody(c0, data, hc, i, t, q, false, mode, m, out);
    var q1 := q.(contentLength := 1);
    assert q.(contentLength := q.contentLength - t) == q1;
    mode', m' := SyncLastOfChunk(c0, data, hc, i + t, q1, skip1, mode1, m1, out);
  }

  lemma ChunkLength(q: Parser)
    requires Valid(q) && q.state == ChunkData
    ensures 0 < q.contentLength
  {
  }

  lemma SyncLastOfChunk(c0: Parser, data: seq<byte>, hc: Settings, i: nat,
                        q: Parser, skip: bool, mode: Mode, m: nat, out: seq<Event>)
    returns (mode': Mode, m': nat)
    requires m <= i < |data| && Valid(c0) && Sync(c0, data, hc, i, q, skip, mode, m, out)
    requires Valid(q) && q.state == ChunkData && q.contentLength == 1
    ensures Valid(q.(contentLength := 0, state := ChunkDataAlmostDone))
    ensures Sync(c0, data, hc, i + 1, q.(contentLength := 0, state := ChunkDataAlmostDone), false, mode', m', out)
    ensures MarksOf(mode', m') == if mode == Closed then map[Body := i] else MarksOf(mode, m)
  {
    hide Sync, Join, Run, Switch, RunOps, Valid, MarksOf;
    SyncBounds(c0, data, hc, i, q, skip, mode, m, out);
    LastChunkByte(q, skip, data[i], hc);
    mode', m' := SyncByte(c0, data, hc, i, q, skip, mode, m, out);
    MarkBody(mode, m, data, i);
    assert out + [] == out;
  }

  lemma LastChunkByte(q: Parser, skip: bool, ch: byte, hc: Settings)
    requires q.state == ChunkData && q.contentLength == 1
    ensures Switch(q, skip, ch, hc) == Micro(q.(contentLength := 0, state := ChunkDataAlmostDone), [Mark(Body)], Next)
  {
  }

  lemma MoreBodyByte(q: Parser, skip: bool, ch: byte, hc: Settings)
    requires (q.state == ChunkData || q.state == BodyIdentity) && q.contentLength > 1
    ensures Switch(q, skip, ch, hc) == Micro(q.(contentLength := q.contentLength - 1), [Mark(Body)], Next)
  {
  }

  /** All that is left of a body of known length: its data, then the end of the message. */
  lemma SyncBodyEnd(c0: Parser, data: seq<byte>, hc: Settings, i: nat,
                    q: Parser, mode: Mode, m: nat, out: seq<Event>)
    returns (mode': Mode, m': nat)
    requires m <= i && Valid(c0) && Sync(c0, data, hc, i, q, false, mode, m, out)
    requires Valid(q) && q.state == BodyIdentity && i + q.contentLength <= |data|
    ensures
      var n := i + q.contentLength;
      var mi := OnMessageDone(q.(contentLength := 0, state := MessageDone));
      var out' := out + [Data(Body, data[(if Body in MarksOf(mode, m) then m else i)..n]), MessageComplete];
      && Valid(mi.p) && !mi.fin.Fail?
      && (mi.fin.Next? ==> mode' == Closed && Sync(c0, data, hc, n, mi.p, false, mode', m', out'))
      && (mi.fin.Exit? ==>
           var r := Run(c0, data, hc, true);
           r.Upgraded? && r.p == mi.p && r.at == n && Join(r.events) == Join(out'))
  {
    hide Sync, Join, Run, Valid, Switch, RunOps, RunModes, EffectOf;
    SyncBounds(c0, data, hc, i, q, false, mode, m, out);
    BodyLength(q);
    var t := q.contentLength - 1;
    var mode1, m1, skip1 := SyncBody(c0, data, hc, i, t, q, false, mode, m, out);
    var q1 := q.(contentLength := 1);
    assert q.(contentLength := q.contentLength - t) == q1;
    SyncBounds(c0, data, hc, i + t, q1, skip1, mode1, m1, out);
    var done := OnMessageDone(q.(contentLength := 0, state := MessageDone));
    LastBodyByte(q1, skip1, data[i + t], hc);
    LastBodyOps(mode1, m1, data, i + t);
    MessageDoneValid(q.(contentLength := 0, state := MessageDone));
    if done.fin.Next? {
      mode', m' := SyncByte(c0, data, hc, i + t, q1, skip1, mode1, m1, out);
      assert MarksOf(mode', m') == map[];
      SameMarks(Closed, 0, mode', m');
    } else {
      mode', m' := Closed, 0;
      SyncLast(c0, data, hc, i + t, q1, skip1, mode1, m1, out);
    }
  }

  lemma MessageDoneValid(q: Parser)
    requires Bounded(q)
    ensures Valid(OnMessageDone(q).p) && !OnMessageDone(q).fin.Fail?
  {
    hide RunModes, NewMessage;
    MessageDoneLeads(q);
  }

  lemma BodyLength(q: Parser)
    requires Valid(q) && q.state == BodyIdentity
    ensures 0 < q.contentLength && Bounded(q) && Bounded(q.(contentLength := 0, state := MessageDone))
  {
  }

  lemma LastBodyByte(q: Parser, skip: bool, ch: byte, hc: Settings)
    requires q.state == BodyIdentity && q.contentLength == 1
    ensures
      var done := OnMessageDone(q.(contentLength := 0, state := MessageDone));
      Switch(q, skip, ch, hc) == done.(ops := [Mark(Body), Flush(Body, true), Fire(MessageComplete)])
  {
    assert [Mark(Body), Flush(Body, true)] + [Fire(MessageComplete)] == [Mark(Body), Flush(Body, true), Fire(MessageComplete)];
  }

  lemma LastBodyOps(mode: Mode, m: nat, data: seq<byte>, i: nat)
    requires m <= i < |data| && (mode == Closed || mode == Carried)
    ensures RunOps(MarksOf(mode, m), [Mark(Body), Flush(Body, true), Fire(MessageComplete)], data, i) ==
            ([Data(Body, data[(if mode == Closed then i else m)..i + 1]), MessageComplete], map[])
  {
    var ops := [Mark(Body), Flush(Body, true), Fire(MessageComplete)];
    var from := if mode == Closed then i else m;
    var none: Marks := map[];
    assert ops[1..] == [Flush(Body, true), Fire(MessageComplete)];
    assert [Flush(Body, true), Fire(MessageComplete)][1..] == [Fire(MessageComplete)];
    var nil: seq<Op> := [];
    assert [Fire(MessageComplete)][1..] == nil;
    assert RunOps(none, nil, data, i) == ([], none);
    var quiet: seq<Event> := [];
    assert [MessageComplete] + quiet == [MessageComplete];
    assert [Data(Body, data[from..i + 1])] + [MessageComplete] == [Data(Body, data[from..i + 1]), MessageComplete];
    assert RunOps(none, [Fire(MessageComplete)], data, i) == ([MessageComplete], none);
    assert map[Body := from] - {Body} == none;
    assert RunOps(map[Body := from], [Flush(Body, true), Fire(MessageComplete)], data, i) ==
           ([Data(Body, data[from..i + 1]), MessageComplete], none);
    BodyMarks(mode, m, i);
  }

  /** What s_chunk_data reads at once: the rest of the chunk or of the data. */
  lemma SyncChunk(c0: Parser, data: seq<byte>, hc: Settings, i: nat,
                  q: Parser, t: nat, mode: Mode, m: nat, out: seq<Event>)
    returns (mode': Mode, m': nat, skip': bool)
    requires m <= i < |data| && Valid(c0) && Sync(c0, data, hc, i, q, false, mode, m, out)
    requires Valid(q) && q.state == ChunkData && 0 < t <= q.contentLength && i + t <= |data|
    ensures
      var q1 := q.(contentLength := q.contentLength - t);
      var q2 := if q1.contentLength == 0 then q1.(state := ChunkDataAlmostDone) else q1;
      && Valid(q2) && !skip'
      && Sync(c0, data, hc, i + t, q2, skip', mode', m', out)
      && MarksOf(mode', m') == if Body in MarksOf(mode, m) then MarksOf(mode, m) else MarksOf(mode, m)[Body := i]
  {
    hide Sync, Join, Run, Switch, RunOps, Valid;
    SyncBounds(c0, data, hc, i, q, false, mode, m, out);
    BodyMarks(mode, m, i);
    if t == q.contentLength {
      mode', m' := SyncChunkEnd(c0, data, hc, i, q, mode, m, out);
      skip' := false;
      assert q.(contentLength := 0, state := ChunkDataAlmostDone) == q.(contentLength := q.contentLength - t).(state := ChunkDataAlmostDone);
    } else {
      mode', m', skip' := SyncBody(c0, data, hc, i, t, q, false, mode, m, out);
      BodyNotGeneral(c0, data, hc, i + t, q.(contentLength := q.contentLength - t), skip', mode', m', out);
    }
  }
}
