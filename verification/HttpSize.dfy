/** The size of a head: the bytes that count against HTTP_MAX_HEADER_SIZE. */
module HttpSize {
  import opened Common
  import opened HttpTypes
  import opened HttpSwitch
  import opened HttpInvariant
  import opened HttpSpec

  /** The bytes counted when the input w has been read after n others: those read in a state
      of a head, or between chunks, since the end of the last head or the last such line. */
  function Tally(p: Parser, n: nat, w: seq<byte>, hc: Settings): nat
    requires Valid(p)
    decreases |w|
  {
    if |w| == 0 then n
    else
      var k := |w| - 1;
      var t, r := Tally(p, n, w[..k], hc), Run(p, w[..k], hc, true);
      if !r.Running? then t
      else if Switch(r.p, r.skip, w[k], hc).clear then 0
      else if ParsingHeader(r.p.state) then t + 1
      else t
  }

  lemma TallyStep(p: Parser, n: nat, data: seq<byte>, i: nat, hc: Settings)
    requires Valid(p) && i < |data| && Run(p, data[..i], hc, true).Running?
    ensures
      var r, t := Run(p, data[..i], hc, true), Tally(p, n, data[..i], hc);
      Tally(p, n, data[..i + 1], hc) ==
        if Switch(r.p, r.skip, data[i], hc).clear then 0 else if ParsingHeader(r.p.state) then t + 1 else t
  {
    hide Valid, Switch, Run;
    assert data[..i + 1][..i] == data[..i];
  }

  // ----- bytes of a body are not counted -----

  predicate InBodyState(p: Parser, t: nat) {
    p.state == BodyIdentityEof || ((p.state == BodyIdentity || p.state == ChunkData) && t <= p.contentLength)
  }

  lemma BodySwitch(p: Parser, skip: bool, ch: byte, t: nat, hc: Settings)
    requires InBodyState(p, t) && t > 0
    ensures !ParsingHeader(p.state) && !Switch(p, skip, ch, hc).clear
    ensures t > 1 ==> Switch(p, skip, ch, hc).fin.Next? && InBodyState(Switch(p, skip, ch, hc).p, t - 1)
  {
  }

  lemma {:induction false} BodyTally(p: Parser, n: nat, data: seq<byte>, i: nat, t: nat, hc: Settings)
    requires Valid(p) && i + t <= |data| && Run(p, data[..i], hc, true).Running? && InBodyState(Run(p, data[..i], hc, true).p, t)
    ensures Tally(p, n, data[..i + t], hc) == Tally(p, n, data[..i], hc)
    decreases t
  {
    hide Valid, Switch, Run, Tally, ByteEvents;
    if t > 0 {
      var r := Run(p, data[..i], hc, true);
      BodySwitch(r.p, r.skip, data[i], t, hc);
      TallyStep(p, n, data, i, hc);
      if t > 1 {
        RunOne(p, data, i, hc, true);
        BodyTally(p, n, data, i + 1, t - 1, hc);
      }
    }
  }

  // ----- names and values are -----

  /** One more byte of a name or a value, which no line end is part of. */
  lemma CountedByte(p: Parser, n: nat, data: seq<byte>, i: nat, q: Parser, skip: bool, r: Parser, hc: Settings)
    requires Valid(p) && i < |data|
    requires Run(p, data[..i], hc, true).Running? && Run(p, data[..i], hc, true).p == q && Run(p, data[..i], hc, true).skip == skip
    requires ParsingHeader(q.state) && Switch(q, skip, data[i], hc) == Go(r)
    ensures Tally(p, n, data[..i + 1], hc) == Tally(p, n, data[..i], hc) + 1
  {
    hide Valid, Switch, Run, Tally;
    TallyStep(p, n, data, i, hc);
  }

  lemma JumpSwitch(q: Parser, ch: byte, hc: Settings)
    requires InGeneral(q) && ch != CR && ch != LF
    ensures Switch(q, true, ch, hc) == Go(q) && ParsingHeader(q.state)
  {
    assert Switch(q, true, ch, hc) == OnHeaderValue(q, ch, true, hc);
    hide Switch;
  }

  /** The stretch that memchr jumps over. */
  lemma {:induction false} JumpTally(p: Parser, n: nat, data: seq<byte>, i: nat, j: nat, q: Parser, hc: Settings)
    requires Valid(p) && i <= j <= |data| && InGeneral(q)
    requires Run(p, data[..i], hc, true).Running? && Run(p, data[..i], hc, true).p == q && Run(p, data[..i], hc, true).skip
    requires forall k :: i <= k < j ==> data[k] != CR && data[k] != LF
    ensures Run(p, data[..j], hc, true).Running?
    ensures Tally(p, n, data[..j], hc) == Tally(p, n, data[..i], hc) + (j - i)
    decreases j - i
  {
    hide Valid, Switch, Run, Tally, ByteEvents;
    if i < j {
      JumpSwitch(q, data[i], hc);
      CountedByte(p, n, data, i, q, true, q, hc);
      RunOne(p, data, i, hc, true);
      JumpTally(p, n, data, i + 1, j, q, hc);
    }
  }

  lemma {:induction false} TallyBound(p: Parser, n: nat, w: seq<byte>, hc: Settings)
    requires Valid(p)
    ensures Tally(p, n, w, hc) <= n + |w|
    decreases |w|
  {
    hide Valid, Switch, Run;
    if |w| > 0 {
      TallyBound(p, n, w[..|w| - 1], hc);
    }
  }
}
