/** Fragmentation: cutting the input into calls changes nothing, exactly unless memchr
    hides an illegal byte of a header value from the check. */
module HttpFragment {
  import opened Common
  import opened HttpTypes
  import opened HttpSwitch
  import opened HttpInvariant
  import opened HttpSpec
  import opened HttpExecute
  import opened HttpSize

  function Concat(fs: seq<seq<byte>>): seq<byte> {
    if |fs| == 0 then [] else fs[0] + Concat(fs[1..])
  }

  predicate NonEmpty(fs: seq<seq<byte>>) {
    forall i :: 0 <= i < |fs| ==> |fs[i]| > 0
  }

  /** A run that begins where another left off. */
  function Prepend(events: seq<Event>, n: nat, r: Outcome): Outcome {
    match r
    case Running(p, skip, es) => Running(p, skip, events + es)
    case Failed(e, at) => Failed(e, n + at)
    case Upgraded(p, es, at) => Upgraded(p, events + es, n + at)
  }

  /** Each fragment fed as one call, as long as the calls succeed. */
  function Feed(p: Parser, fs: seq<seq<byte>>, hc: Settings): Outcome
    requires Valid(p)
    decreases |fs|
  {
    if |fs| == 0 then Running(p, false, [])
    else
      match Run(p, fs[0], hc, true)
      case Running(q, skip, events) => Prepend(events, |fs[0]|, Feed(q, fs[1..], hc))
      case Failed(e, at) => Failed(e, at)
      case Upgraded(q, events, at) => Upgraded(q, events, at)
  }

  /** Byte i is an illegal byte of a header value of no interest, and not the first byte of
      its stretch: a single call jumps over it, a call that begins with it stops. */
  ghost predicate HiddenAt(p: Parser, w: seq<byte>, hc: Settings, i: nat)
    requires Valid(p)
  {
    && 1 <= i < |w|
    && var before, now := Run(p, w[..i - 1], hc, false), Run(p, w[..i], hc, false);
       && before.Running? && InGeneral(before.p)
       && now.Running? && InGeneral(now.p)
       && !hc.lenient && !IsHeaderChar(w[i])
  }

  ghost predicate Hidden(p: Parser, w: seq<byte>, hc: Settings)
    requires Valid(p)
  {
    exists i: nat {:trigger HiddenAt(p, w, hc, i)} :: HiddenAt(p, w, hc, i)
  }

  /** No byte is hidden where every byte may stand in a header, or the parser is lenient. */
  lemma LegalIsNotHidden(p: Parser, w: seq<byte>, hc: Settings)
    requires Valid(p)
    requires hc.lenient || forall i :: 0 <= i < |w| ==> IsHeaderChar(w[i])
    ensures !Hidden(p, w, hc)
  {
    hide Switch, Run;
  }

  // ----- the byte-by-byte run composes -----

  lemma StepPrepended(events: seq<Event>, n: nat, s: Outcome, ch: byte, k: nat, hc: Settings)
    requires s.Running? || s.Upgraded? ==> Valid(s.p)
    ensures Step(Prepend(events, n, s), ch, n + k, hc, false) == Prepend(events, n, Step(s, ch, k, hc, false))
  {
    hide Switch, Valid, ByteEvents;
    if s.Running? {
      var es := ByteEvents(OpenKind(s.p.state), Switch(s.p, s.skip, ch, hc).ops, ch);
      assert (events + s.events) + es == events + (s.events + es);
    }
  }

  lemma {:induction false} StrictConcat(p: Parser, a: seq<byte>, b: seq<byte>, hc: Settings)
    requires Valid(p)
    ensures
      var r := Run(p, a, hc, false);
      Run(p, a + b, hc, false) == if r.Running? then Prepend(r.events, |a|, Run(r.p, b, hc, false)) else r
    decreases |b|
  {
    hide Switch, Valid, ByteEvents;
    var r := Run(p, a, hc, false);
    if |b| == 0 {
      assert a + b == a;
      if r.Running? {
        assert r.events + [] == r.events;
        StrictNeverSkips(p, a, hc);
      }
    } else {
      var n := |b| - 1;
      assert (a + b)[..|a| + n] == a + b[..n] && (a + b)[|a| + n] == b[n];
      StrictConcat(p, a, b[..n], hc);
      if r.Running? {
        StepPrepended(r.events, |a|, Run(r.p, b[..n], hc, false), b[n], n, hc);
      }
    }
  }

  lemma {:induction false} StrictNeverSkips(p: Parser, w: seq<byte>, hc: Settings)
    requires Valid(p)
    ensures var r := Run(p, w, hc, false); r.Running? ==> !r.skip
  {
    hide Switch, Valid, ByteEvents;
  }

  // ----- one call against byte by byte -----

  /** The flag says that this byte and the one before it were taken in the same stretch. */
  lemma SkipMeans(p: Parser, w: seq<byte>, hc: Settings)
    requires Valid(p)
    ensures
      var r := Run(p, w, hc, true);
      r.Running? && r.skip ==>
        |w| > 0 && InGeneral(r.p) && var b := Run(p, w[..|w| - 1], hc, true); b.Running? && InGeneral(b.p)
  {
    hide Switch, Valid, ByteEvents;
  }

  lemma SkipHarmless(p: Parser, ch: byte, hc: Settings)
    requires hc.lenient || IsHeaderChar(ch)
    ensures Switch(p, true, ch, hc) == Switch(p, false, ch, hc)
  {
    hide IsHeaderChar;
  }

  lemma {:induction false} JumpIsEqual(p: Parser, w: seq<byte>, hc: Settings)
    requires Valid(p) && forall i: nat {:trigger HiddenAt(p, w, hc, i)} :: !HiddenAt(p, w, hc, i)
    ensures Unskipped(Run(p, w, hc, true)) == Run(p, w, hc, false)
    decreases |w|
  {
    hide Switch, Valid, ByteEvents, IsHeaderChar, InGeneral;
    if |w| > 0 {
      var n := |w| - 1;
      PrefixNotHidden(p, w, n, hc);
      JumpIsEqual(p, w[..n], hc);
      StrictNeverSkips(p, w[..n], hc);
      var r := Run(p, w[..n], hc, true);
      if r.Running? && r.skip {
        SkipMeans(p, w[..n], hc);
        assert w[..n][..n - 1] == w[..n - 1];
        PrefixNotHidden(p, w, n - 1, hc);
        JumpIsEqual(p, w[..n - 1], hc);
        assert !HiddenAt(p, w, hc, n);
        SkipHarmless(r.p, w[n], hc);
      }
    }
  }

  lemma PrefixNotHidden(p: Parser, w: seq<byte>, n: nat, hc: Settings)
    requires Valid(p) && n <= |w| && forall i: nat {:trigger HiddenAt(p, w, hc, i)} :: !HiddenAt(p, w, hc, i)
    ensures forall i: nat {:trigger HiddenAt(p, w[..n], hc, i)} :: !HiddenAt(p, w[..n], hc, i)
  {
    hide HiddenAt;
    forall i: nat {:trigger HiddenAt(p, w[..n], hc, i)} ensures !HiddenAt(p, w[..n], hc, i) {
      if HiddenAt(p, w[..n], hc, i) {
        HiddenInPrefix(p, w, n, hc, i);
      }
    }
  }

  lemma HiddenInPrefix(p: Parser, w: seq<byte>, n: nat, hc: Settings, i: nat)
    requires Valid(p) && n <= |w| && HiddenAt(p, w[..n], hc, i)
    ensures HiddenAt(p, w, hc, i)
  {
    hide Switch, Run, Valid;
    assert w[..n][..i] == w[..i] && w[..n][..i - 1] == w[..i - 1];
  }

  lemma HiddenInSuffix(p: Parser, a: seq<byte>, b: seq<byte>, hc: Settings, i: nat)
    requires Valid(p) && var r := Run(p, a, hc, false); r.Running? && HiddenAt(r.p, b, hc, i)
    ensures HiddenAt(p, a + b, hc, |a| + i)
  {
    hide Switch, Run, Valid, IsHeaderChar, InGeneral;
    assert (a + b)[..|a| + i] == a + b[..i];
    assert (a + b)[..|a| + i - 1] == a + b[..i - 1];
    StrictConcat(p, a, b[..i], hc);
    StrictConcat(p, a, b[..i - 1], hc);
  }

  // ----- any fragmentation against byte by byte -----

  lemma {:induction false} FeedIsEqual(p: Parser, fs: seq<seq<byte>>, hc: Settings)
    requires Valid(p) && forall i: nat {:trigger HiddenAt(p, Concat(fs), hc, i)} :: !HiddenAt(p, Concat(fs), hc, i)
    ensures Unskipped(Feed(p, fs, hc)) == Run(p, Concat(fs), hc, false)
    decreases |fs|
  {
    hide Switch, Valid, HiddenAt, Run;
    if |fs| == 0 {
      EmptyRun(p, hc);
    } else {
      var a, b := fs[0], Concat(fs[1..]);
      assert Concat(fs) == a + b;
      assert (a + b)[..|a|] == a;
      PrefixNotHidden(p, a + b, |a|, hc);
      JumpIsEqual(p, a, hc);
      StrictConcat(p, a, b, hc);
      var r := Run(p, a, hc, false);
      if r.Running? {
        forall i: nat {:trigger HiddenAt(r.p, b, hc, i)} ensures !HiddenAt(r.p, b, hc, i) {
          if HiddenAt(r.p, b, hc, i) {
            NatIndex(r.p, b, hc, i);
            HiddenInSuffix(p, a, b, hc, i);
          }
        }
        FeedIsEqual(r.p, fs[1..], hc);
      }
    }
  }

  lemma EmptyRun(p: Parser, hc: Settings)
    requires Valid(p)
    ensures Run(p, [], hc, false) == Running(p, false, [])
  {
  }

  /** If nothing is hidden, every fragmentation means the same as a single call. */
  lemma FragmentationIrrelevant(p: Parser, fs: seq<seq<byte>>, hc: Settings)
    requires Valid(p) && !Hidden(p, Concat(fs), hc)
    ensures Meaning(Feed(p, fs, hc)) == Meaning(Run(p, Concat(fs), hc, true))
  {
    hide Switch, Valid, HiddenAt, Run;
    FeedIsEqual(p, fs, hc);
    JumpIsEqual(p, Concat(fs), hc);
  }

  // ----- and a hidden byte always shows -----

  /** A run that has passed byte k can only fail at k or later. */
  lemma {:induction false} FailsLater(p: Parser, w: seq<byte>, k: nat, hc: Settings)
    requires Valid(p) && k <= |w| && Run(p, w[..k], hc, true).Running?
    ensures var r := Run(p, w, hc, true); r.Failed? ==> r.at >= k
    decreases |w|
  {
    hide Switch, Valid, ByteEvents;
    if k == |w| {
      assert w[..k] == w;
    } else {
      assert w[..|w| - 1][..k] == w[..k];
      FailsLater(p, w[..|w| - 1], k, hc);
    }
  }

  lemma IllegalStops(p: Parser, ch: byte, hc: Settings)
    requires InGeneral(p) && !hc.lenient && !IsHeaderChar(ch)
    ensures Switch(p, false, ch, hc) == Stop(p, INVALID_HEADER_TOKEN)
    ensures Switch(p, true, ch, hc) == Go(p)
  {
  }

  /** The byte-by-byte run stops at a hidden byte, so there is only one. */
  lemma HiddenOnce(p: Parser, w: seq<byte>, hc: Settings, j: nat, k: nat)
    requires Valid(p) && j < k && HiddenAt(p, w, hc, k)
    ensures !HiddenAt(p, w[..k], hc, j)
  {
    hide Switch, Valid, Run, IsHeaderChar, InGeneral;
    if HiddenAt(p, w[..k], hc, j) {
      assert w[..k][..j] == w[..j] && w[..k][..j + 1] == w[..j + 1];
      StrictNeverSkips(p, w[..j], hc);
      IllegalStops(Run(p, w[..j], hc, false).p, w[j], hc);
      RunOne(p, w, j, hc, false);
      RunEnded(p, w[..k], j + 1, hc, false);
    }
  }

  lemma HiddenFirst(p: Parser, w: seq<byte>, hc: Settings, k: nat)
    requires k < |w| && Valid(p) && HiddenAt(p, w, hc, k)
    ensures forall j: nat {:trigger HiddenAt(p, w[..k], hc, j)} :: !HiddenAt(p, w[..k], hc, j)
  {
    hide HiddenAt;
    forall j: nat {:trigger HiddenAt(p, w[..k], hc, j)} ensures !HiddenAt(p, w[..k], hc, j) {
      if HiddenAt(p, w[..k], hc, j) {
        NatIndex(p, w[..k], hc, j);
        HiddenOnce(p, w, hc, j, k);
      }
    }
  }

  /** Cutting in front of a hidden byte makes the parser reject what one call accepts. */
  lemma HiddenShows(p: Parser, w: seq<byte>, hc: Settings)
    requires Valid(p) && Hidden(p, w, hc)
    ensures exists fs {:trigger Feed(p, fs, hc)} ::
              NonEmpty(fs) && Concat(fs) == w && Meaning(Feed(p, fs, hc)) != Meaning(Run(p, w, hc, true))
  {
    hide Switch, Valid, Run, IsHeaderChar, InGeneral;
    var k: nat :| HiddenAt(p, w, hc, k);
    NatIndex(p, w, hc, k);
    HiddenFirst(p, w, hc, k);
    var fs := [w[..k], w[k..]];
    var none: seq<seq<byte>> := [];
    assert fs[1..] == [w[k..]] && fs[1..][1..] == none;
    assert Concat(fs[1..]) == w[k..];
    JumpIsEqual(p, w[..k], hc);
    var q := Run(p, w[..k], hc, false).p;
    FailsAtOnce(q, w[k..], hc);
    PassesHidden(p, w, hc, k);
    FeedTwo(p, w[..k], w[k..], hc);
  }

  lemma FeedTwo(p: Parser, a: seq<byte>, b: seq<byte>, hc: Settings)
    requires Valid(p) && var r := Run(p, a, hc, true); r.Running? && Run(r.p, b, hc, true).Failed?
    ensures
      var s := Run(Run(p, a, hc, true).p, b, hc, true);
      Feed(p, [a, b], hc) == Failed(s.errno, |a| + s.at)
  {
    hide Switch, Valid, Run;
    assert [a, b][1..] == [b];
  }

  lemma FailsAtOnce(q: Parser, w: seq<byte>, hc: Settings)
    requires Valid(q) && |w| > 0 && InGeneral(q) && !hc.lenient && !IsHeaderChar(w[0])
    ensures Run(q, w, hc, true) == Failed(INVALID_HEADER_TOKEN, 0)
  {
    hide Switch, Valid, ByteEvents, IsHeaderChar;
    IllegalStops(q, w[0], hc);
    assert w[..1][..0] == [];
    assert Run(q, w[..1], hc, true) == Failed(INVALID_HEADER_TOKEN, 0);
    RunEnded(q, w, 1, hc, true);
  }

  lemma PassesHidden(p: Parser, w: seq<byte>, hc: Settings, k: nat)
    requires Valid(p) && HiddenAt(p, w, hc, k)
    ensures var r := Run(p, w, hc, true); r.Failed? ==> r.at > k
  {
    hide Switch, Valid, ByteEvents, IsHeaderChar;
    NatIndex(p, w, hc, k);
    HiddenFirst(p, w, hc, k);
    JumpIsEqual(p, w[..k], hc);
    PrefixNotHidden(p, w[..k], k - 1, hc);
    assert w[..k][..k - 1] == w[..k - 1];
    JumpIsEqual(p, w[..k - 1], hc);
    var r := Run(p, w[..k], hc, true);
    assert r.skip;
    IllegalStops(r.p, w[k], hc);
    RunOne(p, w, k, hc, true);
    FailsLater(p, w, k + 1, hc);
  }

  lemma NatIndex(p: Parser, w: seq<byte>, hc: Settings, i: nat)
    requires Valid(p) && HiddenAt(p, w, hc, i)
    ensures 1 <= i < |w|
  {
  }

  /** Fragmentation does not matter, for every way of cutting the input, exactly when no
      byte of it is hidden. */
  lemma FragmentationTheorem(p: Parser, w: seq<byte>, hc: Settings)
    requires Valid(p)
    ensures !Hidden(p, w, hc) <==>
              forall fs {:trigger Feed(p, fs, hc)} ::
                NonEmpty(fs) && Concat(fs) == w ==> Meaning(Feed(p, fs, hc)) == Meaning(Run(p, w, hc, true))
  {
    hide Switch, Valid, Run, Hidden;
    if Hidden(p, w, hc) {
      HiddenShows(p, w, hc);
    } else {
      forall fs {:trigger Feed(p, fs, hc)} | NonEmpty(fs) && Concat(fs) == w
        ensures Meaning(Feed(p, fs, hc)) == Meaning(Run(p, w, hc, true))
      {
        FragmentationIrrelevant(p, fs, hc);
      }
    }
  }

  /** A concrete case: the value "a" followed by the control byte 1, not lenient. One call
      takes both bytes; the second byte in a call of its own is an error. */
  lemma HiddenExample(p: Parser, hc: Settings)
    requires Valid(p) && InGeneral(p) && !hc.lenient
    ensures Run(p, [97, 1], hc, true).Running?
    ensures Feed(p, [[97], [1]], hc) == Failed(INVALID_HEADER_TOKEN, 1)
  {
    hide Valid, ByteEvents;
    assert Switch(p, false, 97, hc) == Go(p);
    IllegalStops(p, 1, hc);
    hide Switch, InGeneral, IsHeaderChar;
    var none: seq<byte> := [];
    assert [97 as byte][..0] == none && [1 as byte][..0] == none;
    assert [97 as byte, 1][..1] == [97];
    FeedTwo(p, [97], [1], hc);
  }

  /** One more byte, in the byte-by-byte run. */
  lemma StrictStep(p: Parser, w: seq<byte>, q: Parser, ch: byte, r: Parser, hc: Settings)
    requires Valid(p) && Run(p, w, hc, false).Running? && Run(p, w, hc, false).p == q
    requires Switch(q, false, ch, hc).fin.Next? && Switch(q, false, ch, hc).p == r
    ensures Run(p, w + [ch], hc, false).Running? && Run(p, w + [ch], hc, false).p == r
  {
    hide Switch, Valid, ByteEvents;
    StrictNeverSkips(p, w, hc);
    assert (w + [ch])[..|w|] == w;
  }

  /** "GET /", a line feed and "A:a": from a fresh parser into a header value of no interest. */
  const PREFIX: seq<byte> := [71, 69, 84, 32, 47, 10, 65, 58, 97]

  /** The record in the middle of that method name. */
  function InGet(index: nat): Parser {
    Initial(Request).(contentLength := ULLONG_MAX, verb := GET, index := index, state := ReqMethod)
  }

  lemma MethodSwitches(hc: Settings)
    ensures Switch(Initial(Request), false, 71, hc) == Micro(InGet(1), [Fire(MessageBegin)], Next)
    ensures Switch(InGet(1), false, 69, hc) == Go(InGet(2)) && Switch(InGet(2), false, 84, hc) == Go(InGet(3))
    ensures Switch(InGet(3), false, SP, hc) == Go(InGet(4).(state := ReqSpacesBeforeUrl))
  {
    assert Switch(Initial(Request), false, 71, hc) == OnStartReq(Initial(Request), 71);
    assert Switch(InGet(1), false, 69, hc) == OnReqMethod(InGet(1), 69);
    assert Switch(InGet(2), false, 84, hc) == OnReqMethod(InGet(2), 84);
    assert Switch(InGet(3), false, SP, hc) == OnReqMethod(InGet(3), SP);
    hide Switch;
  }

  lemma UrlBegins(p: Parser, hc: Settings)
    requires p.state == ReqSpacesBeforeUrl && p.verb == GET
    ensures var m := Switch(p, false, 47, hc); m.fin.Next? && m.p == p.(state := ReqPath)
  {
    assert Switch(p, false, 47, hc) == OnReqSpacesBeforeUrl(p, 47);
    hide Switch;
  }

  lemma UrlEnds(p: Parser, hc: Settings)
    requires p.state == ReqPath
    ensures
      var m := Switch(p, false, LF, hc);
      m.fin.Next? && m.p == p.(httpMajor := 0, httpMinor := 9, state := HeaderFieldStart)
  {
    assert Switch(p, false, LF, hc) == OnUrl(p, LF);
    hide Switch;
  }

  lemma FieldBegins(p: Parser, hc: Settings)
    requires p.state == HeaderFieldStart
    ensures
      var m := Switch(p, false, 65, hc);
      m.fin.Next? && m.p == p.(state := HeaderField, headerState := General, index := 0)
  {
    assert Switch(p, false, 65, hc) == OnHeaderFieldStart(p, 65, hc);
    hide Switch;
  }

  lemma FieldEnds(p: Parser, hc: Settings)
    requires p.state == HeaderField
    ensures var m := Switch(p, false, 58, hc); m.fin.Next? && m.p == p.(state := HeaderValueDiscardWs)
  {
    assert Switch(p, false, 58, hc) == OnHeaderField(p, 58);
    hide Switch;
  }

  lemma ValueBegins(p: Parser, hc: Settings)
    requires p.state == HeaderValueDiscardWs && p.headerState == General
    ensures
      var m := Switch(p, false, 97, hc);
      m.fin.Next? && m.p == p.(state := HeaderValue, index := 0)
  {
    assert Switch(p, false, 97, hc) == OnHeaderValueStart(p, 97);
    hide Switch;
  }

  lemma ValueGoesOn(p: Parser, hc: Settings)
    requires InGeneral(p)
    ensures Switch(p, false, 97, hc) == Go(p)
  {
    assert Switch(p, false, 97, hc) == OnHeaderValue(p, 97, false, hc);
    hide Switch;
  }

  lemma HeaderRead(p: Parser, w: seq<byte>, q: Parser, hc: Settings)
    requires Valid(p) && Run(p, w, hc, false).Running? && Run(p, w, hc, false).p == q && q.state == HeaderFieldStart
    ensures
      var before, now := Run(p, w + [65] + [58] + [97], hc, false), Run(p, w + [65] + [58] + [97] + [97], hc, false);
      before.Running? && InGeneral(before.p) && now.Running? && InGeneral(now.p)
  {
    hide Run, Valid, Switch;
    var q1 := q.(state := HeaderField, headerState := General, index := 0);
    var q2, q3 := q1.(state := HeaderValueDiscardWs), q1.(state := HeaderValue);
    FieldBegins(q, hc);
    FieldEnds(q1, hc);
    ValueBegins(q2, hc);
    ValueGoesOn(q3, hc);
    StrictStep(p, w, q, 65, q1, hc);
    StrictStep(p, w + [65], q1, 58, q2, hc);
    StrictStep(p, w + [65] + [58], q2, 97, q3, hc);
    StrictStep(p, w + [65] + [58] + [97], q3, 97, q3, hc);
  }

  lemma MethodRead(hc: Settings)
    ensures
      var r := Run(Initial(Request), PREFIX[..4], hc, false);
      r.Running? && r.p == InGet(4).(state := ReqSpacesBeforeUrl)
  {
    hide Run, Valid, Switch, InGet;
    var p := Initial(Request);
    MethodSwitches(hc);
    EmptyRun(p, hc);
    var none: seq<byte> := [];
    assert forall i {:trigger PREFIX[..i]} :: 0 <= i < 4 ==> PREFIX[..i] + [PREFIX[i]] == PREFIX[..i + 1];
    assert PREFIX[..0] == none;
    StrictStep(p, PREFIX[..0], p, 71, InGet(1), hc);
    StrictStep(p, PREFIX[..1], InGet(1), 69, InGet(2), hc);
    StrictStep(p, PREFIX[..2], InGet(2), 84, InGet(3), hc);
    StrictStep(p, PREFIX[..3], InGet(3), SP, InGet(4).(state := ReqSpacesBeforeUrl), hc);
  }

  lemma RequestLineRead(hc: Settings)
    ensures
      var r := Run(Initial(Request), PREFIX[..6], hc, false);
      r.Running? && r.p == InGet(4).(httpMinor := 9, state := HeaderFieldStart)
  {
    hide Run, Valid, Switch;
    var p := Initial(Request);
    var s := InGet(4).(state := ReqSpacesBeforeUrl);
    MethodRead(hc);
    UrlBegins(s, hc);
    UrlEnds(s.(state := ReqPath), hc);
    assert PREFIX[..4] + [47] == PREFIX[..5] && PREFIX[..5] + [LF] == PREFIX[..6];
    StrictStep(p, PREFIX[..4], s, 47, s.(state := ReqPath), hc);
    StrictStep(p, PREFIX[..5], s.(state := ReqPath), LF, s.(state := HeaderFieldStart, httpMinor := 9), hc);
  }

  /** So the failing input is a request: "GET /", "A:aa" and the byte 1. */
  lemma HiddenRequest(hc: Settings)
    requires !hc.lenient
    ensures Hidden(Initial(Request), PREFIX + [97, 1], hc)
  {
    hide Run, Valid, Switch, InGeneral;
    var p := Initial(Request);
    var w, start := PREFIX + [97, 1], PREFIX[..6];
    RequestLineRead(hc);
    HeaderRead(p, start, InGet(4).(httpMinor := 9, state := HeaderFieldStart), hc);
    assert w[..9] == start + [65] + [58] + [97] && w[..10] == start + [65] + [58] + [97] + [97];
    assert HiddenAt(p, w, hc, 10);
  }

  // ----- the calls themselves -----

  function TotalLength(fs: seq<seq<byte>>): nat {
    if |fs| == 0 then 0 else |fs[0]| + TotalLength(fs[1..])
  }

  lemma {:induction false} ConcatLength(fs: seq<seq<byte>>)
    ensures |Concat(fs)| == TotalLength(fs)
  {
    if |fs| > 0 {
      ConcatLength(fs[1..]);
    }
  }

  /** How far a sequence of calls has come: k fragments consumed, ev fired. */
  ghost predicate Fed(c0: Parser, fs: seq<seq<byte>>, hc: Settings, k: nat, p: Parser, ev: seq<Event>, n: nat, log: seq<Event>)
    requires Valid(c0)
  {
    && k <= |fs| && Valid(p)
    && Feed(c0, fs, hc) == Prepend(ev, n, Feed(p, fs[k..], hc))
    && Join(log) == Join(ev)
  }

  /** Calls http_parser_execute on each fragment in turn, until one reports an error. */
  method ExecuteAll(parser: HttpParser, fs: seq<seq<byte>>, hc: Settings)
    requires parser.Ready() && parser.errno == OK && NonEmpty(fs)
    modifies parser
    ensures parser.Ready() && old(parser.log) <= parser.log
    ensures
      var r := Run(old(parser.p), Concat(fs), hc, true);
      !Hidden(old(parser.p), Concat(fs), hc) && !r.Upgraded? && parser.errno != HEADER_OVERFLOW ==>
        if r.Running? then parser.errno == OK && parser.p == r.p && Join(parser.log[|old(parser.log)|..]) == Join(r.events)
        else parser.errno == r.errno
    ensures old(parser.nread) + TotalLength(fs) + |fs| <= HTTP_MAX_HEADER_SIZE ==> parser.errno != HEADER_OVERFLOW
  {
    hide Switch, Valid, Run, Hidden, Join, Fed, Refines, Feed, Tally, Overlong;
    ghost var c0, base, n0 := parser.p, parser.log, parser.nread;
    ghost var ev: seq<Event>, n: nat, gone := [], 0, false;
    var k := 0;
    assert parser.log[|base|..] == [];
    StartFed(c0, fs, hc);
    assert fs[0..] == fs;
    while k < |fs| && parser.errno == OK
      invariant 0 <= k <= |fs| && parser.Ready() && base <= parser.log
      invariant !gone && parser.errno == OK ==> Fed(c0, fs, hc, k, parser.p, ev, n, parser.log[|base|..])
      invariant gone ==> Feed(c0, fs, hc).Upgraded?
      invariant !gone && parser.errno != OK && parser.errno != HEADER_OVERFLOW ==>
                  Feed(c0, fs, hc).Failed? && Feed(c0, fs, hc).errno == parser.errno
      invariant parser.errno == OK ==> parser.nread + TotalLength(fs[k..]) + |fs| - k <= n0 + TotalLength(fs) + |fs|
      invariant parser.errno == HEADER_OVERFLOW ==> n0 + TotalLength(fs) + |fs| > HTTP_MAX_HEADER_SIZE
    {
      ghost var before, q, m := parser.log, parser.p, parser.nread;
      assert fs[k..][1..] == fs[k + 1..];
      var consumed := parser.Execute(fs[k], hc);
      ghost var fired := parser.log[|before|..];
      assert parser.log[|base|..] == before[|base|..] + fired;
      CallBound(q, m, fs[k], hc, consumed, parser.errno, parser.nread);
      if !gone && parser.errno != HEADER_OVERFLOW {
        ev, n, gone := FedCall(c0, fs, hc, k, q, ev, n, before[|base|..], fired, parser.p, parser.errno, consumed);
      }
      k := k + 1;
    }
    if !gone && parser.errno == OK {
      FedAll(c0, fs, hc, parser.p, ev, n, parser.log[|base|..]);
    }
    if !Hidden(c0, Concat(fs), hc) {
      FragmentationIrrelevant(c0, fs, hc);
    }
  }

  /** A call counts no more bytes than it was given, and one. */
  lemma CallBound(q: Parser, m: nat, data: seq<byte>, hc: Settings, consumed: nat, errno: Errno, nread: nat)
    requires Valid(q) && consumed <= |data|
    requires errno == OK ==> nread <= Tally(q, m, data[..consumed], hc) + 1
    requires errno == HEADER_OVERFLOW ==> Overlong(q, m, data, hc)
    ensures errno == OK ==> nread <= m + |data| + 1
    ensures errno == HEADER_OVERFLOW ==> m + |data| >= HTTP_MAX_HEADER_SIZE
  {
    hide Valid, Tally, Overlong;
    TallyBound(q, m, data[..consumed], hc);
    if errno == HEADER_OVERFLOW {
      OverlongBound(q, m, data, hc);
    }
  }

  lemma StartFed(c0: Parser, fs: seq<seq<byte>>, hc: Settings)
    requires Valid(c0)
    ensures Fed(c0, fs, hc, 0, c0, [], 0, [])
  {
    hide Run, Valid;
    assert fs[0..] == fs;
    PrependNothing(Feed(c0, fs, hc));
  }

  lemma PrependNothing(r: Outcome)
    ensures Prepend([], 0, r) == r
  {
    if !r.Failed? {
      assert [] + r.events == r.events;
    }
  }

  lemma FedStep(c0: Parser, fs: seq<seq<byte>>, hc: Settings, k: nat, q: Parser, ev: seq<Event>, n: nat,
                log: seq<Event>, fired: seq<Event>)
    requires k < |fs| && Valid(c0) && Fed(c0, fs, hc, k, q, ev, n, log)
    ensures
      var r := Run(q, fs[k], hc, true);
      && (r.Running? && Join(fired) == Join(r.events) ==>
           Fed(c0, fs, hc, k + 1, r.p, ev + r.events, n + |fs[k]|, log + fired))
      && (r.Failed? ==> Feed(c0, fs, hc).Failed? && Feed(c0, fs, hc).errno == r.errno)
      && (r.Upgraded? ==> Feed(c0, fs, hc).Upgraded?)
  {
    hide Run, Valid, Join;
    var r := Run(q, fs[k], hc, true);
    assert fs[k..][1..] == fs[k + 1..];
    if r.Running? {
      var rest := Feed(r.p, fs[k + 1..], hc);
      if !rest.Failed? {
        assert ev + (r.events + rest.events) == (ev + r.events) + rest.events;
      }
      if Join(fired) == Join(r.events) {
        JoinBoth(log, ev, fired, r.events);
      }
    }
  }

  lemma FedCall(c0: Parser, fs: seq<seq<byte>>, hc: Settings, k: nat, q: Parser, ev: seq<Event>, n: nat,
                log: seq<Event>, fired: seq<Event>, p: Parser, errno: Errno, consumed: nat)
    returns (ev': seq<Event>, n': nat, gone: bool)
    requires k < |fs| && Valid(c0) && Valid(q) && Fed(c0, fs, hc, k, q, ev, n, log)
    requires Refines(Run(q, fs[k], hc, true), |fs[k]|, p, errno, consumed, fired)
    ensures gone ==> Feed(c0, fs, hc).Upgraded?
    ensures !gone && errno == OK ==> Fed(c0, fs, hc, k + 1, p, ev', n', log + fired)
    ensures !gone && errno != OK ==> Feed(c0, fs, hc).Failed? && Feed(c0, fs, hc).errno == errno
  {
    hide Run, Valid, Join, Feed, Fed;
    var r := Run(q, fs[k], hc, true);
    FedStep(c0, fs, hc, k, q, ev, n, log, fired);
    ev', n', gone := ev, n, r.Upgraded?;
    if r.Running? {
      ev', n' := ev + r.events, n + |fs[k]|;
    } else if r.Failed? {
      RunErrors(q, fs[k], hc);
    }
  }

  /** Joining is a congruence on both sides. */
  lemma {:induction false} JoinBoth(a: seq<Event>, b: seq<Event>, x: seq<Event>, y: seq<Event>)
    requires Join(a) == Join(b) && Join(x) == Join(y)
    ensures Join(a + x) == Join(b + y)
  {
    JoinCongruent(a, b, x);
    JoinTail(b, x);
    JoinTail(b, y);
  }

  /** Only the joined form of the tail matters. */
  lemma {:induction false} JoinTail(a: seq<Event>, x: seq<Event>)
    ensures Join(a + x) == Join(a + Join(x))
    decreases |x|
  {
    hide Joined;
    if |x| > 0 {
      var n := |x| - 1;
      JoinTail(a, x[..n]);
      assert a + x == (a + x[..n]) + [x[n]];
      JoinOne(a + x[..n], x[n]);
      JoinLast(a, Join(x[..n]), x[n]);
    }
  }

  lemma JoinLast(a: seq<Event>, j: seq<Event>, e: Event)
    ensures Join(a + Joined(j, e)) == Joined(Join(a + j), e)
  {
    hide Join;
    JoinOne(a + j, e);
    if |j| > 0 && j[|j| - 1].Data? && e.Data? && j[|j| - 1].kind == e.kind {
      JoinLastData(a, j, e);
    } else {
      assert a + Joined(j, e) == (a + j) + [e];
    }
  }

  lemma JoinLastData(a: seq<Event>, j: seq<Event>, e: Event)
    requires |j| > 0 && j[|j| - 1].Data? && e.Data? && j[|j| - 1].kind == e.kind
    ensures Join(a + Joined(j, e)) == Join(a + j + [e])
  {
    hide Join;
    var m := |j| - 1;
    assert a + j == (a + j[..m]) + [j[m]];
    assert a + Joined(j, e) == (a + j[..m]) + [Data(e.kind, j[m].bytes + e.bytes)];
    JoinPair(a + j[..m], e.kind, j[m].bytes, e.bytes);
  }

  lemma FedAll(c0: Parser, fs: seq<seq<byte>>, hc: Settings, p: Parser, ev: seq<Event>, n: nat, log: seq<Event>)
    requires Valid(c0) && Fed(c0, fs, hc, |fs|, p, ev, n, log)
    ensures var r := Feed(c0, fs, hc); r.Running? && r.p == p && Join(log) == Join(r.events)
  {
    hide Run, Valid, Join;
    assert fs[|fs|..] == [];
    assert ev + [] == ev;
  }
}
