/** The value of Connection: which of its words keep-alive, close and upgrade the parser sees. */
module HttpConnection {
  import opened Common
  import opened HttpTypes
  import opened HttpSwitch
  import opened HttpInvariant
  import opened HttpBody
  import opened HttpNames
  import opened HttpHeaders
  import opened HttpCoding

  const KEEP_ALIVE := "keep-alive"
  const CLOSE := "close"

  // ----- the elements of a list -----

  /** The bytes between the commas. */
  function Pieces(v: seq<byte>): (ps: seq<seq<byte>>)
    ensures |ps| > 0
  {
    if |v| == 0 then [[]]
    else
      var ps, c := Pieces(v[..|v| - 1]), v[|v| - 1];
      if c == ',' as int then ps + [[]] else ps[..|ps| - 1] + [ps[|ps| - 1] + [c]]
  }

  /** A space; in lenient mode a byte 0 passes for one. */
  predicate Gap(c: byte) {
    c == SP || c == 0
  }

  /** Without the spaces before it. */
  function Trimmed(w: seq<byte>): seq<byte> {
    if |w| > 0 && Gap(w[0]) then Trimmed(w[1..]) else w
  }

  /** Element i. Spaces before the first one do not belong to the value. */
  function Element(ps: seq<seq<byte>>, i: nat): seq<byte>
    requires i < |ps|
  {
    if i == 0 then ps[0] else Trimmed(ps[i])
  }

  /** The word in any mixture of cases, and spaces. */
  predicate Says(w: seq<byte>, word: string) {
    |w| >= |word| && Begins(LowerAll(w[..|word|]), word) && forall i :: |word| <= i < |w| ==> w[i] == SP
  }

  /** The beginning of a word, but not all of it. */
  predicate Part(w: seq<byte>, word: string) {
    0 < |w| < |word| && Begins(LowerAll(w), word)
  }

  predicate Half(w: seq<byte>) {
    Part(w, KEEP_ALIVE) || Part(w, CLOSE) || Part(w, UPGRADE)
  }

  /** It begins as a token does. The source looks at the first byte with bit 5 set. */
  predicate Startable(w: seq<byte>) {
    |w| > 0 && Token(Lower(w[0])) != 0
  }

  datatype Look = Looked | Swallowed | Stopped

  /** After an element: does the parser look for a word at the beginning of the next one? Not
      after an element, other than the first, that is empty or begins with no token: that ends
      the search. And not after a first element that is empty or one that breaks off inside of
      a word: then the comma is taken for a part of it. */
  function NextLook(look: Look, first: bool, w: seq<byte>): Look {
    match look
    case Stopped => Stopped
    case Swallowed => Looked
    case Looked =>
      if (first && w == []) || Half(w) then Swallowed
      else if !first && !Startable(w) then Stopped
      else Looked
  }

  function LookAt(ps: seq<seq<byte>>, i: nat): Look
    requires i < |ps|
  {
    if i == 0 then Looked else NextLook(LookAt(ps, i - 1), i == 1, Element(ps, i - 1))
  }

  /** One of the first n elements says the word where the parser looks for one. */
  predicate Found(ps: seq<seq<byte>>, n: nat, word: string)
    requires n <= |ps|
  {
    exists i :: 0 <= i < n && LookAt(ps, i) == Looked && Says(Element(ps, i), word)
  }

  function Flagged(f: Flags, ps: seq<seq<byte>>, n: nat): Flags
    requires n <= |ps|
  {
    f.(keepAlive := f.keepAlive || Found(ps, n, KEEP_ALIVE), close := f.close || Found(ps, n, CLOSE),
       connectionUpgrade := f.connectionUpgrade || Found(ps, n, UPGRADE))
  }

  // ----- words, byte by byte -----

  lemma WordMore(w: seq<byte>, ch: byte, word: string)
    ensures Begins(LowerAll(w + [ch]), word) <==> |w| < |word| && Begins(LowerAll(w), word) && Lower(ch) == word[|w|] as int
    ensures |w| + 1 < |word| ==> !Says(w + [ch], word)
    ensures |w| + 1 == |word| ==> (Says(w + [ch], word) <==> Begins(LowerAll(w + [ch]), word))
    ensures |w| >= |word| ==> (Says(w + [ch], word) <==> Says(w, word) && ch == SP)
  {
    LowerMore(w, ch);
    BeginsMore(LowerAll(w), Lower(ch), word);
    if |w| + 1 == |word| {
      assert (w + [ch])[..|word|] == w + [ch];
    } else if |w| >= |word| {
      assert (w + [ch])[..|word|] == w[..|word|];
      hide Begins, Lower;
      assert (w + [ch])[|w|] == ch;
      assert forall i :: |word| <= i < |w| ==> (w + [ch])[i] == w[i];
    }
  }

  lemma WordLetters()
    ensures |KEEP_ALIVE| == 10 && |CLOSE| == 5 && |UPGRADE| == 7
    ensures KEEP_ALIVE[0] == 'k' && CLOSE[0] == 'c' && UPGRADE[0] == 'u'
  {
  }

  /** The state in which a word, or none, is being matched. */
  function WordState(w: seq<byte>): HeaderState {
    if Part(w, KEEP_ALIVE) then MatchingConnectionKeepAlive
    else if Part(w, CLOSE) then MatchingConnectionClose
    else if Part(w, UPGRADE) then MatchingConnectionUpgrade
    else if Says(w, KEEP_ALIVE) then ConnectionKeepAlive
    else if Says(w, CLOSE) then ConnectionClose
    else if Says(w, UPGRADE) then ConnectionUpgrade
    else MatchingConnectionToken
  }

  lemma OneLetter(w: seq<byte>, word: string)
    requires |word| > 0 && (Part(w, word) || Says(w, word))
    ensures |w| > 0 && Lower(w[0]) == word[0] as int
  {
    if Says(w, word) {
      assert LowerAll(w[..|word|])[0] == Lower(w[0]);
    } else {
      assert LowerAll(w)[0] == Lower(w[0]);
    }
  }

  /** No two of the words begin alike. */
  lemma OneWord(w: seq<byte>)
    ensures Part(w, KEEP_ALIVE) || Says(w, KEEP_ALIVE) ==> !Part(w, CLOSE) && !Says(w, CLOSE) && !Part(w, UPGRADE) && !Says(w, UPGRADE)
    ensures Part(w, CLOSE) || Says(w, CLOSE) ==> !Part(w, UPGRADE) && !Says(w, UPGRADE)
  {
    WordLetters();
    hide Part, Says, Lower;
    if Part(w, KEEP_ALIVE) || Says(w, KEEP_ALIVE) { OneLetter(w, KEEP_ALIVE); }
    if Part(w, CLOSE) || Says(w, CLOSE) { OneLetter(w, CLOSE); }
    if Part(w, UPGRADE) || Says(w, UPGRADE) { OneLetter(w, UPGRADE); }
  }

  lemma PartOrSays(w: seq<byte>, word: string)
    ensures !(Part(w, word) && Says(w, word))
  {
  }

  /** One word and one more byte. */
  lemma PartMore(w: seq<byte>, ch: byte, word: string)
    requires |w| > 0
    ensures Part(w + [ch], word) <==> Part(w, word) && |w| + 1 < |word| && Lower(ch) == CharAt(word, |w|)
    ensures Says(w + [ch], word) <==>
              (Part(w, word) && |w| + 1 == |word| && Lower(ch) == CharAt(word, |w|)) || (Says(w, word) && ch == SP)
  {
    WordMore(w, ch, word);
    hide Begins, Lower;
    if |w| < |word| {
      assert !Says(w, word);
    }
  }

  lemma StateSays(w: seq<byte>)
    ensures WordState(w) == ConnectionKeepAlive <==> Says(w, KEEP_ALIVE)
    ensures WordState(w) == ConnectionClose <==> Says(w, CLOSE)
    ensures WordState(w) == ConnectionUpgrade <==> Says(w, UPGRADE)
    ensures Half(w) <==> WordState(w) == MatchingConnectionKeepAlive || WordState(w) == MatchingConnectionClose
                         || WordState(w) == MatchingConnectionUpgrade
    ensures WordState(w) == MatchingConnectionKeepAlive ==> Part(w, KEEP_ALIVE)
    ensures WordState(w) == MatchingConnectionClose ==> Part(w, CLOSE)
    ensures WordState(w) == MatchingConnectionUpgrade ==> Part(w, UPGRADE)
    ensures WordState(w) != TransferEncodingChunked
  {
    OneWord(w);
    PartOrSays(w, KEEP_ALIVE);
    PartOrSays(w, CLOSE);
    PartOrSays(w, UPGRADE);
    hide Part, Says;
  }

  lemma MatchStep(q: Parser, w: seq<byte>, ch: byte, word: string, complete: HeaderState)
    requires Part(w, word) && q.index == |w| - 1
    ensures MatchValue(q, Lower(ch), word, complete, MatchingConnectionToken) ==
              q.(index := |w|, headerState := if Part(w + [ch], word) then q.headerState
                                              else if Says(w + [ch], word) then complete else MatchingConnectionToken)
  {
    PartMore(w, ch, word);
    assert |w| < |word| && !Says(w, word);
    hide Part, Says, Lower;
  }

  lemma NextState(w: seq<byte>, ch: byte)
    requires |w| > 0
    ensures
      var s, t := WordState(w), WordState(w + [ch]);
      && (s == MatchingConnectionToken ==> t == MatchingConnectionToken)
      && (s == ConnectionKeepAlive || s == ConnectionClose || s == ConnectionUpgrade ==> t == if ch == SP then s else MatchingConnectionToken)
      && (s == MatchingConnectionKeepAlive ==>
            t == if Part(w + [ch], KEEP_ALIVE) then s else if Says(w + [ch], KEEP_ALIVE) then ConnectionKeepAlive else MatchingConnectionToken)
      && (s == MatchingConnectionClose ==>
            t == if Part(w + [ch], CLOSE) then s else if Says(w + [ch], CLOSE) then ConnectionClose else MatchingConnectionToken)
      && (s == MatchingConnectionUpgrade ==>
            t == if Part(w + [ch], UPGRADE) then s else if Says(w + [ch], UPGRADE) then ConnectionUpgrade else MatchingConnectionToken)
  {
    PartMore(w, ch, KEEP_ALIVE);
    PartMore(w, ch, CLOSE);
    PartMore(w, ch, UPGRADE);
    OneWord(w);
    OneWord(w + [ch]);
    PartOrSays(w, KEEP_ALIVE);
    PartOrSays(w, CLOSE);
    PartOrSays(w, UPGRADE);
    hide Part, Says, Lower, CharAt;
  }

  lemma WordChar(q: Parser, ch: byte)
    requires ch != ',' as int
    ensures
      var r, h := ValueChar(q, ch), q.headerState;
      && (h == MatchingConnectionKeepAlive ==>
            r == (MatchValue(q, Lower(ch), KEEP_ALIVE, ConnectionKeepAlive, MatchingConnectionToken), OK))
      && (h == MatchingConnectionClose ==> r == (MatchValue(q, Lower(ch), CLOSE, ConnectionClose, MatchingConnectionToken), OK))
      && (h == MatchingConnectionUpgrade ==> r == (MatchValue(q, Lower(ch), UPGRADE, ConnectionUpgrade, MatchingConnectionToken), OK))
      && (h == ConnectionKeepAlive || h == ConnectionClose || h == ConnectionUpgrade ==>
            r == (q.(headerState := if ch == SP then h else MatchingConnectionToken), OK))
      && (h == MatchingConnectionToken ==> r == (q, OK))
  {
    hide Lower, MatchValue, LengthDigit, LowerIsToken, SetConnectionFlag;
  }

  /** One more byte of an element in which a word is looked for. */
  lemma WordStep(q: Parser, w: seq<byte>, ch: byte)
    requires |w| > 0 && q.headerState == WordState(w) && (Half(w) ==> q.index == |w| - 1) && ch != ',' as int
    ensures
      var (r, e) := ValueChar(q, ch);
      && e == OK && r == q.(headerState := WordState(w + [ch]), index := r.index)
      && (Half(w + [ch]) ==> r.index == |w|)
  {
    StateSays(w);
    StateSays(w + [ch]);
    NextState(w, ch);
    OnlyWords(w);
    WordChar(q, ch);
    hide Part, Says, Lower, ValueChar, MatchValue, WordState, Half;
    match WordState(w)
    case MatchingConnectionKeepAlive => MatchStep(q, w, ch, KEEP_ALIVE, ConnectionKeepAlive);
    case MatchingConnectionClose => MatchStep(q, w, ch, CLOSE, ConnectionClose);
    case MatchingConnectionUpgrade => MatchStep(q, w, ch, UPGRADE, ConnectionUpgrade);
    case _ =>
  }

  lemma OnlyWords(w: seq<byte>)
    ensures
      var s := WordState(w);
      || s == MatchingConnectionKeepAlive || s == MatchingConnectionClose || s == MatchingConnectionUpgrade
      || s == ConnectionKeepAlive || s == ConnectionClose || s == ConnectionUpgrade || s == MatchingConnectionToken
  {
    hide Part, Says;
  }

  lemma FirstWordState(ch: byte)
    ensures WordState([ch]) ==
              if Lower(ch) == 'k' as int then MatchingConnectionKeepAlive
              else if Lower(ch) == 'c' as int then MatchingConnectionClose
              else if Lower(ch) == 'u' as int then MatchingConnectionUpgrade
              else MatchingConnectionToken
  {
    var none: seq<byte> := [];
    assert none + [ch] == [ch];
    WordLetters();
    WordMore(none, ch, KEEP_ALIVE);
    WordMore(none, ch, CLOSE);
    WordMore(none, ch, UPGRADE);
    hide Begins, Lower, Says;
    assert Begins(LowerAll(none), KEEP_ALIVE) && Begins(LowerAll(none), CLOSE) && Begins(LowerAll(none), UPGRADE) by { NothingBegins(); }
  }

  lemma NothingBegins()
    ensures forall word: string :: Begins(LowerAll([]), word)
  {
  }

  // ----- elements, byte by byte -----

  /** The header state inside of an element. */
  function ElementState(look: Look, first: bool, w: seq<byte>): HeaderState {
    match look
    case Stopped => General
    case Swallowed => MatchingConnectionToken
    case Looked =>
      if !first && w == [] then MatchingConnectionTokenStart
      else if !first && !Startable(w) then General
      else WordState(w)
  }

  predicate InElement(q: Parser, look: Look, first: bool, w: seq<byte>) {
    && q.headerState == ElementState(look, first, w)
    && (look == Looked ==> (Half(w) ==> q.index == |w| - 1) && (w == [] ==> q.index == 0))
  }

  lemma LowerGap(ch: byte)
    ensures Lower(ch) == SP <==> Gap(ch)
    ensures Lower(ch) != TAB && Token(SP) == 0
    ensures Token('k' as int) != 0 && Token('c' as int) != 0 && Token('u' as int) != 0
  {
  }

  function Grown(first: bool, w: seq<byte>, ch: byte): seq<byte> {
    if !first && w == [] && Gap(ch) then [] else w + [ch]
  }

  /** A byte other than a comma. */
  lemma GrowStep(q: Parser, look: Look, first: bool, w: seq<byte>, ch: byte)
    requires InElement(q, look, first, w) && ch != ',' as int && (first ==> w != [])
    ensures
      var (r, e) := ValueChar(q, ch);
      && e == OK && r == q.(headerState := r.headerState, index := r.index)
      && InElement(r, look, first, Grown(first, w, ch))
  {
    hide Lower, WordState, LengthDigit, Half, Token, Gap;
    match look
    case Stopped =>
    case Swallowed =>
    case Looked =>
      if w == [] {
        LowerGap(ch);
        FirstWordState(ch);
        assert w + [ch] == [ch];
      } else if !first && !Startable(w) {
        StartIsWord(w + [ch]);
        assert (w + [ch])[0] == w[0];
      } else {
        WordStep(q, w, ch);
        assert (w + [ch])[0] == w[0];
      }
  }

  /** A part of a word begins as a token does. */
  lemma StartIsWord(w: seq<byte>)
    ensures Half(w) || Says(w, KEEP_ALIVE) || Says(w, CLOSE) || Says(w, UPGRADE) ==> Startable(w)
  {
    WordLetters();
    LowerGap(0);
    hide Part, Says, Lower, Token;
    if Part(w, KEEP_ALIVE) || Says(w, KEEP_ALIVE) { OneLetter(w, KEEP_ALIVE); }
    if Part(w, CLOSE) || Says(w, CLOSE) { OneLetter(w, CLOSE); }
    if Part(w, UPGRADE) || Says(w, UPGRADE) { OneLetter(w, UPGRADE); }
  }

  /** The flags after an element in which a word was looked for. */
  function Saying(f: Flags, w: seq<byte>): Flags {
    f.(keepAlive := f.keepAlive || Says(w, KEEP_ALIVE), close := f.close || Says(w, CLOSE),
       connectionUpgrade := f.connectionUpgrade || Says(w, UPGRADE))
  }

  lemma CommaLetters(w: seq<byte>)
    ensures Lower(',' as int) == ',' as int && Token(',' as int) == 0
    ensures CharAt(KEEP_ALIVE, |w|) != ',' as int && CharAt(CLOSE, |w|) != ',' as int && CharAt(UPGRADE, |w|) != ',' as int
  {
  }

  lemma CommaBreaks(q: Parser, w: seq<byte>, word: string, complete: HeaderState)
    requires Part(w, word) && q.index == |w| - 1 && CharAt(word, |w|) != ',' as int
    ensures MatchValue(q, Lower(',' as int), word, complete, MatchingConnectionToken) ==
              q.(index := |w|, headerState := MatchingConnectionToken)
  {
  }

  /** SET_CONNECTION_FLAG at the end of an element. */
  lemma FlagIs(q: Parser, look: Look, first: bool, w: seq<byte>)
    requires InElement(q, look, first, w)
    ensures SetConnectionFlag(q) == q.(flags := if look == Looked then Saying(q.flags, w) else q.flags)
    ensures SetHeaderFlag(q) == SetConnectionFlag(q)
  {
    StateSays(w);
    StartIsWord(w);
    NothingSays();
    hide Part, Says, Startable, WordState, Half;
  }

  /** A comma after an element in which a word was looked for. */
  lemma CommaAfterWord(q: Parser, w: seq<byte>)
    requires q.headerState == WordState(w) && (Half(w) ==> q.index == |w| - 1)
    ensures
      var (r, e) := ValueChar(q, ',' as int);
      && e == OK && r == SetConnectionFlag(q).(headerState := r.headerState, index := r.index)
      && r.headerState == (if Half(w) then MatchingConnectionToken else MatchingConnectionTokenStart) && (!Half(w) ==> r.index == 0)
  {
    CommaLetters(w);
    StateSays(w);
    OnlyWords(w);
    NoFlag(q);
    hide Lower, Token, CharAt, LengthDigit, Part, Says, MatchValue, WordState, Half, SetConnectionFlag;
    match WordState(w)
    case MatchingConnectionKeepAlive => CommaBreaks(q, w, KEEP_ALIVE, ConnectionKeepAlive);
    case MatchingConnectionClose => CommaBreaks(q, w, CLOSE, ConnectionClose);
    case MatchingConnectionUpgrade => CommaBreaks(q, w, UPGRADE, ConnectionUpgrade);
    case _ =>
  }

  lemma CommaElsewhere(q: Parser)
    ensures
      var (r, e) := ValueChar(q, ',' as int);
      && (q.headerState == General || q.headerState == MatchingConnectionTokenStart ==> e == OK && r == q.(headerState := General))
      && (q.headerState == MatchingConnectionToken ==> e == OK && r == q.(headerState := MatchingConnectionTokenStart, index := 0))
  {
    CommaLetters([]);
    hide Lower, Token;
  }

  /** A comma. */
  lemma CommaStep(q: Parser, look: Look, first: bool, w: seq<byte>)
    requires InElement(q, look, first, w) && (first ==> w != [])
    ensures
      var (r, e) := ValueChar(q, ',' as int);
      && e == OK && r == q.(flags := if look == Looked then Saying(q.flags, w) else q.flags, headerState := r.headerState, index := r.index)
      && InElement(r, NextLook(look, first, w), false, [])
  {
    FlagIs(q, look, first, w);
    CommaElsewhere(q);
    StartIsWord(w);
    NothingSays();
    NoFlag(q);
    if look == Looked && (first || Startable(w)) {
      assert w != [];
      CommaAfterWord(q, w);
    }
    hide Startable, Part, Says, WordState, Saying, SetConnectionFlag, SetHeaderFlag, ValueChar;
  }

  lemma NoFlag(q: Parser)
    ensures q.headerState != ConnectionKeepAlive && q.headerState != ConnectionClose && q.headerState != ConnectionUpgrade ==>
              SetConnectionFlag(q) == q
  {
  }

  lemma NothingSays()
    ensures !Says([], KEEP_ALIVE) && !Says([], CLOSE) && !Says([], UPGRADE)
    ensures !Part([], KEEP_ALIVE) && !Part([], CLOSE) && !Part([], UPGRADE) && !Startable([])
  {
  }

  // ----- a whole value -----

  lemma PiecesMore(v: seq<byte>, ch: byte)
    ensures
      var ps := Pieces(v);
      Pieces(v + [ch]) == if ch == ',' as int then ps + [[]] else ps[..|ps| - 1] + [ps[|ps| - 1] + [ch]]
  {
    assert (v + [ch])[..|v|] == v;
  }

  lemma {:induction false} TrimmedMore(w: seq<byte>, ch: byte)
    ensures Trimmed(w + [ch]) == Grown(false, Trimmed(w), ch)
    decreases |w|
  {
    if |w| == 0 {
      assert w + [ch] == [ch] && [ch][1..] == [];
    } else {
      TrimmedMore(w[1..], ch);
      assert (w + [ch])[1..] == w[1..] + [ch] && (w + [ch])[0] == w[0];
    }
  }

  lemma {:induction false} LookSame(ps: seq<seq<byte>>, qs: seq<seq<byte>>, i: nat)
    requires i < |ps| && i < |qs| && ps[..i] == qs[..i]
    ensures LookAt(ps, i) == LookAt(qs, i)
    decreases i
  {
    hide NextLook, Trimmed;
    if i > 0 {
      assert ps[..i][..i - 1] == ps[..i - 1] && qs[..i][..i - 1] == qs[..i - 1];
      LookSame(ps, qs, i - 1);
      assert ps[..i][i - 1] == ps[i - 1] && qs[..i][i - 1] == qs[i - 1];
    }
  }

  lemma FoundSame(ps: seq<seq<byte>>, qs: seq<seq<byte>>, n: nat, word: string)
    requires n < |ps| && n < |qs| && ps[..n] == qs[..n]
    ensures Found(ps, n, word) <==> Found(qs, n, word)
  {
    hide LookAt, Trimmed, Says;
    forall i | 0 <= i < n ensures LookAt(ps, i) == LookAt(qs, i) && Element(ps, i) == Element(qs, i) {
      assert ps[..n][..i] == ps[..i] && qs[..n][..i] == qs[..i];
      LookSame(ps, qs, i);
      assert ps[..n][i] == ps[i] && qs[..n][i] == qs[i];
    }
  }

  lemma FlaggedSame(f: Flags, ps: seq<seq<byte>>, qs: seq<seq<byte>>, n: nat)
    requires n < |ps| && n < |qs| && ps[..n] == qs[..n]
    ensures Flagged(f, ps, n) == Flagged(f, qs, n)
  {
    hide Found;
    FoundSame(ps, qs, n, KEEP_ALIVE);
    FoundSame(ps, qs, n, CLOSE);
    FoundSame(ps, qs, n, UPGRADE);
  }

  lemma FoundNext(ps: seq<seq<byte>>, n: nat, word: string)
    requires n < |ps|
    ensures Found(ps, n + 1, word) <==> Found(ps, n, word) || (LookAt(ps, n) == Looked && Says(Element(ps, n), word))
  {
    hide LookAt, Element, Says;
  }

  lemma FlaggedNext(f: Flags, ps: seq<seq<byte>>, n: nat)
    requires n < |ps|
    ensures
      var g := Flagged(f, ps, n);
      Flagged(f, ps, n + 1) == if LookAt(ps, n) == Looked then Saying(g, Element(ps, n)) else g
  {
    hide Found, LookAt, Element, Says;
    FoundNext(ps, n, KEEP_ALIVE);
    FoundNext(ps, n, CLOSE);
    FoundNext(ps, n, UPGRADE);
  }

  /** The record in the middle of a Connection value that began at p. */
  predicate InList(p: Parser, q: Parser, v: seq<byte>) {
    var ps := Pieces(v);
    var n := |ps| - 1;
    && q == p.(state := HeaderValue, flags := Flagged(p.flags, ps, n), headerState := q.headerState, index := q.index)
    && InElement(q, LookAt(ps, n), n == 0, Element(ps, n)) && (n == 0 ==> Element(ps, n) != [])
  }

  lemma ListGrows(p: Parser, q: Parser, v: seq<byte>, ch: byte)
    requires InList(p, q, v) && ch != ',' as int
    ensures
      var (r, e) := ValueChar(q, ch);
      e == OK && InList(p, r, v + [ch])
  {
    hide Pieces, Flagged, LookAt, Trimmed, ElementState, ValueChar, Half;
    var ps, qs := Pieces(v), Pieces(v + [ch]);
    var n := |ps| - 1;
    PiecesMore(v, ch);
    LookSame(ps, qs, n);
    FlaggedSame(p.flags, ps, qs, n);
    TrimmedMore(ps[n], ch);
    GrowStep(q, LookAt(ps, n), n == 0, Element(ps, n), ch);
  }

  lemma ListBreaks(p: Parser, q: Parser, v: seq<byte>)
    requires InList(p, q, v)
    ensures
      var (r, e) := ValueChar(q, ',' as int);
      e == OK && InList(p, r, v + [',' as int])
  {
    hide Pieces, Flagged, Trimmed, ElementState, ValueChar, Half, NextLook, Saying;
    var ps, qs := Pieces(v), Pieces(v + [',' as int]);
    var n := |ps| - 1;
    PiecesMore(v, ',' as int);
    assert qs[..n + 1] == ps && qs[..n] == ps[..n];
    CommaStep(q, LookAt(ps, n), n == 0, Element(ps, n));
    LookSame(ps, qs, n);
    FlaggedSame(p.flags, ps, qs, n);
    FlaggedNext(p.flags, qs, n);
    TrimmedNothing();
  }

  lemma TrimmedNothing()
    ensures Trimmed([]) == []
  {
  }

  lemma ListBegins(p: Parser, ch: byte, hc: Settings) returns (q: Parser)
    requires p.state == HeaderValueDiscardWs && p.headerState == Connection && ch != SP && ch != TAB && ch != CR && ch != LF
    ensures Switch(p, false, ch, hc) == Micro(q, [Mark(Value)], Next) && InList(p, q, [ch])
  {
    assert Switch(p, false, ch, hc) == OnHeaderValueStart(p, ch);
    hide Switch;
    q := OnHeaderValueStart(p, ch).p;
    var none: seq<Op> := [];
    assert [Mark(Value)] + none == [Mark(Value)];
    ListBegun(p, q, ch);
  }

  lemma PiecesOne(ch: byte)
    ensures Pieces([ch]) == if ch == ',' as int then [[], []] else [[ch]]
  {
    var none: seq<byte> := [];
    assert none + [ch] == [ch];
    PiecesMore(none, ch);
  }

  lemma NoneBefore(ps: seq<seq<byte>>, word: string)
    ensures !Found(ps, 0, word)
  {
  }

  lemma NoneFound(f: Flags, ps: seq<seq<byte>>)
    ensures Flagged(f, ps, 0) == f
  {
    NoneBefore(ps, KEEP_ALIVE);
    NoneBefore(ps, CLOSE);
    NoneBefore(ps, UPGRADE);
    hide Found;
  }

  lemma FirstEmpty(f: Flags, ps: seq<seq<byte>>)
    requires |ps| == 2 && ps[0] == []
    ensures Flagged(f, ps, 1) == f && LookAt(ps, 1) == Swallowed
  {
    NoneFound(f, ps);
    FlaggedNext(f, ps, 0);
    NothingSays();
    hide Says, Half, Startable, Flagged;
    assert LookAt(ps, 0) == Looked && Element(ps, 0) == [];
  }

  lemma ListBegun(p: Parser, q: Parser, ch: byte)
    requires q == p.(state := HeaderValue, index := 0, headerState :=
      if Lower(ch) == 'k' as int then MatchingConnectionKeepAlive
      else if Lower(ch) == 'c' as int then MatchingConnectionClose
      else if Lower(ch) == 'u' as int then MatchingConnectionUpgrade
      else MatchingConnectionToken)
    ensures InList(p, q, [ch])
  {
    PiecesOne(ch);
    FirstWordState(ch);
    CommaLetters([]);
    NoneFound(p.flags, Pieces([ch]));
    if ch == ',' as int {
      FirstEmpty(p.flags, Pieces([ch]));
    }
    hide Lower, WordState, Half, Startable, Pieces, Flagged;
  }

  lemma ListStep(p: Parser, q: Parser, v: seq<byte>, ch: byte, hc: Settings) returns (r: Parser)
    requires InList(p, q, v) && q.state == HeaderValue && ch != CR && ch != LF && (hc.lenient || IsHeaderChar(ch))
    ensures Switch(q, false, ch, hc) == Go(r) && InList(p, r, v + [ch])
  {
    assert Switch(q, false, ch, hc) == OnHeaderValue(q, ch, false, hc) by { hide OnHeaderValue, InList; }
    hide Switch, IsHeaderChar, ValueChar, InList;
    if ch == ',' as int {
      ListBreaks(p, q, v);
    } else {
      ListGrows(p, q, v, ch);
    }
    r := ValueChar(q, ch).0;
  }

  lemma {:induction false} ListReads(p: Parser, v: seq<byte>, hc: Settings) returns (q: Parser)
    requires Valid(p) && p.state == HeaderValueDiscardWs && p.headerState == Connection
    requires |v| > 0 && v[0] != SP && v[0] != TAB && Text(v, hc)
    ensures Reads(p, v, hc, q, [Data(Value, v)]) && InList(p, q, v) && q.state == HeaderValue
    decreases |v|
  {
    hide Valid, Switch, Reads, IsHeaderChar, Pieces, LookAt, Flagged, InElement;
    var n := |v| - 1;
    assert v == v[..n] + [v[n]];
    if n == 0 {
      assert v == [v[0]];
      q := ListBegins(p, v[0], hc);
      DataFirst(p, Value, v[0], q, hc);
    } else {
      var r := ListReads(p, v[..n], hc);
      q := ListStep(p, r, v[..n], v[n], hc);
      DataMore(p, v[..n], r, Value, v[n], q, hc);
    }
  }

  /** Is the word among the elements of the value, where the parser looks for one? */
  predicate Seen(v: seq<byte>, word: string) {
    Found(Pieces(v), |Pieces(v)|, word)
  }

  function SeenFlags(f: Flags, v: seq<byte>): Flags {
    f.(keepAlive := f.keepAlive || Seen(v, KEEP_ALIVE), close := f.close || Seen(v, CLOSE),
       connectionUpgrade := f.connectionUpgrade || Seen(v, UPGRADE))
  }

  /** The end of the value counts as a comma. */
  lemma ListEnds(p: Parser, q: Parser, v: seq<byte>)
    requires InList(p, q, v)
    ensures SetHeaderFlag(q) == q.(flags := SeenFlags(p.flags, v))
  {
    var ps := Pieces(v);
    var n := |ps| - 1;
    FlaggedNext(p.flags, ps, n);
    FlagIs(q, LookAt(ps, n), n == 0, Element(ps, n));
    hide Pieces, Found, LookAt, Element, Says, SetHeaderFlag, SetConnectionFlag, InElement;
  }

  /** A Connection value sets a flag exactly if one of its elements is the word, where the
      parser looks for one; it leaves nothing else. */
  lemma ConnectionExact(p: Parser, v: seq<byte>, hc: Settings) returns (q: Parser)
    requires Valid(p) && p.state == HeaderValueDiscardWs && p.headerState == Connection
    requires |v| > 0 && v[0] != SP && v[0] != TAB && Text(v, hc)
    ensures Reads(p, v, hc, q, [Data(Value, v)]) && q.state == HeaderValue
    ensures SetHeaderFlag(q) == p.(state := HeaderValue, flags := SeenFlags(p.flags, v), headerState := q.headerState, index := q.index)
  {
    hide Valid, Switch, Reads, Text, Pieces, LookAt, Flagged, InElement, SetHeaderFlag, SeenFlags;
    q := ListReads(p, v, hc);
    ListEnds(p, q, v);
  }

  // ----- when every element is looked at -----

  /** The parser goes on to the next element. */
  predicate Plain(ps: seq<seq<byte>>, i: nat)
    requires i < |ps|
  {
    !Half(Element(ps, i)) && if i == 0 then ps[0] != [] else Startable(Element(ps, i))
  }

  lemma {:induction false} LookedUpTo(ps: seq<seq<byte>>, n: nat)
    requires n < |ps|
    ensures (forall i :: 0 <= i <= n ==> LookAt(ps, i) == Looked) <==> (forall i :: 0 <= i < n ==> Plain(ps, i))
    decreases n
  {
    hide Half, Startable, Trimmed;
    if n == 0 {
      assert LookAt(ps, 0) == Looked;
    } else {
      LookedUpTo(ps, n - 1);
      assert LookAt(ps, n) == NextLook(LookAt(ps, n - 1), n == 1, Element(ps, n - 1));
      if forall i :: 0 <= i < n - 1 ==> Plain(ps, i) {
        assert LookAt(ps, n - 1) == Looked;
        assert Plain(ps, n - 1) <==> LookAt(ps, n) == Looked;
      }
    }
  }

  /** Every element but the last is plain. */
  predicate Clean(ps: seq<seq<byte>>) {
    forall i :: 0 <= i < |ps| - 1 ==> Plain(ps, i)
  }

  predicate Holds(ps: seq<seq<byte>>, word: string) {
    exists i :: 0 <= i < |ps| && Says(Element(ps, i), word)
  }

  /** Every element is looked at exactly if each but the last is plain. */
  lemma AllLooked(v: seq<byte>)
    ensures (forall i :: 0 <= i < |Pieces(v)| ==> LookAt(Pieces(v), i) == Looked) <==> Clean(Pieces(v))
  {
    hide LookAt, Plain, Pieces;
    LookedUpTo(Pieces(v), |Pieces(v)| - 1);
  }

  /** Then the words seen are those that are there. */
  lemma WordsSeen(v: seq<byte>, word: string)
    requires Clean(Pieces(v))
    ensures Seen(v, word) <==> Holds(Pieces(v), word)
  {
    AllLooked(v);
    var ps := Pieces(v);
    hide LookAt, Element, Says, Pieces, Clean;
    if Holds(ps, word) {
      var i :| 0 <= i < |ps| && Says(Element(ps, i), word);
      assert LookAt(ps, i) == Looked && Says(Element(ps, i), word);
    }
    if Found(ps, |ps|, word) {
      var i :| 0 <= i < |ps| && LookAt(ps, i) == Looked && Says(Element(ps, i), word);
      assert Says(Element(ps, i), word);
    }
  }

  lemma LongerLast(a: seq<byte>, b: seq<byte>, c: byte)
    ensures
      var ps := [a, b];
      ps[..|ps| - 1] + [ps[|ps| - 1] + [c]] == [a, b + [c]]
  {
  }

  lemma Appended(c: byte, w: seq<byte>, n: nat)
    requires |w| == n + 1
    ensures [c] + w[..n] + [w[n]] == [c] + w && w[..n] + [w[n]] == w
  {
  }

  lemma {:induction false} NoComma(w: seq<byte>)
    requires ',' as int !in w
    ensures Pieces([',' as int] + w) == [[], w]
    decreases |w|
  {
    var none: seq<byte> := [];
    assert Pieces(none) == [[]];
    hide Pieces;
    if |w| == 0 {
      PiecesMore(none, ',' as int);
      assert none + [',' as int] == [',' as int] + w && w == [];
    } else {
      var n := |w| - 1;
      NoComma(w[..n]);
      PiecesMore([',' as int] + w[..n], w[n]);
      LongerLast([], w[..n], w[n]);
      Appended(',' as int, w, n);
    }
  }

  /** The element after a comma at the beginning, whatever it is, is not seen. */
  lemma CommaFirst(w: seq<byte>)
    requires ',' as int !in w
    ensures !Seen([',' as int] + w, KEEP_ALIVE) && !Seen([',' as int] + w, CLOSE) && !Seen([',' as int] + w, UPGRADE)
  {
    NoComma(w);
    NothingSays();
    hide Pieces, Says, Half;
    var ps := Pieces([',' as int] + w);
    assert Element(ps, 0) == [] && LookAt(ps, 1) == Swallowed;
  }
}
