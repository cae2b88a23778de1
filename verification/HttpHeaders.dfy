/** Header names: the parser acts on exactly five of them, in any mixture of cases. */
module HttpHeaders {
  import opened Common
  import opened HttpTypes
  import opened HttpSwitch
  import opened HttpInvariant
  import opened HttpSpec
  import opened HttpBody
  import opened HttpNames

  const CONNECTION := "connection"
  const PROXY_CONNECTION := "proxy-connection"
  const CONTENT_LENGTH := "content-length"
  const TRANSFER_ENCODING := "transfer-encoding"
  const UPGRADE := "upgrade"

  /** What the header state says about the lower-case letters read so far. */
  predicate Named(h: HeaderState, low: seq<int>) {
    var n := |low|;
    && (h == C <==> n == 1 && Begins(low, CONNECTION))
    && (h == CO <==> n == 2 && Begins(low, CONNECTION))
    && (h == CON <==> n == 3 && Begins(low, CONNECTION))
    && (h == MatchingConnection <==> 4 <= n < 10 && Begins(low, CONNECTION))
    && (h == MatchingContentLength <==> 4 <= n < 14 && Begins(low, CONTENT_LENGTH))
    && (h == MatchingProxyConnection <==> n < 16 && Begins(low, PROXY_CONNECTION))
    && (h == MatchingTransferEncoding <==> n < 17 && Begins(low, TRANSFER_ENCODING))
    && (h == MatchingUpgrade <==> n < 7 && Begins(low, UPGRADE))
    && (h == Connection <==> Spells(low, CONNECTION) || Spells(low, PROXY_CONNECTION))
    && (h == ContentLength <==> Spells(low, CONTENT_LENGTH))
    && (h == TransferEncoding <==> Spells(low, TRANSFER_ENCODING))
    && (h == Upgrade <==> Spells(low, UPGRADE))
  }

  lemma BeginsMore(low: seq<int>, c: int, word: string)
    ensures Begins(low + [c], word) <==> |low| < |word| && Begins(low, word) && c == word[|low|] as int
  {
    assert forall i :: 0 <= i < |low| ==> (low + [c])[i] == low[i];
    assert (low + [c])[|low|] == c;
  }

  lemma ShorterBegins(low: seq<int>, c: int)
    ensures |low| <= 2 ==> (Begins(low + [c], CONNECTION) <==> Begins(low + [c], CONTENT_LENGTH))
    ensures |low| <= 3 ==> (Begins(low, CONNECTION) <==> Begins(low, CONTENT_LENGTH))
  {
  }

  /** While a word is matched, the index is that of its last letter read. */
  predicate Indexed(p: Parser, n: nat) {
    match p.headerState
    case General => true case Connection => true case ContentLength => true
    case TransferEncoding => true case Upgrade => true
    case _ => p.index == n - 1
  }

  predicate InName(p: Parser, low: seq<int>) {
    |low| > 0 && FieldState(p.headerState) && Named(p.headerState, low) && Indexed(p, |low|)
  }

  lemma WordFacts()
    ensures |CONNECTION| == 10 && |CONTENT_LENGTH| == 14 && |PROXY_CONNECTION| == 16
    ensures |TRANSFER_ENCODING| == 17 && |UPGRADE| == 7
    ensures CONNECTION[0] == 'c' && CONNECTION[1] == 'o' && CONNECTION[2] == 'n' && CONNECTION[3] == 'n'
    ensures CONTENT_LENGTH[3] == 't' && CONTENT_LENGTH[0] == 'c'
    ensures PROXY_CONNECTION[0] == 'p' && TRANSFER_ENCODING[0] == 't' && UPGRADE[0] == 'u'
  {
  }

  /** One more letter of each word. */
  lemma AllBeginMore(low: seq<int>, c: int)
    ensures Begins(low + [c], CONNECTION) <==> |low| < 10 && Begins(low, CONNECTION) && c == CharAt(CONNECTION, |low|)
    ensures Begins(low + [c], CONTENT_LENGTH) <==> |low| < 14 && Begins(low, CONTENT_LENGTH) && c == CharAt(CONTENT_LENGTH, |low|)
    ensures Begins(low + [c], PROXY_CONNECTION) <==>
              |low| < 16 && Begins(low, PROXY_CONNECTION) && c == CharAt(PROXY_CONNECTION, |low|)
    ensures Begins(low + [c], TRANSFER_ENCODING) <==>
              |low| < 17 && Begins(low, TRANSFER_ENCODING) && c == CharAt(TRANSFER_ENCODING, |low|)
    ensures Begins(low + [c], UPGRADE) <==> |low| < 7 && Begins(low, UPGRADE) && c == CharAt(UPGRADE, |low|)
  {
    WordFacts();
    BeginsMore(low, c, CONNECTION);
    BeginsMore(low, c, CONTENT_LENGTH);
    BeginsMore(low, c, PROXY_CONNECTION);
    BeginsMore(low, c, TRANSFER_ENCODING);
    BeginsMore(low, c, UPGRADE);
    hide Begins;
  }

  lemma FirstLetters()
    ensures CharAt(CONNECTION, 0) == 'c' as int && CharAt(CONNECTION, 1) == 'o' as int && CharAt(CONNECTION, 2) == 'n' as int
    ensures CharAt(CONNECTION, 3) == 'n' as int && CharAt(CONTENT_LENGTH, 3) == 't' as int && CharAt(CONTENT_LENGTH, 0) == 'c' as int
    ensures CharAt(PROXY_CONNECTION, 0) == 'p' as int && CharAt(TRANSFER_ENCODING, 0) == 't' as int && CharAt(UPGRADE, 0) == 'u' as int
  {
    WordFacts();
  }

  lemma NameStep(p: Parser, low: seq<int>, ch: byte)
    requires InName(p, low) && Token(ch) != 0
    ensures InName(FieldChar(p, ch, Token(ch)), low + [Token(ch)])
  {
    hide Begins, Token, CharAt;
    NoSpaceToken(ch);
    WordFacts();
    FirstLetters();
    AllBeginMore(low, Token(ch));
    ShorterBegins(low, Token(ch));
  }

  lemma NoSpaceToken(ch: byte)
    requires Token(ch) != 0
    ensures ch != SP && ch != ':' as int && ch != CR && ch != LF
  {
  }

  // ----- classes of bytes -----

  /** The separators of section 2.2 of RFC 2616. */
  predicate Separator(c: byte) {
    c == '(' as int || c == ')' as int || c == '<' as int || c == '>' as int || c == '@' as int || c == ',' as int
    || c == ';' as int || c == ':' as int || c == '\\' as int || c == '"' as int || c == '/' as int || c == '[' as int
    || c == ']' as int || c == '?' as int || c == '=' as int || c == '{' as int || c == '}' as int || c == SP || c == TAB
  }

  /** The table holds exactly the characters of a token, the letters in lower case; letters are
      matched in either case; a header may hold anything but control characters. */
  lemma BytesExact(c: byte, x: byte)
    ensures Token(c) != 0 <==> 32 <= c < 127 && !Separator(c)
    ensures Token(c) != 0 ==> Token(c) == if 'A' as int <= c <= 'Z' as int then c + 32 else c
    ensures 'a' as int <= x <= 'z' as int ==> (Lower(c) == x <==> c == x || c == x - 32)
    ensures IsHeaderChar(c) <==> (c >= 32 && c != 127) || c == TAB || c == CR || c == LF
  {
  }

  // ----- reading a name -----

  predicate AllTokens(w: seq<byte>) {
    forall i :: 0 <= i < |w| ==> Token(w[i]) != 0
  }

  /** The name in lower case. */
  function Lowered(w: seq<byte>): (low: seq<int>)
    ensures |low| == |w|
  {
    seq(|w|, i requires 0 <= i < |w| => Token(w[i]))
  }

  lemma LoweredMore(w: seq<byte>, ch: byte)
    ensures Lowered(w + [ch]) == Lowered(w) + [Token(ch)]
  {
  }

  /** A record in the middle of a header name that began at p. */
  function Naming(p: Parser, q: Parser): Parser {
    p.(state := HeaderField, headerState := q.headerState, index := q.index)
  }

  lemma NameBegins(p: Parser, ch: byte, hc: Settings) returns (q: Parser)
    requires p.state == HeaderFieldStart && Token(ch) != 0
    ensures Switch(p, false, ch, hc) == Micro(q, [Mark(Field)], Next) && q == Naming(p, q)
    ensures InName(q, Lowered([ch]))
  {
    assert Switch(p, false, ch, hc) == OnHeaderFieldStart(p, ch, hc);
    NoSpaceToken(ch);
    hide Switch, Token, InName;
    q := OnHeaderFieldStart(p, ch, hc).p;
    assert Lowered([ch]) == [Token(ch)];
    FirstLetterNames(q, Token(ch));
  }

  lemma FirstLetterNames(q: Parser, c: int)
    requires q.index == 0
    requires q.headerState == if c == 'c' as int then C else if c == 'p' as int then MatchingProxyConnection
                              else if c == 't' as int then MatchingTransferEncoding
                              else if c == 'u' as int then MatchingUpgrade else General
    ensures InName(q, [c])
  {
    FirstLetters();
    WordFacts();
    var none: seq<int> := [];
    assert [c] == none + [c];
    AllBeginMore(none, c);
    hide CharAt;
  }

  lemma NameLetter(q: Parser, w: seq<byte>, ch: byte, hc: Settings) returns (r: Parser)
    requires q.state == HeaderField && InName(q, Lowered(w)) && Token(ch) != 0
    ensures Switch(q, false, ch, hc) == Go(r) && r == Naming(q, r) && InName(r, Lowered(w + [ch]))
  {
    assert Switch(q, false, ch, hc) == OnHeaderField(q, ch);
    hide Switch, Token, InName, FieldChar;
    r := FieldChar(q, ch, Token(ch));
    FieldCharKeeps(q, ch, Token(ch));
    NameStep(q, Lowered(w), ch);
    LoweredMore(w, ch);
  }

  lemma FieldCharKeeps(p: Parser, ch: byte, c: int)
    ensures FieldChar(p, ch, c) == p.(headerState := FieldChar(p, ch, c).headerState, index := FieldChar(p, ch, c).index)
  {
  }

  lemma {:induction false} NameLetters(p: Parser, w: seq<byte>, hc: Settings) returns (q: Parser)
    requires Valid(p) && p.state == HeaderFieldStart && |w| > 0 && AllTokens(w)
    ensures Reads(p, w, hc, q, [Data(Field, w)]) && q == Naming(p, q) && InName(q, Lowered(w))
    decreases |w|
  {
    hide Valid, Switch, Reads, Token, InName, Lowered;
    var n := |w| - 1;
    assert w == w[..n] + [w[n]];
    if n == 0 {
      assert w == [w[0]];
      q := NameBegins(p, w[0], hc);
      DataFirst(p, Field, w[0], q, hc);
    } else {
      var r := NameLetters(p, w[..n], hc);
      q := NameLetter(r, w[..n], w[n], hc);
      DataMore(p, w[..n], r, Field, w[n], q, hc);
    }
  }

  lemma ColonEnds(q: Parser, hc: Settings)
    requires q.state == HeaderField
    ensures Switch(q, false, ':' as int, hc) == Micro(q.(state := HeaderValueDiscardWs), [Flush(Field, false)], Next)
  {
    assert Switch(q, false, ':' as int, hc) == OnHeaderField(q, ':' as int);
  }

  /** The header state after a name and the colon says which of the five names it was, in any
      mixture of cases, or that it was none of them. */
  lemma HeaderNameExact(p: Parser, w: seq<byte>, hc: Settings) returns (q: Parser)
    requires Valid(p) && p.state == HeaderFieldStart && |w| > 0 && AllTokens(w)
    ensures Valid(q) && Reads(p, w + [':' as int], hc, q, [Data(Field, w)])
    ensures q == p.(state := HeaderValueDiscardWs, headerState := q.headerState, index := q.index)
    ensures FieldState(q.headerState) && Named(q.headerState, Lowered(w))
  {
    hide Valid, Switch, Reads, ByteEvents, Token, Lowered, Named;
    var r := NameLetters(p, w, hc);
    q := r.(state := HeaderValueDiscardWs);
    ReadsKeeps(p, w, hc, r, [Data(Field, w)]);
    ColonEnds(r, hc);
    ReadsByte(r, ':' as int, hc);
    EventsOf(Field, MessageComplete, ':' as int);
    var none: seq<Event> := [];
    assert w + [] == w && none + [Data(Field, w)] == [Data(Field, w)];
    ThenMore(p, w, r, none, Field, w, [':' as int], q, [], hc);
  }

  // ----- spaces before a value -----

  predicate Spaces(w: seq<byte>) {
    forall i :: 0 <= i < |w| ==> w[i] == SP || w[i] == TAB
  }

  lemma SpaceSkipped(p: Parser, ch: byte, hc: Settings)
    requires p.state == HeaderValueDiscardWs && (ch == SP || ch == TAB)
    ensures Switch(p, false, ch, hc) == Go(p)
  {
    assert Switch(p, false, ch, hc) == OnHeaderValueDiscardWs(p, ch);
  }

  lemma {:induction false} SpacesSkipped(p: Parser, w: seq<byte>, hc: Settings)
    requires Valid(p) && p.state == HeaderValueDiscardWs && Spaces(w)
    ensures Reads(p, w, hc, p, [])
    decreases |w|
  {
    hide Valid, Switch, Reads;
    if |w| == 0 {
      ReadsNothing(p, hc);
    } else {
      var n := |w| - 1;
      SpacesSkipped(p, w[..n], hc);
      SpaceSkipped(p, w[n], hc);
      Quiet(p, w[n], p, hc);
      ThenOn(p, w[..n], p, [w[n]], p, [], hc);
      assert w[..n] + [w[n]] == w;
    }
  }
}
