/** The URL of a request: exactly which bytes the parser takes for one, and that it hands over
    exactly those. */
module HttpUrl {
  import opened Common
  import opened HttpTypes
  import opened HttpSwitch
  import opened HttpInvariant
  import opened HttpSpec
  import opened HttpBody
  import opened HttpLength

  // ----- the grammar -----

  /** Printable ASCII without the space. */
  predicate Visible(u: seq<byte>) {
    forall i :: 0 <= i < |u| ==> 33 <= u[i] <= 126
  }

  predicate Letter(c: byte) {
    'a' as int <= c <= 'z' as int || 'A' as int <= c <= 'Z' as int
  }

  /** Letters, digits and the marks ! $ % & ' ( ) * + , - . : ; = [ ] _ ~ */
  predicate HostChar(c: byte) {
    Letter(c) || '0' as int <= c <= '9' as int || c == '!' as int || '$' as int <= c <= '.' as int
    || c == ':' as int || c == ';' as int || c == '=' as int || c == '[' as int || c == ']' as int
    || c == '_' as int || c == '~' as int
  }

  /** A host with user information, no two '@' in a row, and a path or a query. */
  predicate Authority(u: seq<byte>, afterAt: bool) {
    |u| == 0
    || if u[0] == '/' as int || u[0] == '?' as int then Visible(u[1..])
       else if u[0] == '@' as int then !afterAt && Authority(u[1..], true)
       else HostChar(u[0]) && Authority(u[1..], false)
  }

  /** Letters, "://" and an authority that is not empty. */
  predicate AfterScheme(u: seq<byte>) {
    |u| > 0
    && if Letter(u[0]) then AfterScheme(u[1..])
       else |u| > 3 && u[0] == ':' as int && u[1] == '/' as int && u[2] == '/' as int && Authority(u[3..], false)
  }

  /** An authority for CONNECT; a path, '*' or an absolute URL for the others. */
  predicate IsUrl(m: Method, u: seq<byte>) {
    |u| > 0
    && if m == CONNECT then Authority(u, false)
       else if u[0] == '/' as int || u[0] == '*' as int then Visible(u[1..])
       else Letter(u[0]) && AfterScheme(u[1..])
  }

  // ----- what parse_url_char makes of it -----

  function Scanned(s: State, u: seq<byte>): State {
    if |u| == 0 then s else ParseUrlChar(Scanned(s, u[..|u| - 1]), u[|u| - 1])
  }

  lemma {:induction false} ScannedFirst(s: State, u: seq<byte>)
    requires |u| > 0
    ensures Scanned(s, u) == Scanned(ParseUrlChar(s, u[0]), u[1..])
    decreases |u|
  {
    hide ParseUrlChar;
    var n := |u| - 1;
    if n == 0 {
      assert u[..n] == [] && u[1..] == [];
    } else {
      ScannedFirst(s, u[..n]);
      assert u[..n][1..] == u[1..][..n - 1];
    }
  }

  lemma {:induction false} DeadStays(u: seq<byte>)
    ensures Scanned(Dead, u) == Dead
    decreases |u|
  {
    if |u| > 0 {
      DeadStays(u[..|u| - 1]);
    }
  }

  predicate InPath(s: State) {
    s == ReqPath || s == ReqQueryStringStart || s == ReqQueryString || s == ReqFragmentStart || s == ReqFragment
  }

  predicate InServer(s: State) {
    s == ReqServerStart || s == ReqServer || s == ReqServerWithAt
  }

  /** The URL may end here. */
  predicate MayEnd(s: State) {
    InPath(s) || s == ReqServer || s == ReqServerWithAt
  }

  lemma PathStep(s: State, ch: byte)
    requires InPath(s)
    ensures if 33 <= ch <= 126 then InPath(ParseUrlChar(s, ch)) else ParseUrlChar(s, ch) == Dead
  {
  }

  lemma {:induction false} PathScanned(s: State, u: seq<byte>)
    requires InPath(s)
    ensures if Visible(u) then InPath(Scanned(s, u)) else Scanned(s, u) == Dead
    decreases |u|
  {
    hide ParseUrlChar, InPath;
    if |u| == 0 {
    } else {
      var n := |u| - 1;
      PathScanned(s, u[..n]);
      if Visible(u[..n]) {
        PathStep(Scanned(s, u[..n]), u[n]);
      } else {
        DeadStays([u[n]]);
        assert [u[n]][..0] == [];
      }
    }
  }

  lemma Letters(c: byte)
    ensures IsAlpha(c) <==> Letter(c)
  {
  }

  lemma HostChars(c: byte)
    ensures IsUserinfoChar(c) || c == '[' as int || c == ']' as int <==> HostChar(c)
  {
    Letters(c);
    hide IsAlpha;
  }

  lemma ServerStep(s: State, ch: byte)
    requires InServer(s)
    ensures
      var t := ParseUrlChar(s, ch);
      if ch == '/' as int || ch == '?' as int then InPath(t)
      else if ch == '@' as int then t == (if s == ReqServerWithAt then Dead else ReqServerWithAt)
      else t == if HostChar(ch) then ReqServer else Dead
  {
    HostChars(ch);
    hide IsUserinfoChar;
  }

  lemma {:induction false} ServerScanned(s: State, u: seq<byte>)
    requires InServer(s)
    ensures if Authority(u, s == ReqServerWithAt) then |u| == 0 || MayEnd(Scanned(s, u)) else Scanned(s, u) == Dead
    decreases |u|
  {
    hide ParseUrlChar, HostChar, Visible;
    if |u| > 0 {
      var t := ParseUrlChar(s, u[0]);
      ScannedFirst(s, u);
      ServerStep(s, u[0]);
      DeadStays(u[1..]);
      if InPath(t) {
        PathScanned(t, u[1..]);
      } else if t != Dead {
        ServerScanned(t, u[1..]);
        if |u| == 1 {
          assert u[1..] == [];
        }
      }
    }
  }

  lemma SchemeStep(ch: byte)
    ensures ParseUrlChar(ReqSchema, ch) ==
              if Letter(ch) then ReqSchema else if ch == ':' as int then ReqSchemaSlash else Dead
    ensures ParseUrlChar(ReqSchemaSlash, ch) == if ch == '/' as int then ReqSchemaSlashSlash else Dead
    ensures ParseUrlChar(ReqSchemaSlashSlash, ch) == if ch == '/' as int then ReqServerStart else Dead
  {
    Letters(ch);
    hide IsAlpha;
  }

  lemma {:induction false} SchemeScanned(u: seq<byte>)
    ensures MayEnd(Scanned(ReqSchema, u)) <==> AfterScheme(u)
    decreases |u|
  {
    hide ParseUrlChar, Letter, Authority;
    if |u| > 0 {
      ScannedFirst(ReqSchema, u);
      SchemeStep(u[0]);
      DeadStays(u[1..]);
      if Letter(u[0]) {
        SchemeScanned(u[1..]);
      } else if u[0] == ':' as int {
        SlashesScanned(u[1..]);
        if |u| > 3 {
          assert u[1..][2..] == u[3..];
        }
      }
    }
  }

  lemma SlashesScanned(v: seq<byte>)
    ensures MayEnd(Scanned(ReqSchemaSlash, v)) <==>
              |v| > 2 && v[0] == '/' as int && v[1] == '/' as int && Authority(v[2..], false)
  {
    hide ParseUrlChar, Authority;
    if |v| > 0 {
      ScannedFirst(ReqSchemaSlash, v);
      SchemeStep(v[0]);
      DeadStays(v[1..]);
      SlashScanned(v[1..]);
      if |v| > 2 {
        assert v[1..][1..] == v[2..];
      }
    }
  }

  lemma SlashScanned(v: seq<byte>)
    ensures MayEnd(Scanned(ReqSchemaSlashSlash, v)) <==> |v| > 1 && v[0] == '/' as int && Authority(v[1..], false)
  {
    hide ParseUrlChar, Authority;
    if |v| > 0 {
      ScannedFirst(ReqSchemaSlashSlash, v);
      SchemeStep(v[0]);
      DeadStays(v[1..]);
      ServerScanned(ReqServerStart, v[1..]);
    }
  }

  /** The state in which the first byte of a URL is read. */
  function UrlStart(m: Method): State {
    if m == CONNECT then ReqServerStart else ReqSpacesBeforeUrl
  }

  lemma FirstStep(ch: byte)
    ensures ParseUrlChar(ReqSpacesBeforeUrl, ch) ==
              if ch == '/' as int || ch == '*' as int then ReqPath else if Letter(ch) then ReqSchema else Dead
  {
    Letters(ch);
    hide IsAlpha;
  }

  lemma UrlScanned(m: Method, u: seq<byte>)
    requires |u| > 0
    ensures MayEnd(Scanned(UrlStart(m), u)) <==> IsUrl(m, u)
  {
    hide ParseUrlChar, Letter, Authority, Visible, AfterScheme;
    if m == CONNECT {
      ServerScanned(ReqServerStart, u);
    } else {
      ScannedFirst(ReqSpacesBeforeUrl, u);
      FirstStep(u[0]);
      DeadStays(u[1..]);
      PathScanned(ReqPath, u[1..]);
      SchemeScanned(u[1..]);
    }
  }

  // ----- the run over a URL -----

  predicate NoBreak(u: seq<byte>) {
    SP !in u && CR !in u && LF !in u
  }

  predicate UrlState(s: State) {
    s == ReqSchema || s == ReqSchemaSlash || s == ReqSchemaSlashSlash || InServer(s) || InPath(s)
  }

  lemma ScannedState(s: State, ch: byte)
    requires UrlState(s) || s == ReqSpacesBeforeUrl
    ensures ParseUrlChar(s, ch) == Dead || UrlState(ParseUrlChar(s, ch))
  {
    hide ParseUrlChar, Letter, HostChar;
    FirstStep(ch);
    SchemeStep(ch);
    if InPath(s) {
      PathStep(s, ch);
    } else if InServer(s) {
      ServerStep(s, ch);
    }
  }

  lemma UrlBegins(p: Parser, ch: byte, hc: Settings)
    requires p.state == ReqSpacesBeforeUrl && ch != SP
    ensures
      var m, s := Switch(p, false, ch, hc), ParseUrlChar(UrlStart(p.verb), ch);
      if s == Dead then m.fin == Fail(INVALID_URL)
      else m == Micro(p.(state := s), [Mark(Url)], Next)
  {
    assert Switch(p, false, ch, hc) == OnReqSpacesBeforeUrl(p, ch);
    hide Switch, ParseUrlChar;
    var none: seq<Op> := [];
    assert [Mark(Url)] + none == [Mark(Url)];
  }

  lemma UrlGoesOn(p: Parser, ch: byte, hc: Settings)
    requires UrlState(p.state) && ch != SP && ch != CR && ch != LF
    ensures
      var m, s := Switch(p, false, ch, hc), ParseUrlChar(p.state, ch);
      if s == Dead then m.fin == Fail(INVALID_URL) else m == Goto(p, s)
  {
    assert Switch(p, false, ch, hc) == UrlChar(p, ch);
    hide Switch, ParseUrlChar;
  }

  lemma UrlOpen(s: State)
    requires UrlState(s)
    ensures OpenKind(s) == Some(Url)
  {
    UrlOpens();
    hide OpenKind;
  }

  lemma UrlOpens()
    ensures OpenKind(ReqSchema) == Some(Url) && OpenKind(ReqSchemaSlash) == Some(Url)
    ensures OpenKind(ReqSchemaSlashSlash) == Some(Url) && OpenKind(ReqServerStart) == Some(Url)
    ensures OpenKind(ReqServer) == Some(Url) && OpenKind(ReqServerWithAt) == Some(Url) && OpenKind(ReqPath) == Some(Url)
    ensures OpenKind(ReqQueryStringStart) == Some(Url) && OpenKind(ReqQueryString) == Some(Url)
    ensures OpenKind(ReqFragmentStart) == Some(Url) && OpenKind(ReqFragment) == Some(Url)
  {
  }

  /** The run over the bytes of a URL: the state is that of the scan, and the bytes are data. */
  lemma {:induction false} UrlRun(p: Parser, u: seq<byte>, hc: Settings)
    requires Valid(p) && p.state == ReqSpacesBeforeUrl && |u| > 0 && NoBreak(u)
    ensures
      var s := Scanned(UrlStart(p.verb), u);
      if s == Dead then Run(p, u, hc, false).Failed? && Run(p, u, hc, false).errno == INVALID_URL
      else UrlState(s) && Reads(p, u, hc, p.(state := s), [Data(Url, u)])
    decreases |u|
  {
    hide Valid, Switch, Reads, Run, ParseUrlChar;
    var n := |u| - 1;
    assert u == u[..n] + [u[n]];
    if n == 0 {
      UrlRunFirst(p, u, hc);
    } else {
      UrlRun(p, u[..n], hc);
      var t := Scanned(UrlStart(p.verb), u[..n]);
      if t == Dead {
        DeadStays([u[n]]);
        assert [u[n]][..0] == [];
        RunEnded(p, u, n, hc, false);
      } else {
        UrlRunNext(p, u[..n], t, u[n], hc);
      }
    }
  }

  lemma UrlRunFirst(p: Parser, u: seq<byte>, hc: Settings)
    requires Valid(p) && p.state == ReqSpacesBeforeUrl && |u| == 1 && u[0] != SP
    ensures
      var s := Scanned(UrlStart(p.verb), u);
      if s == Dead then Run(p, u, hc, false).Failed? && Run(p, u, hc, false).errno == INVALID_URL
      else UrlState(s) && Reads(p, u, hc, p.(state := s), [Data(Url, u)])
  {
    hide Valid, Switch, Reads, Run, ParseUrlChar;
    assert u[..0] == [] && u == [u[0]] && [] + u == u;
    assert Scanned(UrlStart(p.verb), []) == UrlStart(p.verb);
    assert Scanned(UrlStart(p.verb), u) == ParseUrlChar(UrlStart(p.verb), u[0]);
    UrlBegins(p, u[0], hc);
    ScannedState(UrlStart(p.verb), u[0]);
    if ParseUrlChar(UrlStart(p.verb), u[0]) == Dead {
      ReadsNothing(p, hc);
      FailsAfter(p, [], p, [], u[0], INVALID_URL, hc);
    } else {
      DataFirst(p, Url, u[0], p.(state := Scanned(UrlStart(p.verb), u)), hc);
    }
  }

  lemma UrlRunNext(p: Parser, v: seq<byte>, t: State, ch: byte, hc: Settings)
    requires UrlState(t) && Reads(p, v, hc, p.(state := t), [Data(Url, v)]) && ch != SP && ch != CR && ch != LF
    ensures
      var s, u := ParseUrlChar(t, ch), v + [ch];
      if s == Dead then Run(p, u, hc, false).Failed? && Run(p, u, hc, false).errno == INVALID_URL
      else UrlState(s) && Reads(p, u, hc, p.(state := s), [Data(Url, u)])
  {
    hide Valid, Switch, Reads, Run, ParseUrlChar;
    var q := p.(state := t);
    UrlGoesOn(q, ch, hc);
    ScannedState(t, ch);
    UrlOpen(t);
    if ParseUrlChar(t, ch) == Dead {
      FailsAfter(p, v, q, [Data(Url, v)], ch, INVALID_URL, hc);
    } else {
      DataMore(p, v, q, Url, ch, p.(state := ParseUrlChar(t, ch)), hc);
    }
  }

  // ----- the end of a URL -----

  lemma UrlEndSwitch(q: Parser, ch: byte, hc: Settings)
    requires UrlState(q.state) && (ch == SP || ch == CR || ch == LF)
    ensures
      var m := Switch(q, false, ch, hc);
      if !MayEnd(q.state) then m.fin == Fail(INVALID_URL)
      else m == Micro(AfterUrl(q, ch), [Flush(Url, false)], Next)
  {
  }

  /** The record after a URL and the byte that ends it. */
  function AfterUrl(q: Parser, ch: byte): Parser {
    if ch == SP then q.(state := ReqHttpStart)
    else q.(httpMajor := 0, httpMinor := 9, state := if ch == CR then ReqLineAlmostDone else HeaderFieldStart)
  }

  /** A request line goes on after its URL exactly if the bytes up to the next space or line
      end are a URL; they are handed over without that byte. */
  lemma UrlExact(p: Parser, u: seq<byte>, ch: byte, hc: Settings)
    requires Valid(p) && p.state == ReqSpacesBeforeUrl && |u| > 0 && NoBreak(u) && (ch == SP || ch == CR || ch == LF)
    ensures IsUrl(p.verb, u) ==> Reads(p, u + [ch], hc, AfterUrl(p, ch), [Data(Url, u)])
    ensures !IsUrl(p.verb, u) ==> Run(p, u + [ch], hc, false).Failed? && Run(p, u + [ch], hc, false).errno == INVALID_URL
  {
    hide Valid, Switch, Reads, ByteEvents, Run, IsUrl, ParseUrlChar;
    UrlScanned(p.verb, u);
    UrlRun(p, u, hc);
    var s := Scanned(UrlStart(p.verb), u);
    assert (u + [ch])[..|u|] == u;
    if s == Dead {
      RunEnded(p, u + [ch], |u|, hc, false);
    } else {
      var q := p.(state := s);
      UrlEndSwitch(q, ch, hc);
      UrlOpen(s);
      if MayEnd(s) {
        var none: seq<Event> := [];
        ReadsKeeps(p, u, hc, q, [Data(Url, u)]);
        ReadsByte(q, ch, hc);
        EventsOf(Url, MessageComplete, ch);
        assert none + [Data(Url, u)] == [Data(Url, u)] && u + [] == u;
        ThenMore(p, u, q, none, Url, u, [ch], AfterUrl(p, ch), [], hc);
      } else {
        FailsAfter(p, u, q, [Data(Url, u)], ch, INVALID_URL, hc);
      }
    }
  }
}
