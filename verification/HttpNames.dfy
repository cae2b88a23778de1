/** What the parser recognizes by name: exactly the method names, and exactly the header names
    it acts on, in any mixture of cases. */
module HttpNames {
  import opened Common
  import opened HttpTypes
  import opened HttpSwitch
  import opened HttpInvariant
  import opened HttpSpec
  import opened HttpFragment

  /** w is the beginning of the word. */
  predicate Begins(w: seq<int>, word: string) {
    |w| <= |word| && forall i :: 0 <= i < |w| ==> w[i] == word[i] as int
  }

  predicate Spells(w: seq<int>, word: string) {
    |w| == |word| && Begins(w, word)
  }

  // ----- methods -----

  /** Where one name turns into another, they have begun alike. */
  lemma RenameAgrees(m: Method, i: nat, ch: byte)
    requires Rename(m, i, ch).Some?
    ensures Branches(m, i, ch, Rename(m, i, ch).value)
  {
    hide MethodString, Branches;
    if m == POST || m == PUT || m == CONNECT || m == MKCOL {
      RenameAgrees1(m, i, ch);
    } else {
      RenameAgrees2(m, i, ch);
    }
  }

  predicate Branches(m: Method, i: nat, ch: byte, n: Method) {
    var a, b := MethodString(m), MethodString(n);
    i < |b| && i < |a| && b[i] as int == ch && forall k :: 0 <= k < i ==> b[k] == a[k]
  }

  lemma RenameAgrees1(m: Method, i: nat, ch: byte)
    requires Rename(m, i, ch).Some? && (m == POST || m == PUT || m == CONNECT || m == MKCOL)
    ensures Branches(m, i, ch, Rename(m, i, ch).value)
  {
  }

  lemma RenameAgrees2(m: Method, i: nat, ch: byte)
    requires Rename(m, i, ch).Some? && !(m == POST || m == PUT || m == CONNECT || m == MKCOL)
    ensures Branches(m, i, ch, Rename(m, i, ch).value)
  {
  }

  lemma FirstAgrees(ch: byte)
    requires FirstMethod(ch).Some?
    ensures
      var a := MethodString(FirstMethod(ch).value);
      |a| > 0 && a[0] as int == ch
  {
  }

  /** The record in the middle of a method name. */
  predicate InMethodName(p: Parser, w: seq<byte>) {
    p.state == ReqMethod && p.index == |w| && Begins(w, MethodString(p.verb))
  }

  lemma MethodStep(p: Parser, w: seq<byte>, ch: byte, hc: Settings)
    requires InMethodName(p, w) && ch != SP
    ensures
      var m := Switch(p, false, ch, hc);
      !m.fin.Exit? && (m.fin.Next? ==> InMethodName(m.p, w + [ch]))
  {
    hide MethodString, Rename;
    assert Switch(p, false, ch, hc) == OnReqMethod(p, ch);
    hide Switch;
    if Rename(p.verb, p.index, ch).Some? {
      RenameAgrees(p.verb, p.index, ch);
    }
  }

  /** A method name ends with a space exactly if it is complete. */
  lemma MethodEnd(p: Parser, w: seq<byte>, hc: Settings)
    requires InMethodName(p, w) && |w| > 0
    ensures
      var m := Switch(p, false, SP, hc);
      if Spells(w, MethodString(p.verb)) then m == Go(p.(state := ReqSpacesBeforeUrl, index := |w| + 1))
      else m == Stop(p, INVALID_METHOD)
  {
    assert Switch(p, false, SP, hc) == OnReqMethod(p, SP);
    NoSpaces(p.verb);
    hide Switch, MethodString, Rename;
  }

  /** A partition of the methods. */
  function Group(m: Method): nat {
    match m
    case DELETE => 0 case GET => 0 case HEAD => 0 case POST => 0 case PUT => 0 case CONNECT => 0
    case OPTIONS => 1 case TRACE => 1 case COPY => 1 case LOCK => 1 case MKCOL => 1 case MOVE => 1
    case PROPFIND => 2 case PROPPATCH => 2 case SEARCH => 2 case UNLOCK => 2 case BIND => 2 case REBIND => 3
    case UNBIND => 3 case ACL => 3 case REPORT => 3 case MKACTIVITY => 3 case CHECKOUT => 3 case MERGE => 4
    case MSEARCH => 4 case NOTIFY => 4 case SUBSCRIBE => 4 case UNSUBSCRIBE => 4 case PATCH => 4
    case PURGE => 5 case MKCALENDAR => 5 case LINK => 5 case UNLINK => 5 case SOURCE => 5
  }

  predicate Printable(word: string) {
    forall i :: 0 <= i < |word| ==> ' ' < word[i] <= 'Z'
  }

  lemma NoSpaces(m: Method)
    ensures Printable(MethodString(m))
  {
    hide MethodString, Printable;
    if Group(m) == 0 { NoSpaces0(m); }
    if Group(m) == 1 { NoSpaces1(m); }
    if Group(m) == 2 { NoSpaces2(m); }
    if Group(m) == 3 { NoSpaces3(m); }
    if Group(m) == 4 { NoSpaces4(m); }
    if Group(m) == 5 { NoSpaces5(m); }
  }

  lemma NoSpaces0(m: Method)
    requires Group(m) == 0
    ensures Printable(MethodString(m))
  {
  }

  lemma NoSpaces1(m: Method)
    requires Group(m) == 1
    ensures Printable(MethodString(m))
  {
  }

  lemma NoSpaces2(m: Method)
    requires Group(m) == 2
    ensures Printable(MethodString(m))
  {
  }

  lemma NoSpaces3(m: Method)
    requires Group(m) == 3
    ensures Printable(MethodString(m))
  {
  }

  lemma NoSpaces4(m: Method)
    requires Group(m) == 4
    ensures Printable(MethodString(m))
  {
  }

  lemma NoSpaces5(m: Method)
    requires Group(m) == 5
    ensures Printable(MethodString(m))
  {
  }

  /** Up to the space, the verb is a method that begins with what was read. */
  lemma {:induction false} MethodRead(p: Parser, w: seq<byte>, hc: Settings)
    requires Valid(p) && p.state == StartReq && |w| > 0 && w[0] != CR && w[0] != LF && SP !in w
    ensures var r := Run(p, w, hc, false); !r.Upgraded? && (r.Running? ==> InMethodName(r.p, w))
    decreases |w|
  {
    hide Valid, MethodString, ByteEvents, Switch, FirstMethod, InMethodName;
    var n := |w| - 1;
    assert w == w[..n] + [w[n]];
    StrictNeverSkips(p, w[..n], hc);
    if n == 0 {
      EmptyRun(p, hc);
      assert w[..n] == [];
      MethodBegins(p, w[0], hc);
    } else {
      MethodRead(p, w[..n], hc);
      var r := Run(p, w[..n], hc, false);
      if r.Running? {
        MethodStep(r.p, w[..n], w[n], hc);
      }
    }
  }

  lemma MethodBegins(p: Parser, ch: byte, hc: Settings)
    requires p.state == StartReq && ch != CR && ch != LF
    ensures
      var m := Switch(p, false, ch, hc);
      && !m.fin.Exit? && (m.fin.Next? ==> InMethodName(m.p, [ch]))
      && (m.fin.Next? <==> FirstMethod(ch).Some?) && (m.fin.Next? ==> m.p.verb == FirstMethod(ch).value)
  {
    assert Switch(p, false, ch, hc) == OnStartReq(p, ch);
    hide Switch, MethodString, FirstMethod;
    if FirstMethod(ch).Some? {
      FirstAgrees(ch);
    }
  }

  // ----- every name is found -----

  function NameBytes(m: Method): (w: seq<byte>)
    ensures |w| == |MethodString(m)|
  {
    NoSpaces(m);
    seq(|MethodString(m)|, i requires 0 <= i < |MethodString(m)| => MethodString(m)[i] as int)
  }

  /** The verb after the first i letters of a name: another method whose name begins alike,
      until the table tells them apart. */
  function Before(m: Method, i: nat): Method {
    match m
    case PUT => if i <= 1 then POST else m
    case PATCH => if i <= 1 then POST else m
    case PROPFIND => if i <= 1 then POST else m
    case PURGE => if i <= 1 then POST else if i <= 2 then PUT else m
    case PROPPATCH => if i <= 1 then POST else if i <= 4 then PROPFIND else m
    case COPY => if i <= 2 then CONNECT else m
    case CHECKOUT => if i <= 1 then CONNECT else m
    case MOVE => if i <= 1 then MKCOL else m
    case MERGE => if i <= 1 then MKCOL else m
    case MSEARCH => if i <= 1 then MKCOL else m
    case MKACTIVITY => if i <= 2 then MKCOL else m
    case MKCALENDAR => if i <= 3 then MKCOL else m
    case SEARCH => if i <= 1 then SUBSCRIBE else m
    case SOURCE => if i <= 1 then SUBSCRIBE else m
    case REBIND => if i <= 2 then REPORT else m
    case LINK => if i <= 1 then LOCK else m
    case UNBIND => if i <= 2 then UNLOCK else m
    case UNSUBSCRIBE => if i <= 2 then UNLOCK else m
    case UNLINK => if i <= 3 then UNLOCK else m
    case _ => m
  }

  /** The next letter leads on. */
  predicate OnWay(m: Method, i: nat)
    requires i < |MethodString(m)|
  {
    var v, c := Before(m, i), MethodString(m)[i] as int;
    if c == CharAt(MethodString(v), i) then Before(m, i + 1) == v
    else 0 <= c < 256 && Rename(v, i, c) == Some(Before(m, i + 1))
  }

  lemma WayBegins(m: Method)
    ensures
      var a := MethodString(m);
      |a| > 0 && a[0] as int < 256 && FirstMethod(a[0] as int) == Some(Before(m, 1)) && Before(m, |a|) == m
  {
  }

  lemma WayGoesOn(m: Method, i: nat)
    requires 1 <= i < |MethodString(m)|
    ensures OnWay(m, i)
  {
    hide MethodString, OnWay, Before;
    if Group(m) <= 1 {
      WayGoesOn1(m, i);
    } else if Group(m) <= 3 {
      WayGoesOn2(m, i);
    } else {
      WayGoesOn3(m, i);
    }
  }

  lemma WayGoesOn1(m: Method, i: nat)
    requires 1 <= i < |MethodString(m)| && Group(m) <= 1
    ensures OnWay(m, i)
  {
  }

  lemma WayGoesOn2(m: Method, i: nat)
    requires 1 <= i < |MethodString(m)| && 2 <= Group(m) <= 3
    ensures OnWay(m, i)
  {
  }

  lemma WayGoesOn3(m: Method, i: nat)
    requires 1 <= i < |MethodString(m)| && 4 <= Group(m)
    ensures OnWay(m, i)
  {
  }

  lemma RenameLetter(m: Method, i: nat, ch: byte)
    requires Rename(m, i, ch).Some?
    ensures 'A' as int <= ch <= 'Z' as int || ch == '-' as int
  {
  }

  lemma WayStep(p: Parser, m: Method, w: seq<byte>, hc: Settings)
    requires InMethodName(p, w) && 1 <= |w| < |MethodString(m)| && p.verb == Before(m, |w|)
    ensures
      var s := Switch(p, false, NameBytes(m)[|w|], hc);
      s.fin.Next? && s.p.verb == Before(m, |w| + 1)
  {
    hide MethodString, Rename, Before;
    var i, ch := |w|, NameBytes(m)[|w|];
    NoSpaces(m);
    WayGoesOn(m, i);
    assert Switch(p, false, ch, hc) == OnReqMethod(p, ch);
    hide Switch;
    if ch != CharAt(MethodString(p.verb), i) {
      RenameLetter(p.verb, i, ch);
    }
  }

  lemma {:induction false} NameRead(p: Parser, m: Method, i: nat, hc: Settings)
    requires Valid(p) && p.state == StartReq && 1 <= i <= |MethodString(m)|
    ensures
      var r := Run(p, NameBytes(m)[..i], hc, false);
      r.Running? && InMethodName(r.p, NameBytes(m)[..i]) && r.p.verb == Before(m, i)
    decreases i
  {
    hide Valid, MethodString, Switch, FirstMethod, InMethodName, NameBytes, Before, Run;
    var w := NameBytes(m);
    NameOrdinary(m);
    RunOne(p, w, i - 1, hc, false);
    StrictNeverSkips(p, w[..i - 1], hc);
    if i == 1 {
      EmptyRun(p, hc);
      assert w[..0] == [] && w[..1] == [w[0]];
      MethodBegins(p, w[0], hc);
    } else {
      NameRead(p, m, i - 1, hc);
      var r := Run(p, w[..i - 1], hc, false);
      MethodStep(r.p, w[..i - 1], w[i - 1], hc);
      WayStep(r.p, m, w[..i - 1], hc);
      assert w[..i - 1] + [w[i - 1]] == w[..i];
    }
  }

  lemma NameOrdinary(m: Method)
    ensures
      var w := NameBytes(m);
      && |w| > 0 && SP !in w && CR !in w && LF !in w
      && FirstMethod(w[0]) == Some(Before(m, 1)) && Before(m, |w|) == m
  {
    NoSpaces(m);
    WayBegins(m);
    hide MethodString, Before, FirstMethod;
  }

  /** A request line begins with one of the 34 method names, and the verb is that method;
      any other word before the first space is an error. */
  lemma MethodExact(p: Parser, w: seq<byte>, hc: Settings)
    requires Valid(p) && p.state == StartReq && |w| > 0 && w[0] != CR && w[0] != LF && SP !in w
    ensures
      var r := Run(p, w + [SP], hc, false);
      && (r.Running? <==> exists m :: w == NameBytes(m)) && !r.Upgraded?
      && (r.Running? ==> w == NameBytes(r.p.verb) && r.p.state == ReqSpacesBeforeUrl)
  {
    hide Valid, MethodString, Switch, InMethodName, ByteEvents, NameBytes, Before;
    MethodRead(p, w, hc);
    StrictNeverSkips(p, w, hc);
    assert (w + [SP])[..|w|] == w;
    var r := Run(p, w, hc, false);
    if r.Running? {
      MethodEnd(r.p, w, hc);
      SpellsName(w, r.p.verb);
    }
    if m :| w == NameBytes(m) {
      NameOrdinary(m);
      NameLength(m);
      assert w[..|w|] == w;
      NameRead(p, m, |w|, hc);
      SpellsName(w, m);
    }
  }

  lemma NameLength(m: Method)
    ensures |NameBytes(m)| == |MethodString(m)| >= 1
  {
    WayBegins(m);
  }

  lemma SpellsName(w: seq<byte>, m: Method)
    ensures Spells(w, MethodString(m)) <==> w == NameBytes(m)
  {
    hide MethodString;
  }
}
