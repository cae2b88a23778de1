/** The value of Transfer-Encoding: exactly when it says "chunked". */
module HttpCoding {
  import opened Common
  import opened HttpTypes
  import opened HttpSwitch
  import opened HttpInvariant
  import opened HttpBody
  import opened HttpNames
  import opened HttpHeaders

  // ----- the value of Transfer-Encoding -----

  const CHUNKED := "chunked"

  function LowerAll(v: seq<byte>): (low: seq<int>)
    ensures |low| == |v|
  {
    seq(|v|, i requires 0 <= i < |v| => Lower(v[i]) as int)
  }

  /** "chunked" in any mixture of cases, and spaces. */
  predicate SaysChunked(v: seq<byte>) {
    |v| >= 7 && Begins(LowerAll(v[..7]), CHUNKED) && forall i :: 7 <= i < |v| ==> v[i] == SP
  }

  /** What the header state says about the value read so far. */
  predicate InCoding(q: Parser, v: seq<byte>) {
    && |v| > 0 && q.state == HeaderValue
    && (q.headerState == MatchingTransferEncodingChunked || q.headerState == TransferEncodingChunked || q.headerState == General)
    && (q.headerState == MatchingTransferEncodingChunked <==> |v| < 7 && Begins(LowerAll(v), CHUNKED))
    && (q.headerState == MatchingTransferEncodingChunked ==> q.index == |v| - 1)
    && (q.headerState == TransferEncodingChunked <==> SaysChunked(v))
  }

  lemma LowerMore(v: seq<byte>, ch: byte)
    ensures LowerAll(v + [ch]) == LowerAll(v) + [Lower(ch) as int]
  {
  }

  lemma ChunkedMore(v: seq<byte>, ch: byte)
    ensures Begins(LowerAll(v + [ch]), CHUNKED) <==>
              |v| < 7 && Begins(LowerAll(v), CHUNKED) && Lower(ch) == CharAt(CHUNKED, |v|)
    ensures SaysChunked(v + [ch]) <==>
              if |v| < 7 then |v| == 6 && Begins(LowerAll(v + [ch]), CHUNKED) else SaysChunked(v) && ch == SP
  {
    LowerMore(v, ch);
    BeginsMore(LowerAll(v), Lower(ch), CHUNKED);
    if |v| == 6 {
      assert (v + [ch])[..7] == v + [ch];
    } else if |v| > 6 {
      assert (v + [ch])[..7] == v[..7];
      hide Begins, Lower;
      assert (v + [ch])[|v|] == ch;
      assert forall i :: 7 <= i < |v| ==> (v + [ch])[i] == v[i];
    }
  }

  /** The bytes of a value after its first one. */
  predicate Text(v: seq<byte>, hc: Settings) {
    forall i :: 0 <= i < |v| ==> v[i] != CR && v[i] != LF && (i > 0 ==> hc.lenient || IsHeaderChar(v[i]))
  }

  lemma CodingStep(q: Parser, v: seq<byte>, ch: byte, hc: Settings) returns (r: Parser)
    requires InCoding(q, v) && ch != CR && ch != LF && (hc.lenient || IsHeaderChar(ch))
    ensures Switch(q, false, ch, hc) == Go(r) && InCoding(r, v + [ch])
    ensures r == q.(headerState := r.headerState, index := r.index)
  {
    assert q.state == HeaderValue;
    assert Switch(q, false, ch, hc) == OnHeaderValue(q, ch, false, hc);
    hide Switch, IsHeaderChar, ValueChar, InCoding;
    CodingChar(q, v, ch);
    r := ValueChar(q, ch).0;
  }

  lemma CodingChar(q: Parser, v: seq<byte>, ch: byte)
    requires InCoding(q, v)
    ensures
      var (r, e) := ValueChar(q, ch);
      e == OK && InCoding(r, v + [ch]) && r == q.(headerState := r.headerState, index := r.index)
  {
    assert SaysChunked(v) ==> |v| >= 7;
    hide Lower, SaysChunked, Begins, LengthDigit, LowerIsToken, AfterConnectionWord;
    ChunkedMore(v, ch);
  }

  lemma CodingBegins(p: Parser, ch: byte, hc: Settings) returns (q: Parser)
    requires p.state == HeaderValueDiscardWs && p.headerState == TransferEncoding
    requires ch != SP && ch != TAB && ch != CR && ch != LF
    ensures Switch(p, false, ch, hc) == Micro(q, [Mark(Value)], Next) && InCoding(q, [ch])
    ensures q == p.(state := HeaderValue, headerState := q.headerState, index := q.index)
  {
    assert Switch(p, false, ch, hc) == OnHeaderValueStart(p, ch);
    hide Switch;
    q := OnHeaderValueStart(p, ch).p;
    var none: seq<byte> := [];
    assert none + [ch] == [ch];
    assert [Mark(Value)] + [] == [Mark(Value)];
    ChunkedMore(none, ch);
    hide Lower, SaysChunked;
  }

  /** The header state after a value says exactly whether it was "chunked". */
  lemma {:induction false} CodingExact(p: Parser, v: seq<byte>, hc: Settings) returns (q: Parser)
    requires Valid(p) && p.state == HeaderValueDiscardWs && p.headerState == TransferEncoding
    requires |v| > 0 && v[0] != SP && v[0] != TAB && Text(v, hc)
    ensures Reads(p, v, hc, q, [Data(Value, v)]) && InCoding(q, v)
    ensures q == p.(state := HeaderValue, headerState := q.headerState, index := q.index)
    decreases |v|
  {
    hide Valid, Switch, Reads, InCoding, IsHeaderChar;
    var n := |v| - 1;
    assert v == v[..n] + [v[n]];
    if n == 0 {
      assert v == [v[0]];
      q := CodingBegins(p, v[0], hc);
      DataFirst(p, Value, v[0], q, hc);
    } else {
      var r := CodingExact(p, v[..n], hc);
      q := CodingStep(r, v[..n], v[n], hc);
      CodingOpen(r, v[..n]);
      DataMore(p, v[..n], r, Value, v[n], q, hc);
    }
  }

  lemma CodingOpen(q: Parser, v: seq<byte>)
    requires InCoding(q, v)
    ensures q.state == HeaderValue
  {
  }

  /** Such a value holds only letters and spaces. */
  lemma ChunkedText(v: seq<byte>, hc: Settings)
    requires SaysChunked(v)
    ensures |v| > 0 && v[0] != SP && v[0] != TAB && Text(v, hc)
  {
    assert forall i :: 0 <= i < 7 ==> LowerAll(v[..7])[i] == Lower(v[i]) as int;
    forall i | 0 <= i < |v| ensures v[i] != CR && v[i] != LF && IsHeaderChar(v[i]) && (i == 0 ==> v[i] != SP && v[i] != TAB) {
      if i < 7 {
        LetterIsText(v[i], CHUNKED[i]);
      }
    }
  }

  lemma LetterIsText(c: byte, letter: char)
    requires 'a' <= letter <= 'z' && Lower(c) == letter as int
    ensures c != CR && c != LF && c != SP && c != TAB && IsHeaderChar(c)
  {
  }
}
