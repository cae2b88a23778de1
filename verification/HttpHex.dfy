/** Chunk sizes against section 3.6.1 of RFC 2616: exactly which size fields the table of the
    source misreads. */
module HttpHex {
  import opened Common
  import opened HttpTypes
  import opened HttpSwitch
  import opened HttpInvariant
  import opened HttpSpec
  import opened HttpFragment
  import opened HttpBody

  /** HEX of section 2.2 of RFC 2616. */
  predicate IsHexDigit(c: byte) {
    '0' as int <= c <= '9' as int || 'a' as int <= c <= 'f' as int || 'A' as int <= c <= 'F' as int
  }

  function HexDigit(c: byte): nat
    requires IsHexDigit(c)
  {
    if c <= '9' as int then c - '0' as int else if c <= 'F' as int then 10 + (c - 'A' as int) else 10 + (c - 'a' as int)
  }

  predicate HexField(s: seq<byte>) {
    |s| > 0 && forall i :: 0 <= i < |s| ==> IsHexDigit(s[i])
  }

  /** The number a field of hexadecimal digits stands for. */
  function HexNumber(s: seq<byte>): nat
    requires forall i :: 0 <= i < |s| ==> IsHexDigit(s[i])
  {
    if |s| == 0 then 0 else 16 * HexNumber(s[..|s| - 1]) + HexDigit(s[|s| - 1])
  }

  /** A byte from the half of the table that is not written out. */
  predicate HasHigh(s: seq<byte>) {
    exists i :: 0 <= i < |s| && s[i] >= 128
  }

  /** The table takes the hexadecimal digits, and every byte from 128 on as a zero. */
  lemma UnhexExact(c: byte)
    ensures Unhex(c) != -1 <==> IsHexDigit(c) || c >= 128
    ensures IsHexDigit(c) ==> c < 128 && Unhex(c) == HexDigit(c)
  {
  }

  /** On fields of hexadecimal digits the table and the standard agree. */
  lemma {:induction false} HexIsNumber(s: seq<byte>)
    requires forall i :: 0 <= i < |s| ==> IsHexDigit(s[i])
    ensures HexDigits(s) && Hex(s) == HexNumber(s)
    decreases |s|
  {
    hide Unhex, IsHexDigit, HexDigit;
    forall i | 0 <= i < |s| ensures Unhex(s[i]) != -1 {
      UnhexExact(s[i]);
    }
    if |s| > 0 {
      HexIsNumber(s[..|s| - 1]);
      UnhexExact(s[|s| - 1]);
    }
  }

  lemma FieldExact(s: seq<byte>)
    requires |s| > 0
    ensures HexField(s) <==> HexDigits(s) && !HasHigh(s)
  {
    hide Unhex, IsHexDigit;
    forall i | 0 <= i < |s|
      ensures Unhex(s[i]) != -1 <==> IsHexDigit(s[i]) || s[i] >= 128
      ensures IsHexDigit(s[i]) ==> s[i] < 128
    {
      UnhexExact(s[i]);
    }
  }

  // ----- what the parser makes of any size field -----

  const LARGEST := ULLONG_MAX - 16

  /** None of these ends a size field. */
  predicate NoTerminator(s: seq<byte>) {
    forall i :: 1 <= i < |s| ==> s[i] != CR && s[i] != ';' as int && s[i] != SP
  }

  lemma BadFirst(p: Parser, ch: byte, hc: Settings)
    requires p.state == ChunkSizeStart && Unhex(ch) == -1
    ensures Switch(p, false, ch, hc) == Stop(p, INVALID_CHUNK_SIZE)
  {
    assert Switch(p, false, ch, hc) == OnChunkSizeStart(p, ch);
  }

  lemma BadNext(q: Parser, ch: byte, hc: Settings)
    requires q.state == ChunkSize && Unhex(ch) == -1 && ch != CR && ch != ';' as int && ch != SP
    ensures Switch(q, false, ch, hc) == Stop(q, INVALID_CHUNK_SIZE)
  {
    assert Switch(q, false, ch, hc) == OnChunkSize(q, ch);
  }

  /** Any size field is taken exactly if the table takes all its bytes and the value is not
      too large. */
  lemma {:induction false} TableRead(p: Parser, s: seq<byte>, hc: Settings)
    requires Valid(p) && p.state == ChunkSizeStart && |s| > 0 && NoTerminator(s)
    ensures !Run(p, s, hc, false).Upgraded?
    ensures Run(p, s, hc, false).Running? <==> HexDigits(s) && Hex(s) <= LARGEST
    ensures Run(p, s, hc, false).Running? ==> Run(p, s, hc, false).p == p.(state := ChunkSize, contentLength := Hex(s))
    decreases |s|
  {
    hide Valid, Unhex, Switch, Join, ByteEvents, Run;
    var n := |s| - 1;
    if HexDigits(s) {
      HexAccepted(p, s, hc);
    } else if n == 0 {
      EmptyRun(p, hc);
      assert s[..0] == [] && s[..1] == s;
      BadFirst(p, s[0], hc);
      RunOne(p, s, 0, hc, false);
    } else {
      TableRead(p, s[..n], hc);
      RunOne(p, s, n, hc, false);
      assert s[..n + 1] == s;
      StrictNeverSkips(p, s[..n], hc);
      var r := Run(p, s[..n], hc, false);
      if r.Running? {
        assert Unhex(s[n]) == -1;
        BadNext(r.p, s[n], hc);
      }
    }
  }

  /** The field is taken exactly if it is hexadecimal and not too large, and then as its
      number. */
  ghost predicate ReadRight(p: Parser, s: seq<byte>, hc: Settings)
    requires Valid(p)
  {
    var r := Run(p, s, hc, false);
    && (r.Running? <==> HexField(s) && HexNumber(s) <= LARGEST)
    && (r.Running? ==> r.p == p.(state := ChunkSize, contentLength := HexNumber(s)))
  }

  /** The table takes the field although a byte of it is none of the standard's digits. */
  predicate Misread(s: seq<byte>) {
    HasHigh(s) && HexDigits(s) && Hex(s) <= LARGEST
  }

  /** Every size field is read as the standard has it, except exactly the misread ones: a
      field the parser takes is read right if and only if no byte of it is 128 or above, and
      a field it refuses is refused rightly. */
  lemma SizeFieldExact(p: Parser, s: seq<byte>, hc: Settings)
    requires Valid(p) && p.state == ChunkSizeStart && |s| > 0 && NoTerminator(s)
    ensures ReadRight(p, s, hc) <==> !Misread(s)
    ensures Run(p, s, hc, false).Running? ==> (ReadRight(p, s, hc) <==> !HasHigh(s))
    ensures !Run(p, s, hc, false).Running? ==> ReadRight(p, s, hc)
  {
    hide Valid, Unhex, Run, IsHexDigit, HexNumber, Hex, HasHigh;
    TableRead(p, s, hc);
    FieldExact(s);
    if HexField(s) {
      HexIsNumber(s);
    }
  }

  /** The size line of the byte 128 alone is read as that of the last chunk. */
  lemma HighByteExample(p: Parser, hc: Settings)
    requires Valid(p) && p.state == ChunkSizeStart
    ensures Reads(p, [0x80, CR, LF], hc, Announced(p, 0), [ChunkHeader(0)])
    ensures !HexField([0x80]) && Misread([0x80]) && !ReadRight(p, [0x80], hc)
  {
    hide Valid, Run, Reads;
    var s: seq<byte> := [0x80];
    assert s[..0] == [] && Unhex(s[0]) == 0;
    assert Hex(s[..0]) == 0 && Hex(s) == 0;
    assert s[0] >= 128;
    var none: seq<byte> := [];
    Line(p, s, none, 0, hc);
    assert s + none + [CR, LF] == [0x80, CR, LF];
    SizeFieldExact(p, s, hc);
  }
}
