/** The bytes after the data (qrcode/qrinput.c:1136-1183): terminator, bits up to a whole byte,
    and pad bytes (sections 6.4.8 and 6.4.9 of ISO/IEC 18004). */
module QrPadding {
  import opened Common
  import opened QrBits
  import opened QrReader

  // ----- what the standard asks for -----

  /** The bytes hold the stream, and after it what the standard has there. */
  ghost predicate Filled(bytes: seq<byte>, stream: seq<bool>) {
    && |stream| <= 8 * |bytes| && BytesBits(bytes)[..|stream|] == stream
    && exists first: nat :: FilledFrom(bytes, |stream|, first)
  }

  /** After n bits: four zeros, or fewer where the symbol is full, and as many more as the first
      byte boundary is away; from that byte on 0xec and 0x11 in turn. */
  predicate FilledFrom(bytes: seq<byte>, n: nat, first: nat) {
    var rest := 8 * |bytes| - n;
    && 0 <= rest && n + (if rest < 4 then rest else 4) <= 8 * first < n + (if rest < 4 then rest else 4) + 8
    && (forall b :: n <= b < 8 * first && b < 8 * |bytes| ==> !BytesBits(bytes)[b])
    && forall k :: first <= k < |bytes| ==> bytes[k] == if (k - first) % 2 == 0 then 0xec else 0x11
  }

  // ----- what the source appends -----

  /** The padding after a stream of n bits in a symbol of words bytes. */
  function Padding(n: nat, words: nat): seq<bool>
    requires n <= 8 * words
  {
    if 8 * words - n <= 4 then NumBits(8 * words - n, 0)
    else NumBits((n + 11) / 8 * 8 - n, 0) + BytesBits(PadBytes(words - (n + 11) / 8))
  }

  /** 0xec and 0x11 in turn. */
  function PadBytes(n: int): (r: seq<byte>)
    ensures |r| == if n > 0 then n else 0
    ensures forall i :: 0 <= i < |r| ==> r[i] == if i % 2 == 0 then 0xec else 0x11
  {
    if n <= 0 then [] else PadBytes(n - 1) + [if n % 2 == 1 then 0xec else 0x11]
  }

  /** The padding fills the symbol and begins with a terminator. */
  lemma PaddingFills(n: nat, words: nat)
    requires n <= 8 * words
    ensures n + |Padding(n, words)| == 8 * words
    ensures Terminated(Padding(n, words))
  {
    hide Value, NumBits, PadBytes;
    var z := if 8 * words - n <= 4 then 8 * words - n else (n + 11) / 8 * 8 - n;
    if z >= 4 {
      ZeroBits(z);
      assert Padding(n, words)[..4] == NumBits(z, 0)[..4];
    }
  }

  lemma {:induction false} ZeroBits(n: nat)
    requires n >= 4
    ensures Value(NumBits(n, 0)[..4]) == 0
    decreases n
  {
    if n == 4 {
      ValueOfBits(4, 0);
      assert NumBits(4, 0)[..4] == NumBits(4, 0);
    } else {
      ZeroBits(n - 1);
      assert NumBits(n, 0)[..4] == NumBits(n - 1, 0)[..4];
    }
  }

  lemma NoPadding(was: seq<bool>)
    requires |was| % 8 == 0
    ensures was + Padding(|was|, |was| / 8) == was
  {
  }

  lemma NoBytes(mid: seq<bool>)
    ensures forall n: int {:trigger PadBytes(n)} :: n <= 0 ==> mid == mid + BytesBits(PadBytes(n))
  {
  }

  lemma OnePadByte(i: nat)
    ensures BytesBits(PadBytes(i + 1)) == BytesBits(PadBytes(i)) + NumBits(8, if i % 2 == 1 then 0x11 else 0xec)
  {
    assert PadBytes(i + 1)[..i] == PadBytes(i);
  }

  // ----- it is that -----

  lemma {:induction false} ZeroBit(n: nat, i: nat)
    requires i < n
    ensures !NumBits(n, 0)[i]
    decreases n
  {
    if i < n - 1 {
      ZeroBit(n - 1, i);
    }
  }

  /** Byte k is in the bits from 8 * k on. */
  lemma {:induction false} BitsOfByte(s: seq<byte>, k: nat)
    requires k < |s|
    ensures BytesBits(s)[8 * k..8 * k + 8] == NumBits(8, s[k])
    decreases |s|
  {
    hide NumBits;
    var n := |s| - 1;
    assert BytesBits(s) == BytesBits(s[..n]) + NumBits(8, s[n]);
    hide BytesBits;
    if k < n {
      BitsOfByte(s[..n], k);
      assert BytesBits(s)[8 * k..8 * k + 8] == BytesBits(s[..n])[8 * k..8 * k + 8];
    } else {
      assert BytesBits(s)[8 * n..] == NumBits(8, s[n]);
    }
  }

  lemma SameByte(a: byte, b: byte)
    requires NumBits(8, a) == NumBits(8, b)
    ensures a == b
  {
    Powers();
    ValueOfBits(8, a);
    ValueOfBits(8, b);
    hide NumBits, Value;
  }

  lemma ZerosThere(all: seq<bool>, stream: seq<bool>, z: nat, tail: seq<bool>, b: nat)
    requires all == stream + NumBits(z, 0) + tail && |stream| <= b < |stream| + z
    ensures !all[b]
  {
    hide NumBits;
    ZeroBit(z, b - |stream|);
  }

  lemma PadsThere(bytes: seq<byte>, front: seq<bool>, pads: seq<byte>, k: nat)
    requires BytesBits(bytes) == front + BytesBits(pads) && |front| % 8 == 0 && |front| / 8 <= k < |bytes|
    ensures |pads| == |bytes| - |front| / 8 && bytes[k] == pads[k - |front| / 8]
  {
    hide NumBits, BytesBits;
    var j := k - |front| / 8;
    BitsOfByte(bytes, k);
    BitsOfByte(pads, j);
    SliceBehind(BytesBits(bytes), front, BytesBits(pads), 8 * j);
    SameByte(bytes[k], pads[j]);
  }

  lemma SliceBehind(all: seq<bool>, front: seq<bool>, tail: seq<bool>, i: nat)
    requires all == front + tail && i + 8 <= |tail|
    ensures all[|front| + i..|front| + i + 8] == tail[i..i + 8]
  {
  }

  /** The source's padding: zeros up to byte first, then the pad bytes. */
  lemma PaddingParts(n: nat, words: nat) returns (first: nat, z: nat)
    requires n <= 8 * words
    ensures
      var t := if 8 * words - n < 4 then 8 * words - n else 4;
      n + z == 8 * first && n + t <= 8 * first < n + t + 8 && first <= words
    ensures Padding(n, words) == NumBits(z, 0) + BytesBits(PadBytes(words - first))
  {
    hide NumBits, BytesBits, PadBytes;
    first := if 8 * words - n <= 4 then words else (n + 11) / 8;
    z := 8 * first - n;
    if first == words {
      NoPadBytes(0);
    }
  }

  lemma Regrouped(a: seq<bool>, b: seq<bool>, c: seq<bool>)
    ensures a + (b + c) == a + b + c && |a + b| == |a| + |b|
  {
  }

  lemma FilledWhere(bytes: seq<byte>, stream: seq<bool>, first: nat, z: nat)
    requires |stream| + z == 8 * first && first <= |bytes|
    requires BytesBits(bytes) == stream + NumBits(z, 0) + BytesBits(PadBytes(|bytes| - first))
    ensures forall b :: |stream| <= b < 8 * first && b < 8 * |bytes| ==> !BytesBits(bytes)[b]
    ensures forall k :: first <= k < |bytes| ==> bytes[k] == if (k - first) % 2 == 0 then 0xec else 0x11
  {
    hide NumBits, BytesBits;
    var pads, front := PadBytes(|bytes| - first), stream + NumBits(z, 0);
    forall b | |stream| <= b < 8 * first && b < 8 * |bytes| ensures !BytesBits(bytes)[b] {
      ZerosThere(BytesBits(bytes), stream, z, BytesBits(pads), b);
    }
    forall k | first <= k < |bytes| ensures bytes[k] == if (k - first) % 2 == 0 then 0xec else 0x11 {
      PadsThere(bytes, front, pads, k);
    }
  }

  /** What the source appends is what the standard asks for. */
  lemma PaddingIs(bytes: seq<byte>, stream: seq<bool>)
    requires |stream| <= 8 * |bytes| && BytesBits(bytes) == stream + Padding(|stream|, |bytes|)
    ensures Filled(bytes, stream)
  {
    hide NumBits, BytesBits, Padding, PadBytes;
    var first, z := PaddingParts(|stream|, |bytes|);
    Regrouped(stream, NumBits(z, 0), BytesBits(PadBytes(|bytes| - first)));
    FilledWhere(bytes, stream, first, z);
    FrontOf(BytesBits(bytes), stream, Padding(|stream|, |bytes|));
    assert FilledFrom(bytes, |stream|, first);
  }

  lemma FrontOf(all: seq<bool>, front: seq<bool>, tail: seq<bool>)
    requires all == front + tail
    ensures all[..|front|] == front
  {
  }

  lemma NoPadBytes(n: int)
    ensures n <= 0 ==> PadBytes(n) == [] && BytesBits(PadBytes(n)) == []
  {
  }

  /** A reader of the stream stops behind it. */
  lemma FilledTerminates(bytes: seq<byte>, stream: seq<bool>)
    requires Filled(bytes, stream)
    ensures |stream| <= |BytesBits(bytes)| && Terminated(BytesBits(bytes)[|stream|..])
  {
    hide BytesBits, Value;
    var n := |stream|;
    var first: nat :| FilledFrom(bytes, n, first);
    var tail := BytesBits(bytes)[n..];
    if |tail| >= 4 {
      forall i | 0 <= i < 4 ensures !tail[i] {
        assert !BytesBits(bytes)[n + i];
      }
      FourZeros(tail[..4]);
    }
  }

  lemma FourZeros(b: seq<bool>)
    requires |b| == 4 && !b[0] && !b[1] && !b[2] && !b[3]
    ensures Value(b) == 0
  {
    assert Value(b[..0]) == 0;
    assert b[..1][..0] == b[..0] && b[..2][..1] == b[..1] && b[..3][..2] == b[..2];
    assert Value(b[..1]) == 0;
    assert Value(b[..2]) == 0;
    assert Value(b[..3]) == 0;
  }
}
