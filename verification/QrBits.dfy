/** Bit streams (qrcode/bitstream.c): numbers and bytes as bits, most significant first, in a
    buffer that doubles when it is full. */
module QrBits {
  import opened Common

  function Pow2(n: nat): (r: nat)
    ensures r >= 1
  {
    if n == 0 then 1 else 2 * Pow2(n - 1)
  }

  /** The low n bits of num. */
  function NumBits(n: nat, num: nat): (r: seq<bool>)
    ensures |r| == n
  {
    if n == 0 then [] else NumBits(n - 1, num / 2) + [num % 2 == 1]
  }

  /** The number with these bits. */
  function Value(bits: seq<bool>): nat {
    if |bits| == 0 then 0 else 2 * Value(bits[..|bits| - 1]) + if bits[|bits| - 1] then 1 else 0
  }

  lemma {:induction false} ValueOfBits(n: nat, num: nat)
    requires num < Pow2(n)
    ensures Value(NumBits(n, num)) == num
    decreases n
  {
    if n > 0 {
      ValueOfBits(n - 1, num / 2);
      assert NumBits(n, num)[..n - 1] == NumBits(n - 1, num / 2);
    }
  }

  lemma {:induction false} BitsOfValue(bits: seq<bool>)
    ensures Value(bits) < Pow2(|bits|) && NumBits(|bits|, Value(bits)) == bits
    decreases |bits|
  {
    if |bits| > 0 {
      var n := |bits| - 1;
      BitsOfValue(bits[..n]);
      assert bits == bits[..n] + [bits[n]];
    }
  }

  /** Bit i of a number, as the mask 2^(n-1-i) selects it. */
  lemma {:induction false} BitAt(n: nat, num: nat, i: nat)
    requires i < n
    ensures NumBits(n, num)[i] <==> (num / Pow2(n - 1 - i)) % 2 == 1
    decreases n
  {
    if i < n - 1 {
      BitAt(n - 1, num / 2, i);
      Halve(num, Pow2(n - 2 - i));
    }
  }

  lemma Halve(a: nat, m: nat)
    requires m > 0
    ensures (a / 2) / m == a / (2 * m)
  {
    var q := a / (2 * m);
    var r := a % (2 * m);
    assert a == 2 * (m * q) + r;
    assert a / 2 == m * q + r / 2 && r / 2 < m;
    Quotient(a / 2, m, q, r / 2);
  }

  lemma Quotient(a: nat, m: nat, q: nat, r: nat)
    requires r < m && a == m * q + r
    ensures a / m == q
  {
    var p, s := a / m, a % m;
    assert a == m * p + s;
    hide *;
    Ordered(q + 1, p, m);
    Ordered(p + 1, q, m);
  }

  lemma Ordered(x: int, y: int, m: nat)
    ensures x <= y ==> m * x <= m * y
    ensures m * x == m * (x - 1) + m
  {
  }

  lemma Powers()
    ensures Pow2(7) == 128 && Pow2(8) == 256
  {
    assert Pow2(4) == 16;
  }

  function BytesBits(s: seq<byte>): (r: seq<bool>)
    ensures |r| == 8 * |s|
  {
    if |s| == 0 then [] else BytesBits(s[..|s| - 1]) + NumBits(8, s[|s| - 1])
  }

  /** The bytes a stream is packed into; the last one is filled up with zeros. */
  function Packed(bits: seq<bool>): seq<byte> {
    if |bits| == 0 then []
    else if |bits| < 8 then
      BitsOfValue(bits);
      [Value(bits) * Pow2(8 - |bits|) % 256]
    else
      BitsOfValue(bits[..8]);
      Powers();
      [Value(bits[..8])] + Packed(bits[8..])
  }

  /** A whole number of bytes is unpacked to the same bits. */
  lemma {:induction false} Unpacked(bits: seq<bool>)
    requires |bits| % 8 == 0
    ensures |Packed(bits)| == |bits| / 8 && BytesBits(Packed(bits)) == bits
    decreases |bits|
  {
    if |bits| > 0 {
      var a, b := bits[..8], bits[8..];
      BitsOfValue(a);
      Unpacked(b);
      assert bits == a + b;
      FirstByte(Value(a), Packed(b));
    }
  }

  lemma {:induction false} FirstByte(v: byte, s: seq<byte>)
    ensures BytesBits([v] + s) == NumBits(8, v) + BytesBits(s)
    decreases |s|
  {
    if |s| == 0 {
      assert [v] + s == [v] && [v][..0] == [];
    } else {
      var n := |s| - 1;
      assert ([v] + s)[..|s|] == [v] + s[..n];
      FirstByte(v, s[..n]);
    }
  }

  lemma {:induction false} PackedPrefix(bits: seq<bool>, i: nat)
    requires 8 * i + 8 <= |bits|
    ensures Value(bits[8 * i..8 * i + 8]) < 256
    ensures Packed(bits[8 * i..]) == [Value(bits[8 * i..8 * i + 8])] + Packed(bits[8 * i + 8..])
  {
    BitsOfValue(bits[8 * i..8 * i + 8]);
    assert bits[8 * i..][..8] == bits[8 * i..8 * i + 8];
    assert bits[8 * i..][8..] == bits[8 * i + 8..];
  }

  class BitStream {
    var length: nat
    /** Its Length is datasize. */
    var data: array<bool>

    ghost predicate Valid()
      reads this
    {
      length <= data.Length && data.Length > 0
    }

    /** The bits appended so far. */
    ghost function Contents(): seq<bool>
      requires Valid()
      reads this, data
    {
      data[..length]
    }

    /** BitStream_new */
    constructor ()
      ensures Valid() && Contents() == [] && fresh(data)
    {
      length := 0;
      data := new bool[128];
    }

    /** BitStream_reset */
    method Reset()
      requires Valid()
      modifies this`length
      ensures Valid() && Contents() == []
    {
      length := 0;
    }

    /** BitStream_expand */
    method Expand()
      requires Valid()
      modifies this`data
      ensures Valid() && data.Length == 2 * old(data.Length) && fresh(data) && Contents() == old(Contents())
    {
      var larger := new bool[2 * data.Length];
      forall i | 0 <= i < length {
        larger[i] := data[i];
      }
      assert larger[..length] == data[..length];
      data := larger;
    }

    /** Room for n more bits. */
    method Reserve(n: nat)
      requires Valid()
      modifies this`data
      ensures Valid() && data.Length - length >= n && (data == old(data) || fresh(data)) && Contents() == old(Contents())
    {
      while data.Length - length < n
        invariant Valid() && (data == old(data) || fresh(data)) && Contents() == old(Contents())
        decreases n - (data.Length - length)
      {
        Expand();
      }
    }

    /** BitStream_appendNum. A shift by 32 or more is undefined in C, and num is 32 bits wide. */
    method AppendNum(bits: nat, num: nat)
      requires Valid() && bits <= 32 && num < 0x1_0000_0000
      modifies this, data
      ensures Valid() && (data == old(data) || fresh(data)) && Contents() == old(Contents()) + NumBits(bits, num)
    {
      hide NumBits, Pow2;
      if bits == 0 {
        return;
      }
      Reserve(bits);
      ghost var was := Contents();
      WriteNum(bits, num);
      length := length + bits;
      assert Contents() == was + NumBits(bits, num);
    }

    /** BitStream_writeNum */
    method WriteNum(bits: nat, num: nat)
      requires Valid() && 0 < bits && length + bits <= data.Length
      modifies data
      ensures data[..length] == old(data[..length]) && data[length..length + bits] == NumBits(bits, num)
    {
      var mask := Pow2(bits - 1);
      for i := 0 to bits
        invariant mask == if i < bits then Pow2(bits - 1 - i) else 0
        invariant forall k :: 0 <= k < length ==> data[k] == old(data[k])
        invariant forall k :: 0 <= k < i ==> data[length + k] == NumBits(bits, num)[k]
      {
        BitAt(bits, num, i);
        data[length + i] := (num / mask) % 2 == 1;
        mask := mask / 2;
      }
    }

    /** BitStream_appendBytes */
    method AppendBytes(s: seq<byte>)
      requires Valid()
      modifies this, data
      ensures Valid() && (data == old(data) || fresh(data)) && Contents() == old(Contents()) + BytesBits(s)
    {
      hide BytesBits;
      if |s| == 0 {
        return;
      }
      Reserve(8 * |s|);
      ghost var was := Contents();
      WriteBytes(s);
      length := length + 8 * |s|;
      assert Contents() == was + BytesBits(s);
    }

    /** BitStream_writeBytes */
    method WriteBytes(s: seq<byte>)
      requires Valid() && length + 8 * |s| <= data.Length
      modifies data
      ensures data[..length] == old(data[..length]) && data[length..length + 8 * |s|] == BytesBits(s)
    {
      for i := 0 to |s|
        invariant data[..length] == old(data[..length]) && data[length..length + 8 * i] == BytesBits(s[..i])
      {
        var p := length + 8 * i;
        ghost var done := data[..p];
        WriteByte(p, s[i]);
        assert s[..i + 1][..i] == s[..i];
        assert data[length..p + 8] == done[length..] + data[p..p + 8];
        assert data[..length] == done[..length];
      }
      assert s[..|s|] == s;
    }

    /** The inner loop of BitStream_writeBytes. */
    method WriteByte(p: nat, b: byte)
      requires p + 8 <= data.Length
      modifies data
      ensures data[..p] == old(data[..p]) && data[p..p + 8] == NumBits(8, b)
    {
      Powers();
      var mask := 128;
      for j := 0 to 8
        invariant mask == if j < 8 then Pow2(7 - j) else 0
        invariant forall k :: 0 <= k < p ==> data[k] == old(data[k])
        invariant forall k :: 0 <= k < j ==> data[p + k] == NumBits(8, b)[k]
      {
        BitAt(8, b, j);
        data[p + j] := (b / mask) % 2 == 1;
        mask := mask / 2;
      }
    }

    /** The loop that collects n bits from p on in v. */
    method Collect(p: nat, n: nat) returns (v: nat)
      requires p + n <= data.Length
      ensures v == Value(data[p..p + n])
    {
      v := 0;
      for j := 0 to n
        invariant v == Value(data[p..p + j])
      {
        v := 2 * v + if data[p + j] then 1 else 0;
        assert data[p..p + (j + 1)][..j] == data[p..p + j];
      }
    }

    /** BitStream_toByte; empty for NULL. */
    method ToByte() returns (r: array<byte>)
      requires Valid()
      ensures fresh(r) && r[..] == Packed(Contents())
    {
      hide Packed, Value;
      ghost var bits := Contents();
      PackedLength(bits);
      r := new byte[(length + 7) / 8](_ => 0);
      var bytes := length / 8;
      for i := 0 to bytes
        invariant r[..i] + Packed(bits[8 * i..]) == Packed(bits)
      {
        PackedPrefix(bits, i);
        var v := Collect(8 * i, 8);
        assert data[8 * i..8 * i + 8] == bits[8 * i..8 * i + 8];
        ghost var before := r[..i];
        r[i] := v;
        assert r[..i + 1] == before + [v];
      }
      var oddbits := length % 8;
      ghost var before := r[..bytes];
      PackedLast(bits[8 * bytes..]);
      if oddbits > 0 {
        var v := Collect(8 * bytes, oddbits);
        assert data[8 * bytes..8 * bytes + oddbits] == bits[8 * bytes..];
        r[bytes] := v * Pow2(8 - oddbits) % 256;
        assert r[..] == before + [r[bytes]];
      } else {
        assert r[..] == before;
      }
    }
  }

  lemma PackedLast(bits: seq<bool>)
    requires |bits| < 8
    ensures Packed(bits) == if |bits| == 0 then [] else [Value(bits) * Pow2(8 - |bits|) % 256]
  {
  }

  lemma {:induction false} PackedLength(bits: seq<bool>)
    ensures |Packed(bits)| == (|bits| + 7) / 8
    decreases |bits|
  {
    if |bits| >= 8 {
      PackedLength(bits[8..]);
    }
  }
}
