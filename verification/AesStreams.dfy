/** The modes of operation, block by block: the equations of sections 6.2, 6.3 and 6.5 of
    NIST SP 800-38A. */
module AesStreams {
  import opened Gf256
  import opened Aes
  import opened AesModes

  /** Block k of a sequence of blocks. */
  function BlockAt(data: seq<bv8>, k: nat): Block
    requires 16 * k + 16 <= |data|
  {
    data[16 * k..16 * k + 16]
  }

  /** The block before block k, and iv before the first. */
  function BlockBefore(iv: Block, data: seq<bv8>, k: nat): Block
    requires 16 * k <= |data|
  {
    if k == 0 then iv else BlockAt(data, k - 1)
  }

  lemma LaterBlock(a: Block, rest: seq<bv8>, k: nat)
    requires 16 * k + 16 <= |rest|
    ensures BlockAt(a + rest, k + 1) == BlockAt(rest, k)
  {
  }

  lemma DroppedBlock(data: seq<bv8>, k: nat)
    requires 16 * k + 32 <= |data|
    ensures BlockAt(data, k + 1) == BlockAt(data[16..], k)
  {
  }

  // ----- CBC -----

  lemma XorBytes(a: Block, b: Block, i: nat)
    requires i < 16
    ensures XorBlock(a, b)[i] == a[i] ^ b[i]
  {
  }

  /** Each block of plain text is added to the block of cipher text before it and encrypted. */
  lemma {:induction false} CbcBlocks(fwd: Box, keys: seq<State>, iv: Block, data: seq<bv8>, k: nat)
    requires |keys| >= 2 && |data| % 16 == 0 && 16 * k + 16 <= |data|
    ensures
      var out := CbcEncrypt(fwd, keys, iv, data);
      var p, q := BlockAt(data, k), BlockBefore(iv, out, k);
      && BlockAt(out, k) == EncryptBlock(fwd, keys, XorBlock(p, q))
      && forall i {:trigger XorBlock(p, q)[i]} :: 0 <= i < 16 ==> XorBlock(p, q)[i] == p[i] ^ q[i]
    decreases k
  {
    hide EncryptBlock, XorBlock;
    var out := CbcEncrypt(fwd, keys, iv, data);
    forall i | 0 <= i < 16
      ensures XorBlock(BlockAt(data, k), BlockBefore(iv, out, k))[i] == BlockAt(data, k)[i] ^ BlockBefore(iv, out, k)[i]
    {
      XorBytes(BlockAt(data, k), BlockBefore(iv, out, k), i);
    }
    var c := EncryptBlock(fwd, keys, XorBlock(data[..16], iv));
    var rest := CbcEncrypt(fwd, keys, c, data[16..]);
    assert CbcEncrypt(fwd, keys, iv, data) == c + rest;
    if k > 0 {
      CbcBlocks(fwd, keys, c, data[16..], k - 1);
      hide CbcEncrypt;
      DroppedBlock(data, k - 1);
      LaterBlock(c, rest, k - 1);
      if k > 1 {
        LaterBlock(c, rest, k - 2);
      }
    }
  }

  // ----- CFB128 -----

  /** After j bytes the register holds the cipher text since the last multiple of 16, and
      after it what is left of the encrypted register. */
  ghost predicate Registers(fwd: Box, keys: seq<State>, iv: Block, out: seq<bv8>, s: Cfb)
    requires |keys| >= 2
  {
    var q := |out| / 16;
    && s.n == |out| % 16
    && (forall i {:trigger s.iv[i]} :: 0 <= i < s.n ==> s.iv[i] == out[16 * q + i])
    && (if s.n == 0 then s.iv == BlockBefore(iv, out, q)
        else forall i {:trigger s.iv[i]} :: s.n <= i < 16 ==> s.iv[i] == EncryptBlock(fwd, keys, BlockBefore(iv, out, q))[i])
  }

  lemma SameBefore(iv: Block, out: seq<bv8>, c: bv8, q: nat)
    requires 16 * q <= |out|
    ensures BlockBefore(iv, out + [c], q) == BlockBefore(iv, out, q)
  {
  }

  lemma RegisterStep(fwd: Box, keys: seq<State>, iv: Block, out: seq<bv8>, s: Cfb, x: bv8)
    requires |keys| >= 2 && s.n < 16 && Registers(fwd, keys, iv, out, s)
    ensures
      var (t, c) := CfbEncryptByte(fwd, keys, s, x);
      && c == Add(EncryptBlock(fwd, keys, BlockBefore(iv, out, |out| / 16))[|out| % 16], x)
      && Registers(fwd, keys, iv, out + [c], t)
  {
    hide EncryptBlock, Add;
    var q := |out| / 16;
    var (t, c) := CfbEncryptByte(fwd, keys, s, x);
    SameBefore(iv, out, c, q);
    if s.n == 15 {
      assert |out + [c]| / 16 == q + 1;
      assert t.iv == BlockAt(out + [c], q);
    }
  }

  lemma {:induction false} CfbRegisters(fwd: Box, keys: seq<State>, iv: Block, data: seq<bv8>)
    requires |keys| >= 2
    ensures
      var (t, out) := CfbEncrypt(fwd, keys, Cfb(iv, 0), data);
      Registers(fwd, keys, iv, out, t)
    decreases |data|
  {
    hide CfbEncryptByte, Registers, EncryptBlock, Add;
    if |data| == 0 {
      RegistersBegin(fwd, keys, iv);
    } else {
      var n := |data| - 1;
      CfbRegisters(fwd, keys, iv, data[..n]);
      var (t, out) := CfbEncrypt(fwd, keys, Cfb(iv, 0), data[..n]);
      RegisterStep(fwd, keys, iv, out, t, data[n]);
    }
  }

  lemma RegistersBegin(fwd: Box, keys: seq<State>, iv: Block)
    requires |keys| >= 2
    ensures Registers(fwd, keys, iv, [], Cfb(iv, 0))
  {
  }

  /** Byte j of the cipher text is byte j of the plain text plus byte j % 16 of the block of
      cipher text before, encrypted. */
  lemma {:induction false} CfbBytes(fwd: Box, keys: seq<State>, iv: Block, data: seq<bv8>, j: nat)
    requires |keys| >= 2 && j < |data|
    ensures
      var out := CfbEncrypt(fwd, keys, Cfb(iv, 0), data).1;
      out[j] == Add(EncryptBlock(fwd, keys, BlockBefore(iv, out, j / 16))[j % 16], data[j])
    decreases |data|
  {
    hide CfbEncryptByte, Registers, EncryptBlock, Add, BlockBefore;
    var n := |data| - 1;
    var (t, out) := CfbEncrypt(fwd, keys, Cfb(iv, 0), data[..n]);
    var c := CfbEncryptByte(fwd, keys, t, data[n]).1;
    SameBefore(iv, out, c, j / 16);
    if j < n {
      CfbBytes(fwd, keys, iv, data[..n], j);
    } else {
      CfbRegisters(fwd, keys, iv, data[..n]);
      RegisterStep(fwd, keys, iv, out, t, data[n]);
    }
  }

  // ----- CTR -----

  /** The counter block n steps on. */
  function Advanced(b: Block, n: nat): Block {
    if n == 0 then b else Incremented(Advanced(b, n - 1))
  }

  /** The number of counter blocks, 2^128. */
  const COUNTERS: nat := 0x1_0000_0000_0000_0000_0000_0000_0000_0000

  lemma AllCounters()
    ensures Power256(16) == COUNTERS
  {
    assert Power256(4) == 0x1_0000_0000;
    assert Power256(8) == 0x1_0000_0000_0000_0000;
    assert Power256(12) == 0x1_0000_0000_0000_0000_0000_0000;
  }

  /** Its number is n more, modulo 2^128. */
  lemma {:induction false} AdvancedCounts(b: Block, n: nat)
    ensures Counter(Advanced(b, n)) == (Counter(b) + n) % COUNTERS
  {
    AllCounters();
    hide Counter, Incremented, Power256;
    Counts(b);
    if n > 0 {
      AdvancedCounts(b, n - 1);
      Counts(Advanced(b, n - 1));
    }
  }

  /** After j bytes: the counter is j / 16 steps on, rounded up, and within a block the stream
      is the block of the step before. */
  ghost predicate Streams(fwd: Box, keys: seq<State>, b: Block, j: nat, s: Ctr)
    requires |keys| >= 2
  {
    && s.n == j % 16
    && if s.n == 0 then s.counter == Advanced(b, j / 16)
       else s.counter == Advanced(b, j / 16 + 1) && s.stream == EncryptBlock(fwd, keys, Advanced(b, j / 16))
  }

  lemma StreamStep(fwd: Box, keys: seq<State>, b: Block, j: nat, s: Ctr, x: bv8)
    requires |keys| >= 2 && s.n < 16 && Streams(fwd, keys, b, j, s)
    ensures
      var (t, c) := CtrByte(fwd, keys, s, x);
      c == Add(x, EncryptBlock(fwd, keys, Advanced(b, j / 16))[j % 16]) && Streams(fwd, keys, b, j + 1, t)
  {
    hide EncryptBlock, Add, Incremented;
    if s.n == 15 {
      assert (j + 1) / 16 == j / 16 + 1;
    }
  }

  lemma {:induction false} CtrStreams(fwd: Box, keys: seq<State>, b: Block, stream: Block, data: seq<bv8>)
    requires |keys| >= 2
    ensures Streams(fwd, keys, b, |data|, CtrCrypt(fwd, keys, Ctr(b, stream, 0), data).0)
    decreases |data|
  {
    hide CtrByte, EncryptBlock, Add;
    if |data| > 0 {
      hide Streams;
      var n := |data| - 1;
      CtrStreams(fwd, keys, b, stream, data[..n]);
      StreamStep(fwd, keys, b, n, CtrCrypt(fwd, keys, Ctr(b, stream, 0), data[..n]).0, data[n]);
    }
  }

  /** Byte j of the output is byte j of the input plus byte j % 16 of the counter block that
      is j / 16 steps on, encrypted. */
  lemma {:induction false} CtrBytes(fwd: Box, keys: seq<State>, b: Block, stream: Block, data: seq<bv8>, j: nat)
    requires |keys| >= 2 && j < |data|
    ensures CtrCrypt(fwd, keys, Ctr(b, stream, 0), data).1[j] ==
              Add(data[j], EncryptBlock(fwd, keys, Advanced(b, j / 16))[j % 16])
    decreases |data|
  {
    hide CtrByte, Streams, EncryptBlock, Add, Advanced;
    var n := |data| - 1;
    if j < n {
      CtrBytes(fwd, keys, b, stream, data[..n], j);
    } else {
      CtrStreams(fwd, keys, b, stream, data[..n]);
      StreamStep(fwd, keys, b, n, CtrCrypt(fwd, keys, Ctr(b, stream, 0), data[..n]).0, data[n]);
    }
  }
}
