/** Modes of operation over the AES block cipher: CBC, CFB128 and CTR (sections 6.2, 6.3 and
    6.5 of NIST SP 800-38A). */
module AesModes {
  import opened Gf256
  import opened Aes

  function XorBlock(a: Block, b: Block): Block {
    seq(16, i requires 0 <= i < 16 => Add(a[i], b[i]))
  }

  lemma XorBlockTwice(a: Block, b: Block)
    ensures XorBlock(XorBlock(a, b), b) == a
  {
    hide Add;
    forall i | 0 <= i < 16 ensures XorBlock(XorBlock(a, b), b)[i] == a[i] {
      CancelByte(a[i], b[i]);
    }
  }

  // ----- CBC -----

  function CbcEncrypt(fwd: Box, keys: seq<State>, iv: Block, data: seq<bv8>): (r: seq<bv8>)
    requires |keys| >= 2 && |data| % 16 == 0
    ensures |r| == |data|
    decreases |data|
  {
    if |data| == 0 then []
    else
      var c := EncryptBlock(fwd, keys, XorBlock(data[..16], iv));
      c + CbcEncrypt(fwd, keys, c, data[16..])
  }

  function CbcDecrypt(rev: Box, keys: seq<State>, iv: Block, data: seq<bv8>): (r: seq<bv8>)
    requires |keys| >= 2 && |data| % 16 == 0
    ensures |r| == |data|
    decreases |data|
  {
    if |data| == 0 then []
    else XorBlock(DecryptBlock(rev, keys, data[..16]), iv) + CbcDecrypt(rev, keys, data[..16], data[16..])
  }

  lemma {:induction false} CbcUndone(fwd: Box, rev: Box, keys: seq<State>, iv: Block, data: seq<bv8>)
    requires Inverse(fwd, rev) && |keys| >= 2 && |data| % 16 == 0
    ensures CbcDecrypt(rev, keys, iv, CbcEncrypt(fwd, keys, iv, data)) == data
    decreases |data|
  {
    hide Inverse, EncryptBlock, DecryptBlock, XorBlock;
    if |data| > 0 {
      var c := EncryptBlock(fwd, keys, XorBlock(data[..16], iv));
      var e := CbcEncrypt(fwd, keys, iv, data);
      CbcUndone(fwd, rev, keys, c, data[16..]);
      assert e[..16] == c && e[16..] == CbcEncrypt(fwd, keys, c, data[16..]);
      BlockUndone(fwd, rev, keys, XorBlock(data[..16], iv));
      XorBlockTwice(data[..16], iv);
      assert data == data[..16] + data[16..];
    }
  }

  /** The block that the next call chains from. */
  function Chain(iv: Block, cipher: seq<bv8>): Block {
    if |cipher| < 16 then iv else cipher[|cipher| - 16..]
  }

  /** How far a run of CBC encryption has come. */
  ghost predicate Encrypting(fwd: Box, keys: seq<State>, iv0: Block, input: seq<bv8>, i: nat, iv: Block, done: seq<bv8>) {
    && |keys| >= 2 && |input| % 16 == 0 && i % 16 == 0 && i <= |input|
    && done + CbcEncrypt(fwd, keys, iv, input[i..]) == CbcEncrypt(fwd, keys, iv0, input) && iv == Chain(iv0, done)
  }

  lemma EncryptBegins(fwd: Box, keys: seq<State>, iv0: Block, input: seq<bv8>)
    requires |keys| >= 2 && |input| % 16 == 0
    ensures Encrypting(fwd, keys, iv0, input, 0, iv0, [])
  {
    assert input[0..] == input;
    assert [] + CbcEncrypt(fwd, keys, iv0, input) == CbcEncrypt(fwd, keys, iv0, input);
  }

  lemma EncryptAdvances(fwd: Box, keys: seq<State>, iv0: Block, input: seq<bv8>, i: nat, iv: Block, done: seq<bv8>)
    requires Encrypting(fwd, keys, iv0, input, i, iv, done) && i < |input|
    ensures i + 16 <= |input|
    ensures var c := EncryptBlock(fwd, keys, XorBlock(input[i..i + 16], iv)); Encrypting(fwd, keys, iv0, input, i + 16, c, done + c)
  {
    hide XorBlock, EncryptBlock;
    var data := input[i..];
    var c := EncryptBlock(fwd, keys, XorBlock(data[..16], iv));
    assert data[..16] == input[i..i + 16] && data[16..] == input[i + 16..];
    assert CbcEncrypt(fwd, keys, iv, data) == c + CbcEncrypt(fwd, keys, c, data[16..]);
    assert done + (c + CbcEncrypt(fwd, keys, c, data[16..])) == done + c + CbcEncrypt(fwd, keys, c, data[16..]);
  }

  lemma EncryptEnds(fwd: Box, keys: seq<State>, iv0: Block, input: seq<bv8>, iv: Block, done: seq<bv8>)
    requires Encrypting(fwd, keys, iv0, input, |input|, iv, done)
    ensures done == CbcEncrypt(fwd, keys, iv0, input) && iv == Chain(iv0, done)
  {
    assert input[|input|..] == [];
  }

  ghost predicate Decrypting(rev: Box, keys: seq<State>, iv0: Block, input: seq<bv8>, i: nat, iv: Block, done: seq<bv8>) {
    && |keys| >= 2 && |input| % 16 == 0 && i % 16 == 0 && i <= |input|
    && done + CbcDecrypt(rev, keys, iv, input[i..]) == CbcDecrypt(rev, keys, iv0, input) && iv == Chain(iv0, input[..i])
  }

  lemma DecryptBegins(rev: Box, keys: seq<State>, iv0: Block, input: seq<bv8>)
    requires |keys| >= 2 && |input| % 16 == 0
    ensures Decrypting(rev, keys, iv0, input, 0, iv0, [])
  {
    assert input[0..] == input;
    assert [] + CbcDecrypt(rev, keys, iv0, input) == CbcDecrypt(rev, keys, iv0, input);
  }

  lemma DecryptAdvances(rev: Box, keys: seq<State>, iv0: Block, input: seq<bv8>, i: nat, iv: Block, done: seq<bv8>)
    requires Decrypting(rev, keys, iv0, input, i, iv, done) && i < |input|
    ensures i + 16 <= |input|
    ensures
      var p := XorBlock(DecryptBlock(rev, keys, input[i..i + 16]), iv);
      Decrypting(rev, keys, iv0, input, i + 16, input[i..i + 16], done + p)
  {
    hide XorBlock, DecryptBlock, Chain;
    var data := input[i..];
    var p := XorBlock(DecryptBlock(rev, keys, data[..16]), iv);
    assert data[..16] == input[i..i + 16] && data[16..] == input[i + 16..];
    assert CbcDecrypt(rev, keys, iv, data) == p + CbcDecrypt(rev, keys, data[..16], data[16..]);
    hide CbcDecrypt;
    assert done + (p + CbcDecrypt(rev, keys, data[..16], data[16..])) == done + p + CbcDecrypt(rev, keys, data[..16], data[16..]);
    ChainAt(iv0, input, i);
  }

  /** The chaining value after one more block is that block. */
  lemma ChainAt(iv: Block, input: seq<bv8>, i: nat)
    requires i + 16 <= |input|
    ensures Chain(iv, input[..i + 16]) == input[i..i + 16]
  {
    assert input[..i + 16][i..] == input[i..i + 16];
  }

  lemma DecryptEnds(rev: Box, keys: seq<State>, iv0: Block, input: seq<bv8>, iv: Block, done: seq<bv8>)
    requires Decrypting(rev, keys, iv0, input, |input|, iv, done)
    ensures done == CbcDecrypt(rev, keys, iv0, input) && iv == Chain(iv0, input)
  {
    assert input[|input|..] == [] && input[..|input|] == input;
  }

  // ----- CFB128 -----

  /** The shift register and how many of its bytes are used. */
  datatype Cfb = Cfb(iv: Block, n: nat)

  /** Before a byte: a new key stream block when the old one is used up. */
  function Refill(fwd: Box, keys: seq<State>, s: Cfb): Cfb
    requires |keys| >= 2
  {
    if s.n == 0 then s.(iv := EncryptBlock(fwd, keys, s.iv)) else s
  }

  /** One byte; it enters the register encrypted. */
  function CfbEncryptByte(fwd: Box, keys: seq<State>, s: Cfb, x: bv8): (r: (Cfb, bv8))
    requires |keys| >= 2 && s.n < 16
    ensures r.0.n < 16
  {
    var u := Refill(fwd, keys, s);
    var c := Add(u.iv[u.n], x);
    (Cfb(u.iv[u.n := c], (u.n + 1) % 16), c)
  }

  function CfbDecryptByte(fwd: Box, keys: seq<State>, s: Cfb, c: bv8): (r: (Cfb, bv8))
    requires |keys| >= 2 && s.n < 16
    ensures r.0.n < 16
  {
    var u := Refill(fwd, keys, s);
    (Cfb(u.iv[u.n := c], (u.n + 1) % 16), Add(c, u.iv[u.n]))
  }

  lemma CfbByteUndone(fwd: Box, keys: seq<State>, s: Cfb, x: bv8)
    requires |keys| >= 2 && s.n < 16
    ensures
      var (t, c) := CfbEncryptByte(fwd, keys, s, x);
      CfbDecryptByte(fwd, keys, s, c) == (t, x)
  {
    hide Add, EncryptBlock;
    var u := Refill(fwd, keys, s);
    AddLaws(u.iv[u.n], x, 0);
    CancelByte(x, u.iv[u.n]);
  }

  function CfbEncrypt(fwd: Box, keys: seq<State>, s: Cfb, data: seq<bv8>): (r: (Cfb, seq<bv8>))
    requires |keys| >= 2 && s.n < 16
    ensures r.0.n < 16 && |r.1| == |data|
    decreases |data|
  {
    if |data| == 0 then (s, [])
    else
      var (t, out) := CfbEncrypt(fwd, keys, s, data[..|data| - 1]);
      var (u, c) := CfbEncryptByte(fwd, keys, t, data[|data| - 1]);
      (u, out + [c])
  }

  lemma CfbEncryptStep(fwd: Box, keys: seq<State>, s: Cfb, data: seq<bv8>, i: nat)
    requires |keys| >= 2 && s.n < 16 && i < |data|
    ensures
      var (t, out) := CfbEncrypt(fwd, keys, s, data[..i]);
      var (u, x) := CfbEncryptByte(fwd, keys, t, data[i]);
      CfbEncrypt(fwd, keys, s, data[..i + 1]) == (u, out + [x])
  {
    hide CfbEncryptByte;
    assert data[..i + 1][..i] == data[..i];
  }

  function CfbDecrypt(fwd: Box, keys: seq<State>, s: Cfb, data: seq<bv8>): (r: (Cfb, seq<bv8>))
    requires |keys| >= 2 && s.n < 16
    ensures r.0.n < 16 && |r.1| == |data|
    decreases |data|
  {
    if |data| == 0 then (s, [])
    else
      var (t, out) := CfbDecrypt(fwd, keys, s, data[..|data| - 1]);
      var (u, x) := CfbDecryptByte(fwd, keys, t, data[|data| - 1]);
      (u, out + [x])
  }

  lemma CfbDecryptStep(fwd: Box, keys: seq<State>, s: Cfb, data: seq<bv8>, i: nat)
    requires |keys| >= 2 && s.n < 16 && i < |data|
    ensures
      var (t, out) := CfbDecrypt(fwd, keys, s, data[..i]);
      var (u, x) := CfbDecryptByte(fwd, keys, t, data[i]);
      CfbDecrypt(fwd, keys, s, data[..i + 1]) == (u, out + [x])
  {
    hide CfbDecryptByte;
    assert data[..i + 1][..i] == data[..i];
  }

  /** From any offset, for any length: decryption undoes encryption and ends in the same state. */
  lemma {:induction false} CfbUndone(fwd: Box, keys: seq<State>, s: Cfb, data: seq<bv8>)
    requires |keys| >= 2 && s.n < 16
    ensures
      var (t, out) := CfbEncrypt(fwd, keys, s, data);
      CfbDecrypt(fwd, keys, s, out) == (t, data)
    decreases |data|
  {
    hide CfbEncryptByte, CfbDecryptByte;
    if |data| > 0 {
      var n := |data| - 1;
      CfbUndone(fwd, keys, s, data[..n]);
      var (t, out) := CfbEncrypt(fwd, keys, s, data[..n]);
      CfbByteUndone(fwd, keys, t, data[n]);
      assert (out + [CfbEncryptByte(fwd, keys, t, data[n]).1])[..n] == out;
      assert data == data[..n] + [data[n]];
    }
  }

  /** Data may be cut across calls that carry the state. */
  lemma {:induction false} CfbCut(fwd: Box, keys: seq<State>, s: Cfb, a: seq<bv8>, b: seq<bv8>)
    requires |keys| >= 2 && s.n < 16
    ensures
      var (t, out) := CfbEncrypt(fwd, keys, s, a);
      var (u, more) := CfbEncrypt(fwd, keys, t, b);
      CfbEncrypt(fwd, keys, s, a + b) == (u, out + more)
    decreases |b|
  {
    hide CfbEncryptByte;
    var (t, out) := CfbEncrypt(fwd, keys, s, a);
    if |b| == 0 {
      assert a + b == a && out + [] == out;
    } else {
      var n := |b| - 1;
      CfbCut(fwd, keys, s, a, b[..n]);
      assert (a + b)[..|a| + n] == a + b[..n];
      var (u, more) := CfbEncrypt(fwd, keys, t, b[..n]);
      var c := CfbEncryptByte(fwd, keys, u, b[n]).1;
      assert out + (more + [c]) == (out + more) + [c];
    }
  }

  // ----- CTR -----

  /** The counter block as a number, most significant byte first. */
  function Counter(b: seq<bv8>): nat {
    if |b| == 0 then 0 else 256 * Counter(b[..|b| - 1]) + b[|b| - 1] as int
  }

  function Power256(n: nat): nat {
    if n == 0 then 1 else 256 * Power256(n - 1)
  }

  /** The counter block with the carry going from the last byte up. */
  function Incremented(b: seq<bv8>): (r: seq<bv8>)
    ensures |r| == |b|
  {
    if |b| == 0 then []
    else
      var n := |b| - 1;
      if b[n] == 0xff then Incremented(b[..n]) + [0] else b[..n] + [b[n] + 1]
  }

  /** It counts modulo 2^128: 256^16 for a block. */
  lemma {:induction false} Counts(b: seq<bv8>)
    ensures Counter(b) < Power256(|b|)
    ensures Counter(Incremented(b)) == (if Counter(b) == Power256(|b|) - 1 then 0 else Counter(b) + 1)
    decreases |b|
  {
    if |b| > 0 {
      var n := |b| - 1;
      Counts(b[..n]);
      assert Incremented(b)[..n] == if b[n] == 0xff then Incremented(b[..n]) else b[..n];
      ByteSuccessor(b[n]);
    }
  }

  lemma ByteSuccessor(x: bv8)
    ensures x as int <= 255 && (x != 0xff ==> (x + 1) as int == x as int + 1) && (x as int == 255 ==> x == 0xff)
    ensures 0xff as bv8 as int == 255
  {
  }

  /** The counter, the current key stream block, and how many of its bytes are used. */
  datatype Ctr = Ctr(counter: Block, stream: Block, n: nat)

  function NextStream(fwd: Box, keys: seq<State>, s: Ctr): Ctr
    requires |keys| >= 2
  {
    if s.n == 0 then s.(counter := Incremented(s.counter), stream := EncryptBlock(fwd, keys, s.counter)) else s
  }

  function CtrByte(fwd: Box, keys: seq<State>, s: Ctr, x: bv8): (r: (Ctr, bv8))
    requires |keys| >= 2 && s.n < 16
    ensures r.0.n < 16
  {
    var u := NextStream(fwd, keys, s);
    (u.(n := (u.n + 1) % 16), Add(x, u.stream[u.n]))
  }

  lemma CtrByteUndone(fwd: Box, keys: seq<State>, s: Ctr, x: bv8)
    requires |keys| >= 2 && s.n < 16
    ensures
      var (t, c) := CtrByte(fwd, keys, s, x);
      CtrByte(fwd, keys, s, c) == (t, x)
  {
    hide Add, EncryptBlock, Incremented;
    var u := NextStream(fwd, keys, s);
    CancelByte(x, u.stream[u.n]);
  }

  function CtrCrypt(fwd: Box, keys: seq<State>, s: Ctr, data: seq<bv8>): (r: (Ctr, seq<bv8>))
    requires |keys| >= 2 && s.n < 16
    ensures r.0.n < 16 && |r.1| == |data|
    decreases |data|
  {
    if |data| == 0 then (s, [])
    else
      var (t, out) := CtrCrypt(fwd, keys, s, data[..|data| - 1]);
      var (u, c) := CtrByte(fwd, keys, t, data[|data| - 1]);
      (u, out + [c])
  }

  lemma CtrCryptStep(fwd: Box, keys: seq<State>, s: Ctr, data: seq<bv8>, i: nat)
    requires |keys| >= 2 && s.n < 16 && i < |data|
    ensures
      var (t, out) := CtrCrypt(fwd, keys, s, data[..i]);
      var (u, x) := CtrByte(fwd, keys, t, data[i]);
      CtrCrypt(fwd, keys, s, data[..i + 1]) == (u, out + [x])
  {
    hide CtrByte;
    assert data[..i + 1][..i] == data[..i];
  }

  /** Applying the key stream twice from the same state gives the data back. */
  lemma {:induction false} CtrUndone(fwd: Box, keys: seq<State>, s: Ctr, data: seq<bv8>)
    requires |keys| >= 2 && s.n < 16
    ensures
      var (t, out) := CtrCrypt(fwd, keys, s, data);
      CtrCrypt(fwd, keys, s, out) == (t, data)
    decreases |data|
  {
    hide CtrByte;
    if |data| > 0 {
      var n := |data| - 1;
      CtrUndone(fwd, keys, s, data[..n]);
      var (t, out) := CtrCrypt(fwd, keys, s, data[..n]);
      CtrByteUndone(fwd, keys, t, data[n]);
      assert (out + [CtrByte(fwd, keys, t, data[n]).1])[..n] == out;
      assert data == data[..n] + [data[n]];
    }
  }

  lemma {:induction false} CtrCut(fwd: Box, keys: seq<State>, s: Ctr, a: seq<bv8>, b: seq<bv8>)
    requires |keys| >= 2 && s.n < 16
    ensures
      var (t, out) := CtrCrypt(fwd, keys, s, a);
      var (u, more) := CtrCrypt(fwd, keys, t, b);
      CtrCrypt(fwd, keys, s, a + b) == (u, out + more)
    decreases |b|
  {
    hide CtrByte;
    var (t, out) := CtrCrypt(fwd, keys, s, a);
    if |b| == 0 {
      assert a + b == a && out + [] == out;
    } else {
      var n := |b| - 1;
      CtrCut(fwd, keys, s, a, b[..n]);
      assert (a + b)[..|a| + n] == a + b[..n];
      var (u, more) := CtrCrypt(fwd, keys, t, b[..n]);
      var c := CtrByte(fwd, keys, u, b[n]).1;
      assert out + (more + [c]) == (out + more) + [c];
    }
  }
}
