/** The modes of common/crypto/polaraes.c:768-913: CBC, CFB128 and CTR over buffers. The input may
    be the output buffer itself. */
module PolarModes {
  import opened Gf256
  import opened Aes
  import opened AesModes
  import opened PolarAes

  /** A caller's buffer is none of the tables. */
  ghost predicate Separate(ctx: Context, a: array<bv8>) {
    && a != ctx.tables.FSb && a != ctx.tables.RSb && a != ctx.tables.RCON
    && a as object != ctx.tables.FT && a as object != ctx.tables.RT && a as object != ctx.buf
  }

  /** output[at..] = a[at..] ^ b, where a may be the output. */
  method XorInto(a: array<bv8>, b: array<bv8>, output: array<bv8>, at: nat)
    requires at + 16 <= a.Length && b.Length == 16 && at + 16 <= output.Length && b != output
    modifies output
    ensures output[at..at + 16] == XorBlock(old(a[at..at + 16]), b[..])
    ensures output[..at] == old(output[..at]) && output[at + 16..] == old(output[at + 16..])
  {
    hide Add;
    for i := 0 to 16
      invariant output[..at] == old(output[..at]) && output[at + 16..] == old(output[at + 16..])
      invariant forall k :: at + i <= k < at + 16 ==> a[k] == old(a[k])
      invariant forall k :: at <= k < at + i ==> output[k] == Add(old(a[k]), b[k - at])
    {
      output[at + i] := Add(a[at + i], b[i]);
    }
  }

  /** memcpy of one block */
  method Copy(a: seq<bv8>, output: array<bv8>, at: nat)
    requires |a| == 16 && at + 16 <= output.Length
    modifies output
    ensures output[at..at + 16] == a
    ensures output[..at] == old(output[..at]) && output[at + 16..] == old(output[at + 16..])
  {
    for i := 0 to 16
      invariant output[..at] == old(output[..at]) && output[at + 16..] == old(output[at + 16..])
      invariant forall k :: at <= k < at + i ==> output[k] == a[k - at]
    {
      output[at + i] := a[i];
    }
  }

  // ----- CBC -----

  /** What lies behind the place i of a buffer still holds the data. */
  ghost predicate Ahead(input: array<bv8>, data: seq<bv8>, i: nat)
    reads input
  {
    |data| <= input.Length && forall k :: i <= k < |data| ==> input[k] == data[k]
  }

  /** One block of CBC encryption. */
  method CbcEncryptOne(ctx: Context, input: array<bv8>, iv: array<bv8>, output: array<bv8>, at: nat) returns (ghost c: Block)
    requires ctx.Valid() && iv.Length == 16 && at + 16 <= input.Length && at + 16 <= output.Length && iv != output
    requires Separate(ctx, iv) && Separate(ctx, output)
    modifies iv, output
    ensures ctx.Valid() && ctx.Keys() == old(ctx.Keys()) && ctx.Fwd() == old(ctx.Fwd()) && ctx.Rev() == old(ctx.Rev())
    ensures |ctx.Keys()| >= 2 && c == EncryptBlock(ctx.Fwd(), ctx.Keys(), XorBlock(old(input[at..at + 16]), old(iv[..]))) && iv[..] == c
    ensures output[at..at + 16] == c && output[..at] == old(output[..at]) && output[at + 16..] == old(output[at + 16..])
  {
    hide XorBlock, EncryptBlock, Context.Valid, Context.Keys, Context.Fwd, Context.Rev;
    XorInto(input, iv, output, at);
    var e := ctx.CryptEcb(ENCRYPT, output[at..at + 16]);
    Copy(e, output, at);
    Copy(output[at..at + 16], iv, 0);
    assert iv[..] == iv[0..16];
    c := e;
  }

  /** One block of CBC decryption. */
  method CbcDecryptOne(ctx: Context, input: array<bv8>, iv: array<bv8>, output: array<bv8>, at: nat, ghost keys: seq<State>)
    returns (ghost p: Block)
    requires ctx.Valid() && iv.Length == 16 && at + 16 <= input.Length && at + 16 <= output.Length && iv != output
    requires Separate(ctx, iv) && Separate(ctx, output) && |keys| >= 2 && ctx.Keys() == InverseKeys(keys)
    modifies iv, output
    ensures ctx.Valid() && ctx.Keys() == old(ctx.Keys()) && ctx.Fwd() == old(ctx.Fwd()) && ctx.Rev() == old(ctx.Rev())
    ensures p == XorBlock(DecryptBlock(ctx.Rev(), keys, old(input[at..at + 16])), old(iv[..])) && iv[..] == old(input[at..at + 16])
    ensures output[at..at + 16] == p && output[..at] == old(output[..at]) && output[at + 16..] == old(output[at + 16..])
  {
    hide XorBlock, EqInvCipher, InverseKeys, FromState, ToState, InvCipher, Context.Valid, Context.Keys, Context.Fwd, Context.Rev;
    var temp := input[at..at + 16];
    var d := ctx.CryptEcb(DECRYPT, temp);
    Equivalent(ctx.Rev(), keys, ToState(temp));
    Copy(d, output, at);
    XorInto(output, iv, output, at);
    p := XorBlock(d, iv[..]);
    Copy(temp, iv, 0);
    assert iv[..] == iv[0..16];
  }

  /** kf_aes_crypt_cbc with mode AES_ENCRYPT */
  method CbcEncryptBuffer(ctx: Context, length: nat, iv: array<bv8>, input: array<bv8>, output: array<bv8>) returns (ret: int)
    requires ctx.Valid() && iv.Length == 16 && length <= input.Length && length <= output.Length && iv != output && iv != input
    requires Separate(ctx, iv) && Separate(ctx, output)
    modifies iv, output
    ensures ctx.Valid() && ctx.Keys() == old(ctx.Keys()) && ctx.Fwd() == old(ctx.Fwd()) && ctx.Rev() == old(ctx.Rev())
    ensures ret == 0 <==> length % 16 == 0
    ensures ret != 0 ==> output[..] == old(output[..]) && iv[..] == old(iv[..])
    ensures ret == 0 ==> |ctx.Keys()| >= 2
                         && output[..length] == CbcEncrypt(ctx.Fwd(), ctx.Keys(), old(iv[..]), old(input[..length]))
                         && iv[..] == Chain(old(iv[..]), output[..length])
  {
    hide Encrypting, EncryptBlock, CbcEncrypt, XorBlock, Chain, Context.Valid, Context.Keys, Context.Fwd, Context.Rev;
    if length % 16 != 0 {
      return -0x0022;
    }
    ghost var fwd, keys, iv0: Block, data := ctx.Fwd(), ctx.Keys(), iv[..], input[..length];
    var i := 0;
    EncryptBegins(fwd, keys, iv0, data);
    while i < length
      invariant i <= length && ctx.Valid() && ctx.Keys() == keys && ctx.Fwd() == fwd && ctx.Rev() == old(ctx.Rev())
      invariant Ahead(input, data, i)
      invariant Encrypting(fwd, keys, iv0, data, i, iv[..], output[..i])
    {
      ghost var before := output[..i];
      EncryptAdvances(fwd, keys, iv0, data, i, iv[..], before);
      assert input[i..i + 16] == data[i..i + 16];
      ghost var c := CbcEncryptOne(ctx, input, iv, output, i);
      assert output[..i + 16] == before + c;
      i := i + 16;
    }
    EncryptEnds(fwd, keys, iv0, data, iv[..], output[..i]);
    ret := 0;
  }

  /** kf_aes_crypt_cbc with mode AES_DECRYPT, under the decryption schedule of keys. */
  method CbcDecryptBuffer(ctx: Context, length: nat, iv: array<bv8>, input: array<bv8>, output: array<bv8>, ghost keys: seq<State>)
    returns (ret: int)
    requires ctx.Valid() && iv.Length == 16 && length <= input.Length && length <= output.Length && iv != output && iv != input
    requires Separate(ctx, iv) && Separate(ctx, output) && |keys| >= 2 && ctx.Keys() == InverseKeys(keys)
    modifies iv, output
    ensures ctx.Valid() && ctx.Keys() == old(ctx.Keys()) && ctx.Fwd() == old(ctx.Fwd()) && ctx.Rev() == old(ctx.Rev())
    ensures ret == 0 <==> length % 16 == 0
    ensures ret != 0 ==> output[..] == old(output[..]) && iv[..] == old(iv[..])
    ensures ret == 0 ==> output[..length] == CbcDecrypt(ctx.Rev(), keys, old(iv[..]), old(input[..length]))
                         && iv[..] == Chain(old(iv[..]), old(input[..length]))
  {
    hide Decrypting, DecryptBlock, CbcDecrypt, XorBlock, Chain, InverseKeys, Context.Valid, Context.Keys, Context.Fwd, Context.Rev;
    if length % 16 != 0 {
      return -0x0022;
    }
    ghost var rev, iv0: Block, data := ctx.Rev(), iv[..], input[..length];
    var i := 0;
    DecryptBegins(rev, keys, iv0, data);
    while i < length
      invariant i <= length && ctx.Valid() && ctx.Keys() == InverseKeys(keys) && ctx.Fwd() == old(ctx.Fwd()) && ctx.Rev() == rev
      invariant Ahead(input, data, i)
      invariant Decrypting(rev, keys, iv0, data, i, iv[..], output[..i])
    {
      ghost var before := output[..i];
      DecryptAdvances(rev, keys, iv0, data, i, iv[..], before);
      assert input[i..i + 16] == data[i..i + 16];
      ghost var p := CbcDecryptOne(ctx, input, iv, output, i, keys);
      assert output[..i + 16] == before + p;
      i := i + 16;
    }
    DecryptEnds(rev, keys, iv0, data, iv[..], output[..i]);
    ret := 0;
  }

  // ----- CFB128 -----

  /** if( n == 0 ) kf_aes_crypt_ecb( ctx, AES_ENCRYPT, iv, iv ); */
  method RefillRegister(ctx: Context, n: nat, iv: array<bv8>)
    requires ctx.Valid() && iv.Length == 16 && n < 16 && Separate(ctx, iv)
    modifies iv
    ensures ctx.Valid() && ctx.Keys() == old(ctx.Keys()) && ctx.Fwd() == old(ctx.Fwd()) && ctx.Rev() == old(ctx.Rev())
    ensures |ctx.Keys()| >= 2 && Cfb(iv[..], n) == Refill(ctx.Fwd(), ctx.Keys(), Cfb(old(iv[..]), n))
  {
    hide EncryptBlock, Context.Valid, Context.Keys, Context.Fwd, Context.Rev;
    var e := ctx.CryptEcb(ENCRYPT, iv[..]);
    if n == 0 {
      Copy(e, iv, 0);
      assert iv[..] == e;
    }
  }

  /** kf_aes_crypt_cfb128 */
  method Cfb128(ctx: Context, mode: Direction, length: nat, ivOff: nat, iv: array<bv8>, input: array<bv8>, output: array<bv8>)
    returns (n: nat)
    requires ctx.Valid() && iv.Length == 16 && ivOff < 16 && length <= input.Length && length <= output.Length && iv != output && iv != input
    requires Separate(ctx, iv) && Separate(ctx, output)
    modifies iv, output
    ensures n < 16 && ctx.Valid() && ctx.Keys() == old(ctx.Keys()) && ctx.Fwd() == old(ctx.Fwd()) && ctx.Rev() == old(ctx.Rev())
    ensures (Cfb(iv[..], n), output[..length]) ==
              if mode == DECRYPT then CfbDecrypt(ctx.Fwd(), ctx.Keys(), Cfb(old(iv[..]), ivOff), old(input[..length]))
              else CfbEncrypt(ctx.Fwd(), ctx.Keys(), Cfb(old(iv[..]), ivOff), old(input[..length]))
  {
    hide CfbEncrypt, CfbDecrypt, Context.Valid, Context.Keys, Context.Fwd, Context.Rev;
    if mode == DECRYPT {
      n := CfbDecryptLoop(ctx, length, ivOff, iv, input, output);
    } else {
      n := CfbEncryptLoop(ctx, length, ivOff, iv, input, output);
    }
  }

  /** One byte of CFB128 decryption. */
  method CfbDecryptOne(ctx: Context, n: nat, iv: array<bv8>, input: array<bv8>, output: array<bv8>, i: nat) returns (next: nat)
    requires ctx.Valid() && iv.Length == 16 && n < 16 && i < input.Length && i < output.Length && iv != output && iv != input
    requires Separate(ctx, iv) && Separate(ctx, output)
    modifies iv, output
    ensures next < 16 && ctx.Valid() && ctx.Keys() == old(ctx.Keys()) && ctx.Fwd() == old(ctx.Fwd()) && ctx.Rev() == old(ctx.Rev())
    ensures |ctx.Keys()| >= 2
            && (Cfb(iv[..], next), output[i]) == CfbDecryptByte(ctx.Fwd(), ctx.Keys(), Cfb(old(iv[..]), n), old(input[i]))
    ensures output[..i] == old(output[..i]) && output[i + 1..] == old(output[i + 1..])
  {
    hide Refill, Add, Context.Valid, Context.Keys, Context.Fwd, Context.Rev;
    RefillRegister(ctx, n, iv);
    ghost var u := iv[..];
    var c := input[i];
    output[i] := Add(c, iv[n]);
    iv[n] := c;
    next := (n + 1) % 16;
    assert iv[..] == u[n := iv[n]];
  }

  method CfbDecryptLoop(ctx: Context, length: nat, ivOff: nat, iv: array<bv8>, input: array<bv8>, output: array<bv8>)
    returns (n: nat)
    requires ctx.Valid() && iv.Length == 16 && ivOff < 16 && length <= input.Length && length <= output.Length && iv != output && iv != input
    requires Separate(ctx, iv) && Separate(ctx, output)
    modifies iv, output
    ensures n < 16 && ctx.Valid() && ctx.Keys() == old(ctx.Keys()) && ctx.Fwd() == old(ctx.Fwd()) && ctx.Rev() == old(ctx.Rev())
    ensures (Cfb(iv[..], n), output[..length]) == CfbDecrypt(ctx.Fwd(), ctx.Keys(), Cfb(old(iv[..]), ivOff), old(input[..length]))
  {
    hide CfbDecryptByte, Context.Valid, Context.Keys, Context.Fwd, Context.Rev;
    ghost var fwd: Box, keys := ctx.Fwd(), ctx.Keys();
    ghost var s0 := Cfb(iv[..], ivOff);
    ghost var data := input[..length];
    n := ivOff;
    for i := 0 to length
      invariant n < 16 && ctx.Valid() && ctx.Keys() == keys && ctx.Fwd() == fwd && ctx.Rev() == old(ctx.Rev())
      invariant (Cfb(iv[..], n), output[..i]) == CfbDecrypt(fwd, keys, s0, data[..i]) && Ahead(input, data, i)
    {
      ghost var before := output[..i];
      CfbDecryptStep(fwd, keys, s0, data, i);
      n := CfbDecryptOne(ctx, n, iv, input, output, i);
      assert output[..i + 1] == before + [output[i]];
    }
    assert data[..length] == data;
  }

  /** One byte of CFB128 encryption. */
  method CfbEncryptOne(ctx: Context, n: nat, iv: array<bv8>, input: array<bv8>, output: array<bv8>, i: nat) returns (next: nat)
    requires ctx.Valid() && iv.Length == 16 && n < 16 && i < input.Length && i < output.Length && iv != output && iv != input
    requires Separate(ctx, iv) && Separate(ctx, output)
    modifies iv, output
    ensures next < 16 && ctx.Valid() && ctx.Keys() == old(ctx.Keys()) && ctx.Fwd() == old(ctx.Fwd()) && ctx.Rev() == old(ctx.Rev())
    ensures |ctx.Keys()| >= 2
            && (Cfb(iv[..], next), output[i]) == CfbEncryptByte(ctx.Fwd(), ctx.Keys(), Cfb(old(iv[..]), n), old(input[i]))
    ensures output[..i] == old(output[..i]) && output[i + 1..] == old(output[i + 1..])
  {
    hide Refill, Add, Context.Valid, Context.Keys, Context.Fwd, Context.Rev;
    RefillRegister(ctx, n, iv);
    ghost var u := iv[..];
    iv[n] := Add(iv[n], input[i]);
    output[i] := iv[n];
    next := (n + 1) % 16;
    assert iv[..] == u[n := iv[n]];
  }

  method CfbEncryptLoop(ctx: Context, length: nat, ivOff: nat, iv: array<bv8>, input: array<bv8>, output: array<bv8>)
    returns (n: nat)
    requires ctx.Valid() && iv.Length == 16 && ivOff < 16 && length <= input.Length && length <= output.Length && iv != output && iv != input
    requires Separate(ctx, iv) && Separate(ctx, output)
    modifies iv, output
    ensures n < 16 && ctx.Valid() && ctx.Keys() == old(ctx.Keys()) && ctx.Fwd() == old(ctx.Fwd()) && ctx.Rev() == old(ctx.Rev())
    ensures (Cfb(iv[..], n), output[..length]) == CfbEncrypt(ctx.Fwd(), ctx.Keys(), Cfb(old(iv[..]), ivOff), old(input[..length]))
  {
    hide CfbEncryptByte, Context.Valid, Context.Keys, Context.Fwd, Context.Rev;
    ghost var fwd: Box, keys := ctx.Fwd(), ctx.Keys();
    ghost var s0 := Cfb(iv[..], ivOff);
    ghost var data := input[..length];
    n := ivOff;
    for i := 0 to length
      invariant n < 16 && ctx.Valid() && ctx.Keys() == keys && ctx.Fwd() == fwd && ctx.Rev() == old(ctx.Rev())
      invariant (Cfb(iv[..], n), output[..i]) == CfbEncrypt(fwd, keys, s0, data[..i]) && Ahead(input, data, i)
    {
      ghost var before := output[..i];
      CfbEncryptStep(fwd, keys, s0, data, i);
      n := CfbEncryptOne(ctx, n, iv, input, output, i);
      assert output[..i + 1] == before + [output[i]];
    }
    assert data[..length] == data;
  }

  // ----- CTR -----

  /** A new block of key stream when the old one is used up, and the counter moved on. */
  method RefillStream(ctx: Context, n: nat, nonceCounter: array<bv8>, streamBlock: array<bv8>)
    requires ctx.Valid() && nonceCounter.Length == 16 && streamBlock.Length == 16 && n < 16 && nonceCounter != streamBlock
    requires Separate(ctx, nonceCounter) && Separate(ctx, streamBlock)
    modifies nonceCounter, streamBlock
    ensures ctx.Valid() && ctx.Keys() == old(ctx.Keys()) && ctx.Fwd() == old(ctx.Fwd()) && ctx.Rev() == old(ctx.Rev())
    ensures |ctx.Keys()| >= 2 && Ctr(nonceCounter[..], streamBlock[..], n) ==
              NextStream(ctx.Fwd(), ctx.Keys(), Ctr(old(nonceCounter[..]), old(streamBlock[..]), n))
  {
    hide EncryptBlock, Incremented, Context.Valid, Context.Keys, Context.Fwd, Context.Rev;
    var e := ctx.CryptEcb(ENCRYPT, nonceCounter[..]);
    if n == 0 {
      Copy(e, streamBlock, 0);
      assert streamBlock[..] == e;
      Increment(nonceCounter);
    }
  }

  /** One byte of CTR. */
  method CtrOne(ctx: Context, n: nat, nonceCounter: array<bv8>, streamBlock: array<bv8>, input: array<bv8>, output: array<bv8>, i: nat)
    returns (next: nat)
    requires ctx.Valid() && nonceCounter.Length == 16 && streamBlock.Length == 16 && n < 16 && i < input.Length && i < output.Length
    requires nonceCounter != output && streamBlock != output && nonceCounter != streamBlock && nonceCounter != input && streamBlock != input
    requires Separate(ctx, nonceCounter) && Separate(ctx, streamBlock) && Separate(ctx, output)
    modifies nonceCounter, streamBlock, output
    ensures next < 16 && ctx.Valid() && ctx.Keys() == old(ctx.Keys()) && ctx.Fwd() == old(ctx.Fwd()) && ctx.Rev() == old(ctx.Rev())
    ensures |ctx.Keys()| >= 2
            && (Ctr(nonceCounter[..], streamBlock[..], next), output[i]) ==
               CtrByte(ctx.Fwd(), ctx.Keys(), Ctr(old(nonceCounter[..]), old(streamBlock[..]), n), old(input[i]))
    ensures output[..i] == old(output[..i]) && output[i + 1..] == old(output[i + 1..])
  {
    hide NextStream, Add, Context.Valid, Context.Keys, Context.Fwd, Context.Rev;
    RefillStream(ctx, n, nonceCounter, streamBlock);
    ghost var counter, stream := nonceCounter[..], streamBlock[..];
    var c := input[i];
    output[i] := Add(c, streamBlock[n]);
    next := (n + 1) % 16;
    assert nonceCounter[..] == counter && streamBlock[..] == stream;
  }

  /** kf_aes_crypt_ctr */
  method CryptCtr(ctx: Context, length: nat, ncOff: nat, nonceCounter: array<bv8>, streamBlock: array<bv8>,
                  input: array<bv8>, output: array<bv8>)
    returns (n: nat)
    requires ctx.Valid() && nonceCounter.Length == 16 && streamBlock.Length == 16 && ncOff < 16 && length <= input.Length && length <= output.Length
    requires nonceCounter != output && streamBlock != output && nonceCounter != streamBlock && nonceCounter != input && streamBlock != input
    requires Separate(ctx, nonceCounter) && Separate(ctx, streamBlock) && Separate(ctx, output)
    modifies nonceCounter, streamBlock, output
    ensures n < 16 && ctx.Valid() && ctx.Keys() == old(ctx.Keys()) && ctx.Fwd() == old(ctx.Fwd()) && ctx.Rev() == old(ctx.Rev())
    ensures (Ctr(nonceCounter[..], streamBlock[..], n), output[..length]) ==
              CtrCrypt(ctx.Fwd(), ctx.Keys(), Ctr(old(nonceCounter[..]), old(streamBlock[..]), ncOff), old(input[..length]))
  {
    hide CtrByte, Context.Valid, Context.Keys, Context.Fwd, Context.Rev;
    ghost var fwd: Box, keys := ctx.Fwd(), ctx.Keys();
    ghost var s0 := Ctr(nonceCounter[..], streamBlock[..], ncOff);
    ghost var data := input[..length];
    n := ncOff;
    for i := 0 to length
      invariant n < 16 && ctx.Valid() && ctx.Keys() == keys && ctx.Fwd() == fwd && ctx.Rev() == old(ctx.Rev())
      invariant (Ctr(nonceCounter[..], streamBlock[..], n), output[..i]) == CtrCrypt(fwd, keys, s0, data[..i]) && Ahead(input, data, i)
    {
      ghost var before := output[..i];
      CtrCryptStep(fwd, keys, s0, data, i);
      n := CtrOne(ctx, n, nonceCounter, streamBlock, input, output, i);
      assert output[..i + 1] == before + [output[i]];
    }
    assert data[..length] == data;
  }

  /** The loop that carries: for( i = 16; i > 0; i-- ) if( ++nonce_counter[i - 1] != 0 ) break; */
  method Increment(b: array<bv8>)
    modifies b
    ensures b[..] == Incremented(old(b[..]))
  {
    ghost var was := b[..];
    var i := b.Length;
    assert was[..i] == was;
    while i > 0
      invariant 0 <= i <= b.Length && b[..i] == was[..i]
      invariant Incremented(was[..i]) + b[i..] == Incremented(was)
    {
      ghost var tail := b[i..];
      ghost var front := was[..i];
      assert front[..i - 1] == was[..i - 1] && front[i - 1] == was[i - 1];
      NextByte(b[i - 1]);
      b[i - 1] := b[i - 1] + 1;
      if b[i - 1] != 0 {
        assert b[..] == was[..i - 1] + [b[i - 1]] + tail;
        return;
      }
      assert b[i - 1] == 0 && b[i..] == tail;
      assert b[i - 1..] == [0] + tail;
      i := i - 1;
      assert Incremented(front) + tail == Incremented(was[..i]) + ([0] + tail);
    }
    assert b[..] == b[0..];
  }

  lemma NextByte(x: bv8)
    ensures x + 1 == 0 <==> x == 0xff
  {
  }
}
