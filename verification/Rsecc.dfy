/** The table-driven Reed-Solomon encoder of qrcode/rsecc.c: logarithm tables, generator
    polynomials kept as logarithms, and the shift-register division in place. */
module Rsecc {
  import opened Common
  import opened Gf256
  import opened RsCode

  /** An unsigned char used as a number (a logarithm). */
  const SYMBOLS := 255
  const MIN_LENGTH := 2
  const MAX_LENGTH := 30

  // ----- facts about the tables -----

  /** One step of the table loop on the machine word b. */
  function NextWord(b: bv32): bv32 {
    var s := b << 1;
    (if s & 0x100 != 0 then s ^ 0x11d else s) & 0xff
  }

  lemma NextWordIsXtime(p: bv8)
    ensures NextWord(p as bv32) == Xtime(p) as bv32
  {
  }

  lemma WordOfSymbol(p: bv8)
    ensures (p as bv32) as nat == p as nat
    ensures p as bv32 < 256 && (p as bv32) as bv8 == p
  {
  }

  lemma NextPower(i: nat)
    ensures Power(i + 1) == Xtime(Power(i))
  {
  }

  lemma LogSum(i: nat, j: nat)
    ensures Power((i + j) % SYMBOLS) == Mul(Power(i), Power(j))
  {
    hide Times, Mul;
    PowerMod(i + j);
    TimesAdd(i, j, 1);
    MulPower(i, Power(j));
  }

  lemma {:induction false} PowerMod(n: nat)
    ensures Power(n % SYMBOLS) == Power(n)
  {
    hide Times;
    if n >= SYMBOLS {
      PowerMod(n - SYMBOLS);
      assert (n - SYMBOLS) % SYMBOLS == n % SYMBOLS;
      TimesAdd(SYMBOLS, n - SYMBOLS, 1);
      Cycle(Power(n - SYMBOLS));
    }
  }

  /** The place of alpha^k in the logarithm table. */
  function Place(k: nat): (p: nat)
    ensures p < 256
  {
    Power(k) as nat
  }

  lemma FreshPlace(i: nat)
    requires i < SYMBOLS
    ensures Place(i) != 0
    ensures forall k {:trigger Place(k)} :: 0 <= k < i ==> Place(k) != Place(i)
  {
    hide Power;
    PowerNonzero(i);
    forall k {:trigger Place(k)} | 0 <= k < i ensures Place(k) != Place(i) {
      if Power(k) == Power(i) {
        PowerInjective(k, i);
      }
    }
  }

  /** aindex is read at every nonzero symbol, so every one must have been written. */
  ghost predicate Logarithms(aindex: seq<byte>)
    requires |aindex| == 256
  {
    forall v: bv8 {:trigger aindex[v as nat]} :: v != 0 ==>
      aindex[v as nat] < SYMBOLS && Power(aindex[v as nat]) == v
  }

  lemma LogarithmsComplete(aindex: seq<byte>)
    requires |aindex| == 256
    requires forall k {:trigger Place(k)} :: 0 <= k < SYMBOLS ==> aindex[Place(k)] == k
    ensures Logarithms(aindex)
  {
    hide Power;
    forall v: bv8 {:trigger aindex[v as nat]} | v != 0
      ensures aindex[v as nat] < SYMBOLS && Power(aindex[v as nat]) == v
    {
      var k := Log(v);
      assert aindex[Place(k)] == k;
    }
  }

  /** The tables after i entries. */
  ghost predicate EntriesBelow(i: nat, alpha: seq<bv8>, aindex: seq<byte>) {
    && |alpha| == |aindex| == 256 && i <= SYMBOLS
    && alpha[SYMBOLS] == 0 && aindex[0] == SYMBOLS
    && (forall k {:trigger alpha[k]} :: 0 <= k < i ==> alpha[k] == Power(k))
    && (forall k {:trigger Place(k)} :: 0 <= k < i ==> aindex[Place(k)] == k)
  }

  lemma EnterBelow(i: nat, alpha: seq<bv8>, aindex: seq<byte>)
    requires i < SYMBOLS && EntriesBelow(i, alpha, aindex)
    ensures EntriesBelow(i + 1, alpha[i := Power(i)], aindex[Place(i) := i])
  {
    hide Power, Place;
    FreshPlace(i);
  }

  /** The coefficients of the degree-n generator, lowest power first as in g[]. */
  ghost function Coefficients(n: nat): (c: seq<bv8>)
    ensures |c| == n + 1
  {
    seq(n + 1, k requires 0 <= k <= n => Generator(n)[n - k])
  }

  lemma CoefficientNonzero(n: nat, k: nat)
    requires n < 255 && k <= n
    ensures Coefficients(n)[k] != 0
  {
    hide Generator;
    GeneratorHasNoZero(n, n - k);
  }

  lemma GeneratorCoefficient(i: nat, k: nat)
    requires k <= i + 1
    ensures Generator(i + 1)[k] ==
            Add(if k <= i then Generator(i)[k] else 0, if k > 0 then Mul(Power(i), Generator(i)[k - 1]) else 0)
  {
    hide Add, Mul, Power;
  }

  lemma CoefficientStep(i: nat, j: nat)
    requires j <= i < 255
    ensures Coefficients(i)[j] != 0
    ensures j > 0 ==> Coefficients(i + 1)[j] == Add(Coefficients(i)[j - 1], Mul(Power(i), Coefficients(i)[j]))
    ensures j == 0 ==> Coefficients(i + 1)[0] == Mul(Power(i), Coefficients(i)[0])
    ensures Coefficients(i + 1)[i + 1] == 1
  {
    hide Add, Mul, Power, Generator;
    GeneratorCoefficient(i, i + 1 - j);
    CoefficientNonzero(i, j);
    AddLaws(Mul(Power(i), Coefficients(i)[0]), 0, 0);
  }

  // ----- one step of the shift register -----

  /** The register after a data symbol: shifted, plus the feedback times the generator. */
  function NextRegister(ecc: Word, d: bv8): (r: Word)
    requires |ecc| > 0
    ensures |r| == |ecc|
  {
    AddWords(ecc[1..] + [0], Scale(Add(d, ecc[0]), Generator(|ecc|)[1..]))
  }

  /** A step keeps "data so far followed by the register" zero at a root of the generator. */
  lemma RegisterStep(prefix: Word, ecc: Word, d: bv8, x: bv8)
    requires |ecc| > 0
    requires Eval(prefix + ecc, x) == 0 && Eval(Generator(|ecc|), x) == 0
    ensures Eval(prefix + [d] + NextRegister(ecc, d), x) == 0
  {
    hide Add, Mul, Eval, Generator;
    var g, f := Generator(|ecc|), Add(d, ecc[0]);
    var shifted := prefix + ecc + [0];
    var correction := Zeros(|prefix|) + Scale(f, g);
    EvalAppendZero(prefix + ecc, x);
    EvalZeros(|prefix|, Scale(f, g), x);
    EvalScale(f, g, x);
    EvalAdd(shifted, correction, x);
    MulZero(x);
    MulZero(f);
    AddLaws(0, 0, 0);
    assert prefix + [d] + NextRegister(ecc, d) == AddWords(shifted, correction) by {
      var l, r := prefix + [d] + NextRegister(ecc, d), AddWords(shifted, correction);
      forall p | 0 <= p < |l| ensures l[p] == r[p] {
        if p < |prefix| {
          AddLaws(prefix[p], 0, 0);
        } else if p == |prefix| {
          MulCommutes(f, 1);
          MulOneLeft(f);
          AddLaws(ecc[0], d, ecc[0]);
          AddLaws(d, ecc[0], ecc[0]);
          AddLaws(ecc[0], ecc[0], 0);
          AddLaws(d, 0, 0);
        }
      }
    }
  }

  lemma RegisterStepAll(prefix: Word, ecc: Word, d: bv8)
    requires |ecc| > 0 && Codeword(prefix + ecc, |ecc|)
    ensures Codeword(prefix + [d] + NextRegister(ecc, d), |ecc|)
  {
    hide Add, Mul, Eval, Power, NextRegister;
    GeneratorVanishes(|ecc|);
    forall j | 0 <= j < |ecc| ensures Eval(prefix + [d] + NextRegister(ecc, d), Power(j)) == 0 {
      RegisterStep(prefix, ecc, d, Power(j));
    }
  }

  lemma NextSymbol(ecc: Word, d: bv8, k: nat)
    requires k < |ecc|
    ensures
      var f := Add(d, ecc[0]);
      && (k < |ecc| - 1 && f != 0 ==> NextRegister(ecc, d)[k] == Add(ecc[k + 1], Mul(f, Generator(|ecc|)[k + 1])))
      && (k == |ecc| - 1 && f != 0 ==> NextRegister(ecc, d)[k] == Mul(f, Generator(|ecc|)[|ecc|]))
      && (f == 0 ==> NextRegister(ecc, d)[k] == if k < |ecc| - 1 then ecc[k + 1] else 0)
  {
    hide Add, Mul, Generator;
    var f := Add(d, ecc[0]);
    MulZero(Generator(|ecc|)[k + 1]);
    AddLaws(Mul(f, Generator(|ecc|)[k + 1]), 0, 0);
    AddLaws(if k < |ecc| - 1 then ecc[k + 1] else 0, 0, 0);
  }

  lemma ZerosAreCodeword(n: nat)
    ensures Codeword(Zeros(n), n)
  {
    hide Add, Mul, Power;
    forall j | 0 <= j < n ensures Eval(Zeros(n), Power(j)) == 0 {
      EvalZeros(n, [], Power(j));
      assert Zeros(n) + [] == Zeros(n);
    }
  }

  // ----- the encoder -----

  class Encoder {
    var initialized: bool
    const alpha: array<bv8>
    const aindex: array<byte>
    const generator: array2<byte>
    const generatorInitialized: array<bool>

    ghost predicate Shape()
    {
      && (alpha as object) != aindex && (generator as object) != generatorInitialized
      && generator as object !in {alpha as object, aindex as object}
      && generatorInitialized as object !in {alpha as object, aindex as object}
      && alpha.Length == 256 && aindex.Length == 256
      && generator.Length0 == MAX_LENGTH - MIN_LENGTH + 1 && generator.Length1 == MAX_LENGTH + 1
      && generatorInitialized.Length == MAX_LENGTH - MIN_LENGTH + 1
    }

    /** The caller's buffer is none of the tables. */
    ghost predicate Separate(ecc: array<bv8>) {
      ecc != alpha && ecc as object !in {aindex as object, generator as object, generatorInitialized as object}
    }

    /** The tables hold powers and logarithms of alpha. */
    ghost predicate TablesReady()
      requires Shape()
      reads alpha, aindex
    {
      && alpha[SYMBOLS] == 0
      && aindex[0] == SYMBOLS
      && (forall i {:trigger alpha[i]} :: 0 <= i < SYMBOLS ==> alpha[i] == Power(i))
      && Logarithms(aindex[..])
    }

    /** Row length - 2 holds the logarithms of the generator's coefficients, lowest power first. */
    ghost predicate GeneratorReady(length: nat)
      requires Shape() && MIN_LENGTH <= length <= MAX_LENGTH
      reads generator
    {
      forall i {:trigger generator[length - MIN_LENGTH, i]} :: 0 <= i <= length ==>
        && generator[length - MIN_LENGTH, i] < SYMBOLS
        && Power(generator[length - MIN_LENGTH, i]) == Generator(length)[length - i]
    }

    ghost predicate Valid()
      reads this, alpha, aindex, generator, generatorInitialized
    {
      && Shape()
      && (initialized ==>
          && TablesReady()
          && (forall k {:trigger generatorInitialized[k]} :: 0 <= k <= MAX_LENGTH - MIN_LENGTH && generatorInitialized[k] ==>
              GeneratorReady(k + MIN_LENGTH)))
    }

    constructor ()
      ensures Valid()
      ensures fresh(alpha) && fresh(aindex) && fresh(generator) && fresh(generatorInitialized)
    {
      initialized := false;
      alpha := new bv8[256](_ => 0);
      aindex := new byte[256](_ => 0);
      generator := new byte[MAX_LENGTH - MIN_LENGTH + 1, MAX_LENGTH + 1]((_, _) => 0);
      generatorInitialized := new bool[MAX_LENGTH - MIN_LENGTH + 1](_ => false);
    }

    /** alpha[i] = b; aindex[b] = i; */
    method Enter(i: nat, b: bv8)
      requires Shape() && i < SYMBOLS
      modifies alpha, aindex
      ensures alpha[..] == old(alpha[..])[i := b]
      ensures aindex[..] == old(aindex[..])[b as nat := i]
    {
      alpha[i] := b;
      aindex[b as nat] := i;
    }

    method InitLookupTable()
      requires Shape()
      modifies alpha, aindex
      ensures TablesReady()
    {
      hide Times, Power, Xtime, NextWord;
      alpha[SYMBOLS] := 0;
      aindex[0] := SYMBOLS;
      var b: bv32 := 1;
      PowerOne();
      for i := 0 to SYMBOLS
        invariant b == Power(i) as bv32
        invariant EntriesBelow(i, alpha[..], aindex[..])
      {
        WordOfSymbol(Power(i));
        EnterBelow(i, alpha[..], aindex[..]);
        Enter(i, b as bv8);
        NextWordIsXtime(Power(i));
        NextPower(i);
        b := NextWord(b);
      }
      LogarithmsComplete(aindex[..]);
    }

    /** alpha[(aindex[v] + e) % symbols] is alpha^e times v, provided v is not zero. */
    method Multiply(v: bv8, e: nat) returns (r: bv8)
      requires Shape() && TablesReady() && v != 0
      ensures r == Mul(Power(e), v)
    {
      hide Times, Power, Mul;
      r := alpha[(aindex[v as nat] + e) % SYMBOLS];
      assert Power(aindex[..][v as nat]) == v;
      LogSum(aindex[v as nat], e);
      MulCommutes(v, Power(e));
    }

    /** The inner loop of generator_init: multiply the degree-i generator in g by
        (x + alpha^i), from the top coefficient down. */
    method RaiseDegree(g: array<bv8>, i: nat)
      requires Shape() && TablesReady() && i < MAX_LENGTH && g.Length == MAX_LENGTH + 1
      requires g != alpha && (g as object) != aindex
      requires g[..i + 1] == Coefficients(i)
      modifies g
      ensures g[..i + 2] == Coefficients(i + 1)
    {
      hide Times, Power, Mul, Add, Generator, TablesReady;
      CoefficientStep(i, i);
      g[i + 1] := 1;
      var j := i;
      while j > 0
        invariant 0 <= j <= i
        invariant TablesReady()
        invariant forall k {:trigger g[k]} :: 0 <= k <= j ==> g[k] == Coefficients(i)[k]
        invariant forall k {:trigger g[k]} :: j < k <= i + 1 ==> g[k] == Coefficients(i + 1)[k]
      {
        CoefficientStep(i, j);
        var product := Multiply(g[j], i);
        g[j] := Add(g[j - 1], product);
        j := j - 1;
      }
      CoefficientStep(i, 0);
      g[0] := Multiply(g[0], i);
    }

    method StoreLogarithms(g: array<bv8>, length: nat)
      requires Shape() && TablesReady() && MIN_LENGTH <= length <= MAX_LENGTH && g.Length == MAX_LENGTH + 1
      requires g[..length + 1] == Coefficients(length)
      modifies generator
      ensures GeneratorReady(length)
      ensures forall k, i :: 0 <= k <= MAX_LENGTH - MIN_LENGTH && k != length - MIN_LENGTH && 0 <= i <= MAX_LENGTH ==>
                generator[k, i] == old(generator[k, i])
    {
      hide Times, Power, Mul, Add, Generator;
      var row := length - MIN_LENGTH;
      var i := 0;
      while i <= length
        invariant 0 <= i <= length + 1
        invariant forall k {:trigger generator[row, k]} :: 0 <= k < i ==>
                    generator[row, k] < SYMBOLS && Power(generator[row, k]) == Coefficients(length)[k]
        invariant forall k, m :: 0 <= k <= MAX_LENGTH - MIN_LENGTH && k != row && 0 <= m <= MAX_LENGTH ==>
                    generator[k, m] == old(generator[k, m])
      {
        CoefficientNonzero(length, i);
        var v := g[i];
        assert v == g[..length + 1][i] == Coefficients(length)[i];
        assert Power(aindex[..][v as nat]) == v;
        generator[row, i] := aindex[v as nat];
        i := i + 1;
      }
    }

    method GeneratorInit(length: nat)
      requires Shape() && TablesReady() && MIN_LENGTH <= length <= MAX_LENGTH
      modifies generator, generatorInitialized
      ensures GeneratorReady(length) && generatorInitialized[length - MIN_LENGTH]
      ensures forall k, i :: 0 <= k <= MAX_LENGTH - MIN_LENGTH && k != length - MIN_LENGTH && 0 <= i <= MAX_LENGTH ==>
                generator[k, i] == old(generator[k, i])
      ensures forall k :: 0 <= k <= MAX_LENGTH - MIN_LENGTH && k != length - MIN_LENGTH ==>
                generatorInitialized[k] == old(generatorInitialized[k])
    {
      hide TablesReady;
      var g := new bv8[MAX_LENGTH + 1](_ => 0);
      g[0] := 1;
      assert Coefficients(0)[0] == Generator(0)[0] == 1;
      assert g[..1] == Coefficients(0);
      var i := 0;
      while i < length
        invariant 0 <= i <= length
        invariant TablesReady()
        invariant g[..i + 1] == Coefficients(i)
        modifies g
      {
        RaiseDegree(g, i);
        i := i + 1;
      }
      StoreLogarithms(g, length);
      generatorInitialized[length - MIN_LENGTH] := true;
    }

    method Init()
      requires Shape()
      modifies this, alpha, aindex, generatorInitialized
      ensures Valid() && initialized
    {
      InitLookupTable();
      var k := 0;
      while k < MAX_LENGTH - MIN_LENGTH + 1
        invariant 0 <= k <= MAX_LENGTH - MIN_LENGTH + 1
        invariant forall m :: 0 <= m < k ==> !generatorInitialized[m]
        modifies generatorInitialized
      {
        generatorInitialized[k] := false;
        k := k + 1;
      }
      initialized := true;
    }

    method Logarithm(v: bv8) returns (l: byte)
      requires Shape() && TablesReady()
      ensures v == 0 ==> l == SYMBOLS
      ensures v != 0 ==> l < SYMBOLS && Power(l) == v
    {
      l := aindex[..][v as nat];
    }

    /** alpha[(feedback + gen[k]) % symbols] */
    method TimesCoefficient(feedback: byte, n: nat, k: nat) returns (r: bv8)
      requires Shape() && TablesReady() && MIN_LENGTH <= n <= MAX_LENGTH && GeneratorReady(n) && k <= n
      ensures r == Mul(Power(feedback), Generator(n)[n - k])
    {
      hide Times, Power, Mul, Generator;
      var gen := generator[n - MIN_LENGTH, k];
      r := alpha[(feedback + gen) % SYMBOLS];
      LogSum(feedback, gen);
    }

    /** The feedback loop of RSECC_encode: ecc[j] ^= feedback times a generator coefficient. */
    method AddFeedback(feedback: byte, n: nat, ecc: array<bv8>, at: nat)
      requires Shape() && TablesReady() && MIN_LENGTH <= n <= MAX_LENGTH && GeneratorReady(n)
      requires at + n <= ecc.Length && Separate(ecc)
      modifies ecc
      ensures forall q :: at < q < at + n ==> ecc[q] == Add(old(ecc[q]), Mul(Power(feedback), Generator(n)[q - at]))
      ensures forall k :: 0 <= k < ecc.Length && !(at < k < at + n) ==> ecc[k] == old(ecc[k])
    {
      hide Times, Power, Mul, Add, Generator, TablesReady, GeneratorReady;
      var j := 1;
      while j < n
        invariant 1 <= j <= n
        invariant TablesReady() && GeneratorReady(n)
        invariant forall q :: at < q < at + j ==> ecc[q] == Add(old(ecc[q]), Mul(Power(feedback), Generator(n)[q - at]))
        invariant forall k :: 0 <= k < ecc.Length && !(at < k < at + j) ==> ecc[k] == old(ecc[k])
      {
        var product := TimesCoefficient(feedback, n, n - j);
        ecc[at + j] := Add(ecc[at + j], product);
        j := j + 1;
      }
    }

    /** One data symbol: feedback, shift and last symbol. */
    method Feed(d: bv8, n: nat, ecc: array<bv8>, at: nat)
      requires Shape() && TablesReady() && MIN_LENGTH <= n <= MAX_LENGTH && GeneratorReady(n)
      requires at + n <= ecc.Length && Separate(ecc)
      modifies ecc
      ensures TablesReady() && GeneratorReady(n)
      ensures ecc[at..at + n] == NextRegister(old(ecc[at..at + n]), d)
      ensures forall k :: 0 <= k < ecc.Length && !(at <= k < at + n) ==> ecc[k] == old(ecc[k])
    {
      hide Times, Power, Mul, Add, Generator, TablesReady, GeneratorReady, NextRegister;
      ghost var register := ecc[at..at + n];
      ghost var f := Add(d, register[0]);
      var feedback := Logarithm(Add(d, ecc[at]));
      if feedback != SYMBOLS {
        AddFeedback(feedback, n, ecc, at);
      }
      ghost var mid := ecc[at..at + n];
      forall q | at <= q < at + n - 1 {
        ecc[q] := ecc[q + 1];
      }
      assert forall k :: 0 <= k < n - 1 ==> ecc[at + k] == mid[1..][k];
      if feedback != SYMBOLS {
        ecc[at + n - 1] := TimesCoefficient(feedback, n, 0);
      } else {
        ecc[at + n - 1] := 0;
      }
      assert ecc[at..at + n] == mid[1..] + [ecc[at + n - 1]];
      forall k | 0 <= k < n
        ensures (mid[1..] + [ecc[at + n - 1]])[k] == NextRegister(register, d)[k]
      {
        NextSymbol(register, d, k);
      }
    }

    /** RSECC_encode: the check symbols of data, written to ecc[at..]. */
    method Encode(eccLength: nat, data: seq<bv8>, ecc: array<bv8>, at: nat) returns (ret: int)
      requires Valid() && MIN_LENGTH <= eccLength
      requires at + eccLength <= ecc.Length && Separate(ecc)
      modifies this, alpha, aindex, generator, generatorInitialized, ecc
      ensures Valid() && initialized
      ensures ret == if eccLength > MAX_LENGTH then -1 else 0
      ensures ret == 0 ==> Codeword(data + ecc[at..at + eccLength], eccLength)
      ensures forall k :: 0 <= k < ecc.Length && (ret != 0 || !(at <= k < at + eccLength)) ==> ecc[k] == old(ecc[k])
    {
      hide Times, Power, Mul, Add, Generator, NextRegister, Codeword;
      if !initialized {
        Init();
      }
      if eccLength > MAX_LENGTH {
        return -1;
      }
      forall k | 0 <= k < eccLength {
        ecc[at + k] := 0;
      }
      if !generatorInitialized[eccLength - MIN_LENGTH] {
        GeneratorInit(eccLength);
      }
      assert ecc[at..at + eccLength] == Zeros(eccLength);
      ZerosAreCodeword(eccLength);
      assert [] + Zeros(eccLength) == Zeros(eccLength);
      for i := 0 to |data|
        invariant TablesReady() && GeneratorReady(eccLength)
        invariant Codeword(data[..i] + ecc[at..at + eccLength], eccLength)
        invariant forall k :: 0 <= k < ecc.Length && !(at <= k < at + eccLength) ==> ecc[k] == old(ecc[k])
        modifies ecc
      {
        RegisterStepAll(data[..i], ecc[at..at + eccLength], data[i]);
        Feed(data[i], eccLength, ecc, at);
        assert data[..i + 1] == data[..i] + [data[i]];
      }
      assert data[..|data|] == data;
      ret := 0;
    }
  }
}
