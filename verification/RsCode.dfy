/** Words over GF(256), read as polynomials with the highest power first, and the
    distance of the code whose words vanish at the first n powers of alpha
    (section 6.5 of ISO/IEC 18004:2006). */
module RsCode {
  import opened Gf256

  type Word = seq<bv8>

  /** The value of the polynomial w at x (Horner). */
  function Eval(w: Word, x: bv8): bv8 {
    if |w| == 0 then 0
    else Add(Mul(x, Eval(w[..|w| - 1], x)), w[|w| - 1])
  }

  function AddWords(u: Word, v: Word): (w: Word)
    requires |u| == |v|
    ensures |w| == |u|
  {
    seq(|u|, i requires 0 <= i < |u| => Add(u[i], v[i]))
  }

  function Scale(c: bv8, w: Word): (r: Word)
    ensures |r| == |w|
  {
    seq(|w|, i requires 0 <= i < |w| => Mul(c, w[i]))
  }

  function Zeros(n: nat): (w: Word)
    ensures |w| == n
  {
    seq(n, _ => 0)
  }

  /** w vanishes at alpha^0, ..., alpha^(n-1). */
  ghost predicate Codeword(w: Word, n: nat) {
    forall j {:trigger Power(j)} :: 0 <= j < n ==> Eval(w, Power(j)) == 0
  }

  /** The generator polynomial (x + alpha^0)(x + alpha^1)...(x + alpha^(n-1)). */
  function Generator(n: nat): (g: Word)
    ensures |g| == n + 1 && g[0] == 1
  {
    if n == 0 then [1]
    else
      MulZero(Power(n - 1));
      AddLaws(1, 0, 0);
      AddWords(Generator(n - 1) + [0], [0] + Scale(Power(n - 1), Generator(n - 1)))
  }

  // ----- evaluation is linear -----

  lemma {:induction false} EvalAdd(u: Word, v: Word, x: bv8)
    requires |u| == |v|
    ensures Eval(AddWords(u, v), x) == Add(Eval(u, x), Eval(v, x))
  {
    hide Add, Mul;
    if |u| == 0 {
      AddLaws(0, 0, 0);
    } else {
      var n := |u| - 1;
      assert AddWords(u, v)[..n] == AddWords(u[..n], v[..n]);
      EvalAdd(u[..n], v[..n], x);
      MulAdd(x, Eval(u[..n], x), Eval(v[..n], x));
      AddSwap(Mul(x, Eval(u[..n], x)), Mul(x, Eval(v[..n], x)), u[n], v[n]);
    }
  }

  lemma {:induction false} EvalScale(c: bv8, w: Word, x: bv8)
    ensures Eval(Scale(c, w), x) == Mul(c, Eval(w, x))
  {
    hide Add, Mul;
    if |w| == 0 {
      MulZero(c);
    } else {
      var n := |w| - 1;
      assert Scale(c, w)[..n] == Scale(c, w[..n]);
      EvalScale(c, w[..n], x);
      var e := Eval(w[..n], x);
      MulAdd(c, Mul(x, e), w[n]);
      MulAssociates(x, c, e);
      MulAssociates(c, x, e);
      MulCommutes(c, x);
    }
  }

  lemma {:induction false} EvalZeros(n: nat, w: Word, x: bv8)
    ensures Eval(Zeros(n) + w, x) == Eval(w, x)
  {
    hide Add, Mul;
    if n + |w| == 0 {
    } else if |w| == 0 {
      assert (Zeros(n) + w)[..n - 1] == Zeros(n - 1) + w;
      EvalZeros(n - 1, w, x);
      MulZero(x);
      AddLaws(0, 0, 0);
    } else {
      assert (Zeros(n) + w)[..n + |w| - 1] == Zeros(n) + w[..|w| - 1];
      EvalZeros(n, w[..|w| - 1], x);
    }
  }

  lemma EvalAppendZero(w: Word, x: bv8)
    ensures Eval(w + [0], x) == Mul(x, Eval(w, x))
  {
    hide Add, Mul;
    assert (w + [0])[..|w|] == w;
    AddLaws(Mul(x, Eval(w, x)), 0, 0);
  }

  lemma GeneratorFactor(n: nat, x: bv8)
    ensures Eval(Generator(n + 1), x) == Mul(Add(x, Power(n)), Eval(Generator(n), x))
  {
    hide Add, Mul, Power, Eval, AddWords, Scale;
    var g, a := Generator(n), Power(n);
    EvalAdd(g + [0], [0] + Scale(a, g), x);
    EvalAppendZero(g, x);
    assert [0] + Scale(a, g) == Zeros(1) + Scale(a, g);
    EvalZeros(1, Scale(a, g), x);
    EvalScale(a, g, x);
    MulAdd(Eval(g, x), x, a);
  }

  /** Every generator polynomial vanishes at its roots. */
  lemma {:induction false} GeneratorVanishes(n: nat)
    ensures Codeword(Generator(n), n)
  {
    hide Add, Mul, Power, Eval, Generator;
    forall j | 0 <= j < n ensures Eval(Generator(n), Power(j)) == 0 {
      GeneratorVanishes(n - 1);
      GeneratorFactor(n - 1, Power(j));
      if j == n - 1 {
        AddLaws(Power(j), 0, 0);
        MulZero(Eval(Generator(n - 1), Power(j)));
      } else {
        MulZero(Add(Power(j), Power(n - 1)));
      }
    }
  }

  // ----- minimum distance -----

  /** The sum of all symbols of v. */
  function Total(v: Word): bv8 {
    if |v| == 0 then 0 else Add(Total(v[..|v| - 1]), v[|v| - 1])
  }

  function Locate(v: Word, locators: Word): (r: Word)
    requires |v| == |locators|
    ensures |r| == |v|
  {
    seq(|v|, i requires 0 <= i < |v| => Mul(locators[i], v[i]))
  }

  /** The first t power sums of v over the locators are zero. */
  predicate Balanced(v: Word, locators: Word, t: nat)
    requires |v| == |locators|
    decreases t
  {
    t == 0 || (Total(v) == 0 && Balanced(Locate(v, locators), locators, t - 1))
  }

  ghost function Support(v: Word): set<int> {
    set p | 0 <= p < |v| && v[p] != 0
  }

  lemma {:induction false} TotalLinear(c: bv8, u: Word, v: Word)
    requires |u| == |v|
    ensures Total(AddWords(u, v)) == Add(Total(u), Total(v))
    ensures Total(Scale(c, v)) == Mul(c, Total(v))
  {
    hide Add, Mul;
    if |u| == 0 {
      AddLaws(0, 0, 0);
      MulZero(c);
    } else {
      var n := |u| - 1;
      assert AddWords(u, v)[..n] == AddWords(u[..n], v[..n]);
      assert Scale(c, v)[..n] == Scale(c, v[..n]);
      TotalLinear(c, u[..n], v[..n]);
      AddSwap(Total(u[..n]), Total(v[..n]), u[n], v[n]);
      MulAdd(c, Total(v[..n]), v[n]);
    }
  }

  lemma LocateLinear(c: bv8, u: Word, v: Word, locators: Word)
    requires |u| == |v| == |locators|
    ensures Locate(AddWords(u, v), locators) == AddWords(Locate(u, locators), Locate(v, locators))
    ensures Locate(Scale(c, v), locators) == Scale(c, Locate(v, locators))
  {
    hide Add, Mul;
    forall i | 0 <= i < |u|
      ensures Mul(locators[i], Add(u[i], v[i])) == Add(Mul(locators[i], u[i]), Mul(locators[i], v[i]))
      ensures Mul(locators[i], Mul(c, v[i])) == Mul(c, Mul(locators[i], v[i]))
    {
      MulAdd(locators[i], u[i], v[i]);
      MulAssociates(locators[i], c, v[i]);
      MulAssociates(c, locators[i], v[i]);
      MulCommutes(c, locators[i]);
    }
  }

  lemma {:induction false} BalancedLinear(c: bv8, u: Word, v: Word, locators: Word, t: nat)
    requires |u| == |v| == |locators|
    requires Balanced(u, locators, t) && Balanced(v, locators, t)
    ensures Balanced(AddWords(u, Scale(c, v)), locators, t)
    decreases t
  {
    hide Add, Mul;
    if t > 0 {
      TotalLinear(c, u, Scale(c, v));
      TotalLinear(c, v, v);
      MulZero(c);
      AddLaws(0, 0, 0);
      LocateLinear(c, u, Scale(c, v), locators);
      LocateLinear(c, v, v, locators);
      BalancedLinear(c, Locate(u, locators), Locate(v, locators), locators, t - 1);
    }
  }

  lemma {:induction false} BalancedDown(v: Word, locators: Word, t: nat)
    requires |v| == |locators| && t > 0 && Balanced(v, locators, t)
    ensures Balanced(v, locators, t - 1)
    decreases t
  {
    hide Add, Mul;
    if t > 1 {
      BalancedDown(Locate(v, locators), locators, t - 1);
    }
  }

  /** What is left of v when symbol w is eliminated: locators[p] + locators[w] times v[p]. */
  lemma Eliminated(v: Word, locators: Word, w: nat)
    requires |v| == |locators| && w < |v|
    requires forall i, j :: 0 <= i < j < |v| ==> locators[i] != locators[j]
    ensures
      var r := AddWords(Locate(v, locators), Scale(locators[w], v));
      Support(r) == Support(v) - {w}
  {
    hide Add, Mul;
    var r := AddWords(Locate(v, locators), Scale(locators[w], v));
    forall p | 0 <= p < |v| ensures r[p] != 0 <==> v[p] != 0 && p != w {
      MulAdd(v[p], locators[p], locators[w]);
      assert r[p] == Mul(Add(locators[p], locators[w]), v[p]);
      if p == w {
        AddLaws(locators[w], 0, 0);
        MulZero(v[p]);
      } else if v[p] == 0 {
        MulZero(Add(locators[p], locators[w]));
      } else if r[p] == 0 {
        NoZeroDivisors(Add(locators[p], locators[w]), v[p]);
        AddLaws(locators[p], locators[w], 0);
      }
    }
  }

  lemma {:induction false} TotalOfSupport(v: Word, w: nat)
    requires w < |v| && Support(v) <= {w}
    ensures Total(v) == v[w]
  {
    hide Add;
    assert forall p :: 0 <= p < |v| && p != w ==> v[p] == 0 by {
      forall p | 0 <= p < |v| && p != w ensures v[p] == 0 {
        assert p !in Support(v);
      }
    }
    TotalPrefix(v, w, |v|);
    assert v[..|v|] == v;
  }

  lemma {:induction false} TotalPrefix(v: Word, w: nat, n: nat)
    requires w < |v| && n <= |v|
    requires forall p :: 0 <= p < |v| && p != w ==> v[p] == 0
    ensures Total(v[..n]) == if w < n then v[w] else 0
  {
    hide Add;
    if n > 0 {
      assert v[..n][..n - 1] == v[..n - 1];
      TotalPrefix(v, w, n - 1);
      AddLaws(v[w], 0, 0);
      AddLaws(0, 0, 0);
    }
  }

  /** The Vandermonde argument: t vanishing power sums over distinct locators force a
      word with at most t nonzero symbols to be zero. */
  lemma {:induction false} BalancedIsHeavy(v: Word, locators: Word, t: nat)
    requires |v| == |locators| && Balanced(v, locators, t)
    requires forall i, j :: 0 <= i < j < |v| ==> locators[i] != locators[j]
    requires Support(v) != {}
    ensures |Support(v)| > t
    decreases t
  {
    hide Add, Mul;
    if t > 0 {
      var w :| w in Support(v);
      var r := AddWords(Locate(v, locators), Scale(locators[w], v));
      BalancedDown(v, locators, t);
      BalancedLinear(locators[w], Locate(v, locators), v, locators, t - 1);
      Eliminated(v, locators, w);
      if Support(r) == {} {
        assert Support(v) <= {w};
        TotalOfSupport(v, w);
        assert false;
      } else {
        BalancedIsHeavy(r, locators, t - 1);
      }
    }
  }

  // ----- from roots to power sums -----

  /** Symbol p of a word of length n stands for the power n-1-p of the variable. */
  function Locators(n: nat): (r: Word)
    ensures |r| == n
  {
    seq(n, p requires 0 <= p < n => Power(n - 1 - p))
  }

  function Twist(w: Word, j: nat): (r: Word)
    ensures |r| == |w|
  {
    seq(|w|, p requires 0 <= p < |w| => Times(j * (|w| - 1 - p), w[p]))
  }

  lemma {:induction false} TotalTimes(k: nat, v: Word, r: Word)
    requires |v| == |r| && forall p :: 0 <= p < |v| ==> r[p] == Times(k, v[p])
    ensures Total(r) == Times(k, Total(v))
  {
    hide Times, Add;
    if |v| == 0 {
      TimesZero(k);
    } else {
      var n := |v| - 1;
      TotalTimes(k, v[..n], r[..n]);
      TimesLinear(k, Total(v[..n]), v[n]);
    }
  }

  lemma TwistPrefix(w: Word, j: nat, p: nat)
    requires p < |w|
    ensures p < |w| - 1 ==> Twist(w, j)[p] == Times(j, Twist(w[..|w| - 1], j)[p])
    ensures p == |w| - 1 ==> Twist(w, j)[p] == w[p]
  {
    hide Times;
    if p < |w| - 1 {
      var e := |w| - 2 - p;
      assert j * (|w| - 1 - p) == j + j * e;
      TimesAdd(j, j * e, w[p]);
    } else {
      assert j * (|w| - 1 - p) == 0;
      TimesNone(w[p]);
    }
  }

  lemma {:induction false} EvalIsTotal(w: Word, j: nat)
    ensures Eval(w, Power(j)) == Total(Twist(w, j))
  {
    hide Times, Add, Mul, Power, Twist;
    if |w| > 0 {
      var n := |w| - 1;
      EvalIsTotal(w[..n], j);
      MulPower(j, Eval(w[..n], Power(j)));
      forall p | 0 <= p <= n
        ensures p < n ==> Twist(w, j)[p] == Times(j, Twist(w[..n], j)[p])
        ensures p == n ==> Twist(w, j)[p] == w[p]
      {
        TwistPrefix(w, j, p);
      }
      TotalTimes(j, Twist(w[..n], j), Twist(w, j)[..n]);
    }
  }

  lemma TimesNone(x: bv8)
    ensures Times(0, x) == x
  {
  }

  lemma LocateTwist(w: Word, j: nat)
    ensures Locate(Twist(w, j), Locators(|w|)) == Twist(w, j + 1)
  {
    hide Times, Add, Mul, Power;
    forall p | 0 <= p < |w|
      ensures Mul(Power(|w| - 1 - p), Times(j * (|w| - 1 - p), w[p])) == Times((j + 1) * (|w| - 1 - p), w[p])
    {
      var e := |w| - 1 - p;
      MulPower(e, Times(j * e, w[p]));
      TimesAdd(e, j * e, w[p]);
      assert (j + 1) * e == e + j * e;
    }
  }

  lemma {:induction false} RootsBalance(w: Word, j: nat, n: nat)
    requires j <= n && Codeword(w, n)
    ensures Balanced(Twist(w, j), Locators(|w|), n - j)
    decreases n - j
  {
    hide Times, Add, Mul, Power;
    if j < n {
      assert Eval(w, Power(j)) == 0;
      EvalIsTotal(w, j);
      LocateTwist(w, j);
      RootsBalance(w, j + 1, n);
    }
  }

  /** A nonzero word of length at most 255 with n consecutive roots has more than n
      nonzero symbols. */
  lemma CodewordIsHeavy(w: Word, n: nat)
    requires |w| <= 255 && Codeword(w, n) && Support(w) != {}
    ensures |Support(w)| > n
  {
    hide Times, Add, Mul, Power;
    RootsBalance(w, 0, n);
    assert Twist(w, 0) == w by {
      forall p | 0 <= p < |w| ensures Twist(w, 0)[p] == w[p] {
        assert 0 * (|w| - 1 - p) == 0;
        TimesNone(w[p]);
      }
    }
    forall i, j | 0 <= i < j < |w| ensures Locators(|w|)[i] != Locators(|w|)[j] {
      if Locators(|w|)[i] == Locators(|w|)[j] {
        PowerInjective(|w| - 1 - i, |w| - 1 - j);
      }
    }
    BalancedIsHeavy(w, Locators(|w|), n);
  }

  /** No coefficient of a generator polynomial is zero, so its logarithms exist. */
  lemma GeneratorHasNoZero(n: nat, k: nat)
    requires n < 255 && k <= n
    ensures Generator(n)[k] != 0
  {
    hide Add, Mul, Power;
    var g := Generator(n);
    GeneratorVanishes(n);
    assert 0 in Support(g);
    CodewordIsHeavy(g, n);
    assert k in Support(g) by {
      if k !in Support(g) {
        SupportMisses(g, k);
      }
    }
  }

  lemma {:induction false} SupportSize(g: Word, n: nat)
    requires n <= |g|
    ensures |set p | 0 <= p < n && g[p] != 0| <= n
  {
    var s := set p | 0 <= p < n && g[p] != 0;
    if n == 0 {
      assert s == {};
    } else {
      SupportSize(g, n - 1);
      var s' := set p | 0 <= p < n - 1 && g[p] != 0;
      assert s <= s' + {n - 1};
      SubsetSize(s, s' + {n - 1});
    }
  }

  lemma SubsetSize<T>(a: set<T>, b: set<T>)
    requires a <= b
    ensures |a| <= |b|
  {
    assert b == a + (b - a);
  }

  lemma SupportWithin(g: Word)
    ensures |Support(g)| <= |g|
  {
    SupportSize(g, |g|);
  }

  lemma SupportMisses(g: Word, k: nat)
    requires k < |g| && k !in Support(g)
    ensures |Support(g)| < |g|
  {
    var h := g[k := 1];
    assert Support(h) == Support(g) + {k};
    SupportWithin(h);
  }

  // ----- distance between codewords -----

  ghost function Differences(u: Word, v: Word): set<int>
    requires |u| == |v|
  {
    set p | 0 <= p < |u| && u[p] != v[p]
  }

  lemma CodewordsSubtract(u: Word, v: Word, n: nat)
    requires |u| == |v| && Codeword(u, n) && Codeword(v, n)
    ensures Codeword(AddWords(u, v), n)
    ensures Support(AddWords(u, v)) == Differences(u, v)
  {
    hide Mul, Power, Add;
    forall j | 0 <= j < n ensures Eval(AddWords(u, v), Power(j)) == 0 {
      EvalAdd(u, v, Power(j));
      AddLaws(0, 0, 0);
    }
    forall p | 0 <= p < |u| ensures AddWords(u, v)[p] != 0 <==> u[p] != v[p] {
      AddLaws(u[p], v[p], 0);
    }
  }

  /** Two different codewords of the same length differ in more than n symbols. */
  lemma MinimumDistance(u: Word, v: Word, n: nat)
    requires |u| == |v| <= 255 && Codeword(u, n) && Codeword(v, n) && u != v
    ensures |Differences(u, v)| > n
  {
    hide Mul, Power, Add;
    CodewordsSubtract(u, v, n);
    var p :| 0 <= p < |u| && u[p] != v[p];
    assert p in Differences(u, v);
    CodewordIsHeavy(AddWords(u, v), n);
  }

  /** The check symbols are determined by the data: a codeword is systematic in one way. */
  lemma ChecksUnique(data: Word, e: Word, f: Word, n: nat)
    requires |e| == |f| == n && |data| + n <= 255
    requires Codeword(data + e, n) && Codeword(data + f, n)
    ensures e == f
  {
    hide Mul, Power, Add;
    var u, v := data + e, data + f;
    assert e == u[|data|..] && f == v[|data|..];
    TailDifferences(data, e, f);
    if u != v {
      MinimumDistance(u, v, n);
    }
  }

  lemma {:induction false} TailDifferences(data: Word, e: Word, f: Word)
    requires |e| == |f|
    ensures |Differences(data + e, data + f)| <= |e|
  {
    if |e| == 0 {
      assert Differences(data + e, data + f) == {};
    } else {
      var n := |e| - 1;
      TailDifferences(data, e[..n], f[..n]);
      var d, d' := Differences(data + e, data + f), Differences(data + e[..n], data + f[..n]);
      assert d <= d' + {|data| + n};
      SubsetSize(d, d' + {|data| + n});
    }
  }

  /** Correction radius: a received word within n/2 symbol errors of two codewords
      is close to only one. */
  lemma UniqueDecoding(received: Word, u: Word, v: Word, n: nat)
    requires |received| == |u| == |v| <= 255 && Codeword(u, n) && Codeword(v, n)
    requires 2 * |Differences(received, u)| <= n && 2 * |Differences(received, v)| <= n
    ensures u == v
  {
    hide Mul, Power, Add;
    var a, b := Differences(received, u), Differences(received, v);
    assert Differences(u, v) <= a + b;
    SubsetSize(Differences(u, v), a + b);
    assert |a + b| == |a| + |b| - |a * b|;
    if u != v {
      MinimumDistance(u, v, n);
    }
  }

  // ----- a known generator -----

  /** One more root. */
  lemma MoreRoots(n: nat, p: bv8, g: Word, h: Word)
    requires n > 0 && Generator(n - 1) == g && Power(n - 1) == p && |h| == |g| + 1
    requires h[0] == g[0] && h[|g|] == Mul(p, g[|g| - 1])
    requires forall i :: 1 <= i < |g| ==> h[i] == Add(g[i], Mul(p, g[i - 1]))
    ensures Generator(n) == h
  {
    MulZero(p);
    hide Mul, Power;
    forall i | 0 <= i < |h| ensures Generator(n)[i] == h[i] {
      AddLaws(if i < |g| then g[i] else 0, 0, 0);
      AddLaws(0, h[|g|], 0);
    }
  }

  /** The field: 2 to the eighth is the rest of its polynomial. */
  lemma SmallPowers()
    ensures Power(0) == 1 && Power(1) == 2 && Power(2) == 4 && Power(3) == 8 && Power(4) == 16 && Power(5) == 32 && Power(6) == 64
    ensures Power(7) == 128 && Power(8) == 0x1d
  {
  }

  lemma Products1()
    ensures Mul(1, 1) == 1
  {
  }

  lemma Products2()
    ensures Mul(2, 1) == 2
  {
  }

  lemma Products3()
    ensures Mul(4, 1) == 4 && Mul(4, 3) == 12 && Mul(4, 2) == 8
  {
  }

  lemma Products4()
    ensures Mul(8, 1) == 8 && Mul(8, 7) == 56 && Mul(8, 14) == 112 && Mul(8, 8) == 64
  {
  }

  lemma Products5()
    ensures Mul(16, 1) == 16 && Mul(16, 15) == 240 && Mul(16, 54) == 71 && Mul(16, 120) == 211 && Mul(16, 64) == 116
  {
  }

  lemma Products6()
    ensures Mul(32, 1) == 32 && Mul(32, 31) == 199 && Mul(32, 198) == 229 && Mul(32, 63) == 179 && Mul(32, 147) == 151 && Mul(32, 116) == 38
  {
  }

  lemma Products7()
    ensures Mul(64, 1) == 64 && Mul(64, 63) == 123 && Mul(64, 218) == 132 && Mul(64, 32) == 232 && Mul(64, 227) == 98 && Mul(64, 38) == 117
  {
  }

  lemma GeneratorOfOne()
    ensures Generator(1) == [1, 1]
  {
    SmallPowers();
    assert Generator(0) == [1];
    hide Generator, Power, Mul;
    Products1();
    MoreRoots(1, 1, [1], [1, 1]);
  }

  lemma GeneratorOfTwo()
    ensures Generator(2) == [1, 3, 2]
  {
    SmallPowers();
    GeneratorOfOne();
    hide Generator, Power, Mul;
    Products2();
    MoreRoots(2, 2, [1, 1], [1, 3, 2]);
  }

  lemma GeneratorOfThree()
    ensures Generator(3) == [1, 7, 14, 8]
  {
    SmallPowers();
    GeneratorOfTwo();
    hide Generator, Power, Mul;
    Products3();
    MoreRoots(3, 4, [1, 3, 2], [1, 7, 14, 8]);
  }

  lemma GeneratorOfFour()
    ensures Generator(4) == [1, 15, 54, 120, 64]
  {
    SmallPowers();
    GeneratorOfThree();
    hide Generator, Power, Mul;
    Products4();
    MoreRoots(4, 8, [1, 7, 14, 8], [1, 15, 54, 120, 64]);
  }

  lemma GeneratorOfFive()
    ensures Generator(5) == [1, 31, 198, 63, 147, 116]
  {
    SmallPowers();
    GeneratorOfFour();
    hide Generator, Power, Mul;
    Products5();
    MoreRoots(5, 16, [1, 15, 54, 120, 64], [1, 31, 198, 63, 147, 116]);
  }

  lemma GeneratorOfSix()
    ensures Generator(6) == [1, 63, 1, 218, 32, 227, 38]
  {
    SmallPowers();
    GeneratorOfFive();
    hide Generator, Power, Mul;
    Products6();
    MoreRoots(6, 32, [1, 31, 198, 63, 147, 116], [1, 63, 1, 218, 32, 227, 38]);
  }

  /** The generator polynomial for seven check symbols (annex A of ISO/IEC 18004), in powers of 2:
      x^7 + 2^87 x^6 + 2^229 x^5 + 2^146 x^4 + 2^149 x^3 + 2^238 x^2 + 2^102 x + 2^21. */
  lemma GeneratorOfSeven()
    ensures Generator(7) == [1, 127, 122, 154, 164, 11, 68, 117]
  {
    SmallPowers();
    GeneratorOfSix();
    hide Generator, Power, Mul;
    Products7();
    MoreRoots(7, 64, [1, 63, 1, 218, 32, 227, 38], [1, 127, 122, 154, 164, 11, 68, 117]);
  }
}
