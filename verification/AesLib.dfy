/** AES over a 4x4 array of bytes changed in place, and CBC (common/crypto/aeslib.c). The
    tables GFMul2, GFMul4 and GFMul8 are one, two and three doublings. */
module AesLib {
  import opened Gf256
  import opened Aes
  import opened AesModes
  import opened AesBoxes
  import opened AesStandard

  /** state_t: row i of the array is column i of the state. */
  ghost function StateOf(a: array2<bv8>): State
    requires a.Length0 == 4 && a.Length1 == 4
    reads a
  {
    State(Word(a[0, 0], a[0, 1], a[0, 2], a[0, 3]), Word(a[1, 0], a[1, 1], a[1, 2], a[1, 3]),
          Word(a[2, 0], a[2, 1], a[2, 2], a[2, 3]), Word(a[3, 0], a[3, 1], a[3, 2], a[3, 3]))
  }

  // ----- mixing with shared terms -----

  lemma MixShared(a: bv8, b: bv8, c: bv8, d: bv8)
    ensures Add(a, Add(Add(Add(a, d), Add(b, c)), Double(Add(a, b)))) == MixByte(a, b, c, d)
  {
    hide Add, Double;
    DoubleLinear(a, b);
    SharedTerms(a, b, c, d, Double(a), Double(b));
  }

  lemma SharedTerms(a: bv8, b: bv8, c: bv8, d: bv8, a2: bv8, b2: bv8)
    ensures Add(a, Add(Add(Add(a, d), Add(b, c)), Add(a2, b2))) == Sum(a2, Add(b2, b), c, d)
  {
    hide Add;
    var bc := Add(b, c);
    AddLaws(a, Add(Add(a, d), bc), Add(a2, b2));
    AddLaws(a, Add(a, d), bc);
    AddLaws(a, a, d);
    AddLaws(d, bc, Add(a2, b2));
    AddLaws(d, d, 0);
    assert Add(a, Add(Add(Add(a, d), bc), Add(a2, b2))) == Add(Add(d, bc), Add(a2, b2));
    AddLaws(d, b, c);
    AddSwap(Add(a2, b2), b, c, d);
    AddLaws(a2, b2, b);
    AddLaws(Add(d, bc), Add(a2, b2), 0);
    AddLaws(bc, d, 0);
    AddLaws(b, c, d);
    AddLaws(Add(a2, b2), b, Add(c, d));
  }

  lemma UnmixShared(a: bv8, b: bv8, c: bv8, d: bv8)
    ensures
      var s := Add(Add(a, d), Add(b, c));
      var p := Add(Add(s, Double(Double(Double(s)))), Double(Double(Add(a, c))));
      Add(a, Add(p, Double(Add(a, b)))) == InvMixByte(a, b, c, d)
  {
    hide Add, Double, Sum;
    var a1, b1, c1, d1 := Double(a), Double(b), Double(c), Double(d);
    var a2, b2, c2, d2 := Double(a1), Double(b1), Double(c1), Double(d1);
    var a3, b3, c3, d3 := Double(a2), Double(b2), Double(c2), Double(d2);
    NormalForms(a);
    NormalForms(b);
    NormalForms(c);
    NormalForms(d);
    DoubleFour(a, d, b, c);
    DoubleFour(a1, d1, b1, c1);
    DoubleFour(a2, d2, b2, c2);
    DoubleLinear(a, c);
    DoubleLinear(a1, c1);
    DoubleLinear(a, b);
    UnmixTerms(a, b, c, d, a1, b1, a2, c2, a3, b3, c3, d3);
  }

  lemma DoubleFour(a: bv8, b: bv8, c: bv8, d: bv8)
    ensures Double(Add(Add(a, b), Add(c, d))) == Add(Add(Double(a), Double(b)), Add(Double(c), Double(d)))
  {
    hide Add, Double;
    DoubleLinear(Add(a, b), Add(c, d));
    DoubleLinear(a, b);
    DoubleLinear(c, d);
  }

  lemma UnmixTerms(a: bv8, b: bv8, c: bv8, d: bv8, a1: bv8, b1: bv8, a2: bv8, c2: bv8, a3: bv8, b3: bv8, c3: bv8, d3: bv8)
    ensures Add(a, Add(Add(Add(Add(Add(a, d), Add(b, c)), Add(Add(a3, d3), Add(b3, c3))), Add(a2, c2)), Add(a1, b1))) ==
            Sum(Add(a3, Add(a2, a1)), Add(b3, Add(b1, b)), Add(c3, Add(c2, c)), Add(d3, d))
  {
    hide Add;
    var s, v := Add(Add(a, d), Add(b, c)), Add(b, Add(c, d));
    var s3, t2, u1 := Add(Add(a3, d3), Add(b3, c3)), Add(a2, c2), Add(a1, b1);
    CancelFirst(a, b, c, d);
    AddLaws(a, s, s3);
    AddLaws(a, Add(s, s3), t2);
    AddLaws(a, Add(Add(s, s3), t2), u1);
    AddLaws(Add(v, s3), t2, u1);
    Rotations(v, s3, t2, u1);
    ByDoublings(a, b, c, d, a1, b1, a2, c2, a3, b3, c3, d3);
  }

  lemma CancelFirst(a: bv8, b: bv8, c: bv8, d: bv8)
    ensures Add(a, Add(Add(a, d), Add(b, c))) == Add(b, Add(c, d))
  {
    hide Add;
    AddLaws(a, Add(a, d), Add(b, c));
    AddLaws(a, a, d);
    AddLaws(d, 0, 0);
    AddLaws(b, c, d);
    AddLaws(Add(b, c), d, 0);
  }

  /** The products by column of the matrix, or by power of two. */
  lemma ByDoublings(a: bv8, b: bv8, c: bv8, d: bv8, a1: bv8, b1: bv8, a2: bv8, c2: bv8, a3: bv8, b3: bv8, c3: bv8, d3: bv8)
    ensures Sum(Add(a3, Add(a2, a1)), Add(b3, Add(b1, b)), Add(c3, Add(c2, c)), Add(d3, d)) ==
            Sum(Add(Add(a3, d3), Add(b3, c3)), Add(a2, c2), Add(a1, b1), Add(b, Add(c, d)))
  {
    hide Add;
    Transpose(a3, a2, a1, 0, b3, 0, b1, b, c3, c2, 0, c, d3, 0, 0, d);
    AddLaws(a3, a2, a1); AddLaws(a1, 0, 0);
    AddLaws(b3, b1, b); AddLaws(b3, 0, 0);
    AddLaws(c3, c2, c); AddLaws(c, 0, 0);
    AddLaws(d3, d, 0); AddLaws(d, 0, 0);
    AddLaws(a2, c2, 0); AddLaws(c2, 0, 0);
    AddLaws(a1, b1, 0); AddLaws(Add(a1, b1), 0, 0); AddLaws(0, 0, 0);
    AddLaws(b, c, d); AddLaws(b, 0, 0);
    Rotations(a3, b3, c3, d3);
    Rotations(d3, a3, b3, c3);
    AddLaws(a3, d3, 0);
  }

  // ----- the state in place -----

  /** The round key at round r of the expanded key. */
  function KeyOf(w: seq<bv8>, r: nat): State
    requires 16 * r + 16 <= |w|
  {
    ToState(w[16 * r..16 * r + 16])
  }

  function KeysOf(w: seq<bv8>, nr: nat): (r: seq<State>)
    requires 16 * nr + 16 <= |w|
    ensures |r| == nr + 1
  {
    seq(nr + 1, r requires 0 <= r <= nr => KeyOf(w, r))
  }

  /** AddRoundKey */
  method AddRoundKey(state: array2<bv8>, key: seq<bv8>, round: nat)
    requires state.Length0 == 4 && state.Length1 == 4 && 16 * round + 16 <= |key|
    modifies state
    ensures StateOf(state) == XorS(old(StateOf(state)), KeyOf(key, round))
  {
    hide Add;
    var r, n := round * 16, 0;
    for i := 0 to 4
      invariant n == 4 * i
      invariant forall p: nat, q: nat {:trigger state[p, q]} :: p < 4 && q < 4 ==>
                  state[p, q] == if p < i then Add(old(state[p, q]), key[r + 4 * p + q]) else old(state[p, q])
    {
      for j := 0 to 4
        invariant n == 4 * i + j
        invariant forall p: nat, q: nat {:trigger state[p, q]} :: p < 4 && q < 4 ==>
                    state[p, q] == if p < i || (p == i && q < j) then Add(old(state[p, q]), key[r + 4 * p + q])
                                   else old(state[p, q])
      {
        state[i, j] := Add(state[i, j], key[r + n]);
        n := n + 1;
      }
    }
  }

  method SubRow0(state: array2<bv8>, box: Box)
    requires state.Length0 == 4 && state.Length1 == 4
    modifies state
    ensures state[0, 0] == At(box, old(state[0, 0]))
    ensures state[1, 0] == At(box, old(state[1, 0]))
    ensures state[2, 0] == At(box, old(state[2, 0]))
    ensures state[3, 0] == At(box, old(state[3, 0]))
    ensures forall p: nat, q: nat {:trigger state[p, q]} :: p < 4 && q < 4 && q != 0 ==> state[p, q] == old(state[p, q])
  {
    hide At;
    state[0, 0] := At(box, state[0, 0]);
    state[1, 0] := At(box, state[1, 0]);
    state[2, 0] := At(box, state[2, 0]);
    state[3, 0] := At(box, state[3, 0]);
  }

  method SubRow1(state: array2<bv8>, sbox: Box)
    requires state.Length0 == 4 && state.Length1 == 4
    modifies state
    ensures state[0, 1] == At(sbox, old(state[1, 1]))
    ensures state[1, 1] == At(sbox, old(state[2, 1]))
    ensures state[2, 1] == At(sbox, old(state[3, 1]))
    ensures state[3, 1] == At(sbox, old(state[0, 1]))
    ensures forall p: nat, q: nat {:trigger state[p, q]} :: p < 4 && q < 4 && q != 1 ==> state[p, q] == old(state[p, q])
  {
    hide At;
    var c := At(sbox, state[0, 1]);
    state[0, 1] := At(sbox, state[1, 1]);
    state[1, 1] := At(sbox, state[2, 1]);
    state[2, 1] := At(sbox, state[3, 1]);
    state[3, 1] := c;
  }

  method SubRow2(state: array2<bv8>, sbox: Box)
    requires state.Length0 == 4 && state.Length1 == 4
    modifies state
    ensures state[0, 2] == At(sbox, old(state[2, 2]))
    ensures state[1, 2] == At(sbox, old(state[3, 2]))
    ensures state[2, 2] == At(sbox, old(state[0, 2]))
    ensures state[3, 2] == At(sbox, old(state[1, 2]))
    ensures forall p: nat, q: nat {:trigger state[p, q]} :: p < 4 && q < 4 && q != 2 ==> state[p, q] == old(state[p, q])
  {
    hide At;
    var c := At(sbox, state[0, 2]);
    var c1 := At(sbox, state[1, 2]);
    state[0, 2] := At(sbox, state[2, 2]);
    state[1, 2] := At(sbox, state[3, 2]);
    state[2, 2] := c;
    state[3, 2] := c1;
  }

  method SubRow3(state: array2<bv8>, sbox: Box)
    requires state.Length0 == 4 && state.Length1 == 4
    modifies state
    ensures state[0, 3] == At(sbox, old(state[3, 3]))
    ensures state[1, 3] == At(sbox, old(state[0, 3]))
    ensures state[2, 3] == At(sbox, old(state[1, 3]))
    ensures state[3, 3] == At(sbox, old(state[2, 3]))
    ensures forall p: nat, q: nat {:trigger state[p, q]} :: p < 4 && q < 4 && q != 3 ==> state[p, q] == old(state[p, q])
  {
    hide At;
    var c := At(sbox, state[3, 3]);
    state[3, 3] := At(sbox, state[2, 3]);
    state[2, 3] := At(sbox, state[1, 3]);
    state[1, 3] := At(sbox, state[0, 3]);
    state[0, 3] := c;
  }

  /** SubShiftRows */
  method SubShiftRows(state: array2<bv8>, sbox: Box)
    requires state.Length0 == 4 && state.Length1 == 4
    modifies state
    ensures StateOf(state) == ShiftRows(SubS(sbox, old(StateOf(state))))
  {
    hide At;
    SubRow0(state, sbox);
    SubRow1(state, sbox);
    SubRow2(state, sbox);
    SubRow3(state, sbox);
  }

  method InvSubRow1(state: array2<bv8>, invSbox: Box)
    requires state.Length0 == 4 && state.Length1 == 4
    modifies state
    ensures state[0, 1] == At(invSbox, old(state[3, 1]))
    ensures state[1, 1] == At(invSbox, old(state[0, 1]))
    ensures state[2, 1] == At(invSbox, old(state[1, 1]))
    ensures state[3, 1] == At(invSbox, old(state[2, 1]))
    ensures forall p: nat, q: nat {:trigger state[p, q]} :: p < 4 && q < 4 && q != 1 ==> state[p, q] == old(state[p, q])
  {
    hide At;
    var c := At(invSbox, state[0, 1]);
    state[0, 1] := At(invSbox, state[3, 1]);
    state[3, 1] := At(invSbox, state[2, 1]);
    state[2, 1] := At(invSbox, state[1, 1]);
    state[1, 1] := c;
  }

  method InvSubRow2(state: array2<bv8>, invSbox: Box)
    requires state.Length0 == 4 && state.Length1 == 4
    modifies state
    ensures state[0, 2] == At(invSbox, old(state[2, 2]))
    ensures state[1, 2] == At(invSbox, old(state[3, 2]))
    ensures state[2, 2] == At(invSbox, old(state[0, 2]))
    ensures state[3, 2] == At(invSbox, old(state[1, 2]))
    ensures forall p: nat, q: nat {:trigger state[p, q]} :: p < 4 && q < 4 && q != 2 ==> state[p, q] == old(state[p, q])
  {
    hide At;
    var c := At(invSbox, state[1, 2]);
    var c1 := At(invSbox, state[0, 2]);
    state[0, 2] := At(invSbox, state[2, 2]);
    state[1, 2] := At(invSbox, state[3, 2]);
    state[2, 2] := c1;
    state[3, 2] := c;
  }

  method InvSubRow3(state: array2<bv8>, invSbox: Box)
    requires state.Length0 == 4 && state.Length1 == 4
    modifies state
    ensures state[0, 3] == At(invSbox, old(state[1, 3]))
    ensures state[1, 3] == At(invSbox, old(state[2, 3]))
    ensures state[2, 3] == At(invSbox, old(state[3, 3]))
    ensures state[3, 3] == At(invSbox, old(state[0, 3]))
    ensures forall p: nat, q: nat {:trigger state[p, q]} :: p < 4 && q < 4 && q != 3 ==> state[p, q] == old(state[p, q])
  {
    hide At;
    var c := At(invSbox, state[1, 3]);
    state[1, 3] := At(invSbox, state[2, 3]);
    state[2, 3] := At(invSbox, state[3, 3]);
    state[3, 3] := At(invSbox, state[0, 3]);
    state[0, 3] := c;
  }

  /** SubInvShiftRows */
  method SubInvShiftRows(state: array2<bv8>, invSbox: Box)
    requires state.Length0 == 4 && state.Length1 == 4
    modifies state
    ensures StateOf(state) == SubS(invSbox, InvShiftRows(old(StateOf(state))))
  {
    hide At;
    SubRow0(state, invSbox);
    InvSubRow1(state, invSbox);
    InvSubRow2(state, invSbox);
    InvSubRow3(state, invSbox);
  }

  /** One turn of the loop of MixColumns. */
  method MixRow(state: array2<bv8>, i: nat)
    requires state.Length0 == 4 && state.Length1 == 4 && i < 4
    modifies state
    ensures RowOf(state, i) == MixW(old(RowOf(state, i)))
    ensures forall k: nat :: k < 4 && k != i ==> RowOf(state, k) == old(RowOf(state, k))
  {
    hide Add, Double, MixByte;
    ghost var a, b, c, d := state[i, 0], state[i, 1], state[i, 2], state[i, 3];
    var ad := Add(state[i, 0], state[i, 3]);
    var bc := Add(state[i, 1], state[i, 2]);
    var abcd := Add(ad, bc);
    MixShared(a, b, c, d);
    MixShared(b, c, d, a);
    MixShared(c, d, a, b);
    MixShared(d, a, b, c);
    Shared(a, b, c, d);
    state[i, 0] := Add(state[i, 0], Add(abcd, Double(Add(state[i, 0], state[i, 1]))));
    state[i, 1] := Add(state[i, 1], Add(abcd, Double(bc)));
    state[i, 2] := Add(state[i, 2], Add(abcd, Double(Add(state[i, 2], state[i, 3]))));
    state[i, 3] := Add(state[i, 3], Add(abcd, Double(ad)));
  }

  /** The sum of a column does not depend on where one starts. */
  lemma Shared(a: bv8, b: bv8, c: bv8, d: bv8)
    ensures
      var s := Add(Add(a, d), Add(b, c));
      Add(Add(b, a), Add(c, d)) == s && Add(Add(c, b), Add(d, a)) == s && Add(Add(d, c), Add(a, b)) == s
    ensures Add(d, a) == Add(a, d) && Add(c, b) == Add(b, c) && Add(c, a) == Add(a, c) && Add(d, b) == Add(b, d)
  {
    hide Add;
    AddLaws(a, d, 0);
    AddLaws(b, c, 0);
    AddLaws(a, b, 0);
    AddLaws(c, d, 0);
    AddLaws(a, c, 0);
    AddLaws(b, d, 0);
    AddLaws(Add(a, d), Add(b, c), 0);
    AddLaws(Add(a, b), Add(c, d), 0);
    AddSwap(a, d, b, c);
    AddLaws(d, c, 0);
  }

  ghost function RowOf(a: array2<bv8>, i: nat): Word
    requires a.Length0 == 4 && a.Length1 == 4 && i < 4
    reads a
  {
    Word(a[i, 0], a[i, 1], a[i, 2], a[i, 3])
  }

  /** MixColumns */
  method MixColumns(state: array2<bv8>)
    requires state.Length0 == 4 && state.Length1 == 4
    modifies state
    ensures StateOf(state) == MixS(old(StateOf(state)))
  {
    hide MixW;
    for i := 0 to 4
      invariant forall k: nat {:trigger RowOf(state, k)} :: k < 4 ==>
                  RowOf(state, k) == if k < i then MixW(old(RowOf(state, k))) else old(RowOf(state, k))
    {
      MixRow(state, i);
    }
    Rows(state);
    assert RowOf(state, 0) == MixW(old(RowOf(state, 0))) && RowOf(state, 1) == MixW(old(RowOf(state, 1)));
    assert RowOf(state, 2) == MixW(old(RowOf(state, 2))) && RowOf(state, 3) == MixW(old(RowOf(state, 3)));
  }

  lemma Rows(a: array2<bv8>)
    requires a.Length0 == 4 && a.Length1 == 4
    ensures StateOf(a) == State(RowOf(a, 0), RowOf(a, 1), RowOf(a, 2), RowOf(a, 3))
  {
  }

  /** One turn of the loop of InvMixColumns. */
  method UnmixRow(state: array2<bv8>, i: nat)
    requires state.Length0 == 4 && state.Length1 == 4 && i < 4
    modifies state
    ensures RowOf(state, i) == InvMixW(old(RowOf(state, i)))
    ensures forall k: nat :: k < 4 && k != i ==> RowOf(state, k) == old(RowOf(state, k))
  {
    hide Add, Double, InvMixByte;
    ghost var a, b, c, d := state[i, 0], state[i, 1], state[i, 2], state[i, 3];
    var ad := Add(state[i, 0], state[i, 3]);
    var bc := Add(state[i, 1], state[i, 2]);
    var q := Add(ad, bc);
    q := Add(q, Double(Double(Double(q))));
    var p := Add(q, Double(Double(Add(state[i, 0], state[i, 2]))));
    q := Add(q, Double(Double(Add(state[i, 1], state[i, 3]))));
    UnmixShared(a, b, c, d);
    UnmixShared(b, c, d, a);
    UnmixShared(c, d, a, b);
    UnmixShared(d, a, b, c);
    Shared(a, b, c, d);
    state[i, 0] := Add(state[i, 0], Add(p, Double(Add(state[i, 0], state[i, 1]))));
    state[i, 1] := Add(state[i, 1], Add(q, Double(bc)));
    state[i, 2] := Add(state[i, 2], Add(p, Double(Add(state[i, 2], state[i, 3]))));
    state[i, 3] := Add(state[i, 3], Add(q, Double(ad)));
  }

  /** InvMixColumns */
  method InvMixColumns(state: array2<bv8>)
    requires state.Length0 == 4 && state.Length1 == 4
    modifies state
    ensures StateOf(state) == InvMixS(old(StateOf(state)))
  {
    hide InvMixW;
    for i := 0 to 4
      invariant forall k: nat {:trigger RowOf(state, k)} :: k < 4 ==>
                  RowOf(state, k) == if k < i then InvMixW(old(RowOf(state, k))) else old(RowOf(state, k))
    {
      UnmixRow(state, i);
    }
    Rows(state);
    assert RowOf(state, 0) == InvMixW(old(RowOf(state, 0))) && RowOf(state, 1) == InvMixW(old(RowOf(state, 1)));
    assert RowOf(state, 2) == InvMixW(old(RowOf(state, 2))) && RowOf(state, 3) == InvMixW(old(RowOf(state, 3)));
  }

  // ----- blocks -----

  /** for i, j: state[i][j] = in[n++] */
  method Load(data: array<bv8>, at: nat) returns (state: array2<bv8>)
    requires at + 16 <= data.Length
    ensures fresh(state) && state.Length0 == 4 && state.Length1 == 4 && StateOf(state) == ToState(data[at..at + 16])
  {
    state := new bv8[4, 4];
    var n := 0;
    for i := 0 to 4
      invariant n == 4 * i
      invariant forall p: nat, q: nat {:trigger state[p, q]} :: p < i && q < 4 ==> state[p, q] == data[at + 4 * p + q]
    {
      for j := 0 to 4
        invariant n == 4 * i + j
        invariant forall p: nat, q: nat {:trigger state[p, q]} :: q < 4 && (p < i || (p == i && q < j)) ==>
                    state[p, q] == data[at + 4 * p + q]
      {
        state[i, j] := data[at + n];
        n := n + 1;
      }
    }
    assert data[at..at + 16][0] == data[at] && data[at..at + 16][15] == data[at + 15];
  }

  /** The 16 bytes of the state in memory order. */
  ghost function Cells(a: array2<bv8>): seq<bv8>
    requires a.Length0 == 4 && a.Length1 == 4
    reads a
  {
    seq(16, k requires 0 <= k < 16 reads a => a[k / 4, k % 4])
  }

  /** for i, j: out[n++] = state[i][j] */
  method Store(state: array2<bv8>, data: array<bv8>, at: nat)
    requires at + 16 <= data.Length && state.Length0 == 4 && state.Length1 == 4
    modifies data
    ensures data[at..at + 16] == FromState(StateOf(state))
    ensures data[..at] == old(data[..at]) && data[at + 16..] == old(data[at + 16..])
  {
    var n := 0;
    for i := 0 to 4
      invariant n == 4 * i
      invariant data[..at] == old(data[..at]) && data[at + 16..] == old(data[at + 16..])
      invariant forall k :: 0 <= k < n ==> data[at + k] == state[k / 4, k % 4]
    {
      for j := 0 to 4
        invariant n == 4 * i + j
        invariant data[..at] == old(data[..at]) && data[at + 16..] == old(data[at + 16..])
        invariant forall k :: 0 <= k < n ==> data[at + k] == state[k / 4, k % 4]
      {
        data[at + n] := state[i, j];
        n := n + 1;
      }
    }
    StateBytes(state);
    assert data[at..at + 16] == Cells(state);
  }

  lemma StateBytes(a: array2<bv8>)
    requires a.Length0 == 4 && a.Length1 == 4
    ensures FromState(StateOf(a)) == Cells(a)
  {
  }

  /** encryptBlock with out == in. */
  method EncryptBlockInPlace(data: array<bv8>, at: nat, w: seq<bv8>, nr: nat, sbox: Box)
    requires at + 16 <= data.Length && 16 * nr + 16 <= |w| && nr >= 1
    modifies data
    ensures data[at..at + 16] == EncryptBlock(sbox, KeysOf(w, nr), old(data[at..at + 16]))
    ensures data[..at] == old(data[..at]) && data[at + 16..] == old(data[at + 16..])
  {
    hide XorS, MixS, SubS, ShiftRows, ToState, FromState, KeyOf, StateOf;
    var state := Load(data, at);
    ghost var s := StateOf(state);
    AddRoundKey(state, w, 0);
    for round := 1 to nr
      invariant StateOf(state) == Rounds(sbox, KeysOf(w, nr), s, round - 1)
      modifies state
    {
      SubShiftRows(state, sbox);
      MixColumns(state);
      AddRoundKey(state, w, round);
    }
    SubShiftRows(state, sbox);
    AddRoundKey(state, w, nr);
    Store(state, data, at);
  }

  /** decryptBlock with out == in. */
  method DecryptBlockInPlace(data: array<bv8>, at: nat, w: seq<bv8>, nr: nat, invSbox: Box)
    requires at + 16 <= data.Length && 16 * nr + 16 <= |w| && nr >= 1
    modifies data
    ensures data[at..at + 16] == DecryptBlock(invSbox, KeysOf(w, nr), old(data[at..at + 16]))
    ensures data[..at] == old(data[..at]) && data[at + 16..] == old(data[at + 16..])
  {
    hide XorS, InvMixS, SubS, InvShiftRows, ToState, FromState, KeyOf, StateOf;
    var state := Load(data, at);
    ghost var s := StateOf(state);
    AddRoundKey(state, w, nr);
    var round := nr - 1;
    while round > 0
      invariant 0 <= round < nr
      invariant StateOf(state) == if round == nr - 1 then XorS(s, KeyOf(w, nr))
                                  else InvMixS(XorS(InvRounds(invSbox, KeysOf(w, nr), s, round + 2), KeyOf(w, round + 1)))
      modifies state
    {
      SubInvShiftRows(state, invSbox);
      AddRoundKey(state, w, round);
      InvMixColumns(state);
      round := round - 1;
    }
    SubInvShiftRows(state, invSbox);
    AddRoundKey(state, w, 0);
    Store(state, data, at);
  }

  // ----- the key schedule -----

  /** The first bytes of the table Rcon, of 255; no later one is read. */
  const RCON: seq<bv8> := [0x8d, 0x01, 0x02, 0x04, 0x08, 0x10, 0x20, 0x40, 0x80, 0x1b, 0x36]

  lemma ConstantAt(klen: nat, i: nat)
    requires (klen == 4 || klen == 6 || klen == 8) && klen <= i < 4 * (klen + 7)
    ensures 1 <= i / klen < |RCON| && RCON[i / klen] == Rcon(i / klen)
  {
    ConstantsInRange(klen, i);
    RoundConstants();
    hide Rcon;
  }

  /** KeyExpansion, for a key of klen words. */
  method KeyExpansion(key: seq<bv8>, w: array<bv8>, klen: nat, sbox: Box)
    requires klen == 4 || klen == 6 || klen == 8
    requires |key| == 4 * klen && 16 * (klen + 7) <= w.Length
    modifies w
    ensures |WordsOf(key)| == klen && KeysOf(w[..], klen + 6) == KeySchedule(sbox, WordsOf(key))
  {
    hide KeyWord, XorW, SubW, Rcon, RCON;
    ghost var k := WordsOf(key);
    var r := 4 * (klen + 7);
    for j := 0 to klen
      invariant forall n: nat {:trigger KeyWord(sbox, k, n)} :: n < j ==> WordAt(w[..], 4 * n) == KeyWord(sbox, k, n)
    {
      PutWord(w, j, WordAt(key, 4 * j));
      GivenWord(sbox, k, j);
    }
    var i := klen;
    while i < r
      invariant klen <= i <= r
      invariant forall n: nat {:trigger KeyWord(sbox, k, n)} :: n < i ==> WordAt(w[..], 4 * n) == KeyWord(sbox, k, n)
    {
      var temp := WordAt(w[..], 4 * (i - 1));
      ghost var last := temp;
      if i % klen == 0 {
        // RotWord, SubWord
        var c := temp.b0;
        temp := Word(temp.b1, temp.b2, temp.b3, c);
        temp := SubW(sbox, temp);
        ConstantAt(klen, i);
        temp := XorW(temp, Word(RCON[i / klen], 0, 0, 0));
      } else if klen > 6 && i % klen == 4 {
        temp := SubW(sbox, temp);
      }
      assert last == KeyWord(sbox, k, i - 1) && WordAt(w[..], 4 * (i - klen)) == KeyWord(sbox, k, i - klen);
      NextKeyWord(sbox, k, i);
      PutWord(w, i, XorW(WordAt(w[..], 4 * (i - klen)), temp));
      i := i + 1;
    }
    Schedule(sbox, k, w[..], klen + 6);
  }

  lemma GivenWord(sbox: Box, key: seq<Word>, j: nat)
    requires j < |key|
    ensures KeyWord(sbox, key, j) == key[j]
  {
  }

  lemma NextKeyWord(sbox: Box, key: seq<Word>, i: nat)
    requires 0 < |key| <= i
    ensures KeyWord(sbox, key, i) ==
              XorW(KeyWord(sbox, key, i - |key|), KeyTemp(sbox, |key|, i, KeyWord(sbox, key, i - 1)))
  {
    hide KeyTemp, XorW;
  }

  /** Four bytes of the expanded key. */
  method PutWord(w: array<bv8>, i: nat, x: Word)
    requires 4 * i + 4 <= w.Length
    modifies w
    ensures WordAt(w[..], 4 * i) == x
    ensures forall n: nat {:trigger WordAt(w[..], 4 * n)} :: n != i && 4 * n + 4 <= w.Length ==> WordAt(w[..], 4 * n) == old(WordAt(w[..], 4 * n))
  {
    w[4 * i] := x.b0;
    w[4 * i + 1] := x.b1;
    w[4 * i + 2] := x.b2;
    w[4 * i + 3] := x.b3;
  }

  lemma Schedule(sbox: Box, key: seq<Word>, w: seq<bv8>, nr: nat)
    requires |key| > 0 && nr == |key| + 6 && 16 * nr + 16 <= |w|
    requires forall n: nat {:trigger KeyWord(sbox, key, n)} :: n < 4 * (nr + 1) ==> WordAt(w, 4 * n) == KeyWord(sbox, key, n)
    ensures KeysOf(w, nr) == KeySchedule(sbox, key)
  {
    hide KeyWord, KeyOf, WordAt;
    forall r | 0 <= r <= nr ensures KeyOf(w, r) == RoundKey(sbox, key, r) {
      KeyWords(w, r);
      assert WordAt(w, 4 * (4 * r)) == KeyWord(sbox, key, 4 * r);
      assert WordAt(w, 4 * (4 * r + 1)) == KeyWord(sbox, key, 4 * r + 1);
      assert WordAt(w, 4 * (4 * r + 2)) == KeyWord(sbox, key, 4 * r + 2);
      assert WordAt(w, 4 * (4 * r + 3)) == KeyWord(sbox, key, 4 * r + 3);
    }
  }

  lemma KeyWords(w: seq<bv8>, r: nat)
    requires 16 * r + 16 <= |w|
    ensures KeyOf(w, r) == State(WordAt(w, 4 * (4 * r)), WordAt(w, 4 * (4 * r + 1)), WordAt(w, 4 * (4 * r + 2)), WordAt(w, 4 * (4 * r + 3)))
  {
  }

  // ----- CBC in place -----

  /** memcpy(k, key, min(klen, 32)) over zeros. */
  function PadKey(key: seq<bv8>, klen: nat): (r: seq<bv8>)
    requires klen <= |key| || 32 <= |key|
    ensures |r| == 32
  {
    seq(32, i requires 0 <= i < 32 => if i < klen then key[i] else 0)
  }

  function KeysFor(sbox: Box, key: seq<bv8>, klen: nat): seq<State>
    requires klen <= |key| || 32 <= |key|
  {
    KeySchedule(sbox, WordsOf(PadKey(key, klen)))
  }

  method XorAt(data: array<bv8>, at: nat, b: Block)
    requires at + 16 <= data.Length
    modifies data
    ensures data[at..at + 16] == XorBlock(old(data[at..at + 16]), b)
    ensures data[..at] == old(data[..at]) && data[at + 16..] == old(data[at + 16..])
  {
    hide Add;
    for n := 0 to 16
      invariant data[..at] == old(data[..at]) && data[at + 16..] == old(data[at + 16..])
      invariant forall k :: at <= k < at + 16 ==> data[k] == if k < at + n then Add(old(data[k]), b[k - at]) else old(data[k])
    {
      data[at + n] := Add(data[at + n], b[n]);
    }
  }

  /** Where a buffer is as it was from i on, so is its block at i and what lies behind it. */
  lemma TailAt(now: seq<bv8>, was: seq<bv8>, i: nat, len: nat)
    requires i + 16 <= len <= |now| == |was| && now[i..] == was[i..]
    ensures now[i..i + 16] == was[..len][i..i + 16] && now[i + 16..] == was[i + 16..]
  {
    assert now[i..i + 16] == now[i..][..16] && was[..len][i..i + 16] == was[i..][..16];
    assert now[i + 16..] == now[i..][16..] && was[i + 16..] == was[i..][16..];
  }

  /** encryptCBC */
  method EncryptCbc(input: array<bv8>, len: nat, key: seq<bv8>, klen: nat, iv: Block, sbox: Box) returns (ret: int)
    requires len % 16 == 0 && len <= input.Length && (klen <= |key| || 32 <= |key|)
    modifies input
    ensures ret == 1
    ensures input[..len] == CbcEncrypt(sbox, KeysFor(sbox, key, klen), iv, old(input[..len]))
    ensures input[len..] == old(input[len..])
  {
    hide Encrypting, EncryptBlock, CbcEncrypt, XorBlock, KeySchedule, WordsOf, KeysOf, PadKey, Chain;
    var w := new bv8[480];
    var piv: Block := iv;
    KeyExpansion(PadKey(key, klen), w, 8, sbox);
    ghost var keys, was, data := KeysFor(sbox, key, klen), input[..], input[..len];
    assert data == was[..len];
    EncryptBegins(sbox, keys, iv, data);
    var i := 0;
    while i < len
      invariant i <= len && i % 16 == 0 && KeysOf(w[..], 14) == keys
      invariant Encrypting(sbox, keys, iv, data, i, piv, input[..i])
      invariant input[i..] == was[i..]
      modifies input
    {
      ghost var before, tail := input[..i], input[i + 16..];
      TailAt(input[..], was, i, len);
      assert input[i..i + 16] == input[..][i..i + 16];
      EncryptAdvances(sbox, keys, iv, data, i, piv, before);
      XorAt(input, i, piv);
      EncryptBlockInPlace(input, i, w[..], 14, sbox);
      piv := input[i..i + 16];
      assert input[..i + 16] == before + piv;
      i := i + 16;
    }
    EncryptEnds(sbox, keys, iv, data, piv, input[..i]);
    ret := 1;
  }

  /** decryptCBC */
  method DecryptCbc(input: array<bv8>, len: nat, key: seq<bv8>, klen: nat, iv: Block, sbox: Box, invSbox: Box) returns (ret: int)
    requires len % 16 == 0 && len <= input.Length && (klen <= |key| || 32 <= |key|)
    modifies input
    ensures ret == 1
    ensures input[..len] == CbcDecrypt(invSbox, KeysFor(sbox, key, klen), iv, old(input[..len]))
    ensures input[len..] == old(input[len..])
  {
    hide Decrypting, DecryptBlock, CbcDecrypt, XorBlock, KeySchedule, WordsOf, KeysOf, PadKey, Chain;
    var w := new bv8[480];
    var piv: Block := iv;
    KeyExpansion(PadKey(key, klen), w, 8, sbox);
    ghost var keys, was, data := KeysFor(sbox, key, klen), input[..], input[..len];
    assert data == was[..len];
    DecryptBegins(invSbox, keys, iv, data);
    var i := 0;
    while i < len
      invariant i <= len && i % 16 == 0 && KeysOf(w[..], 14) == keys
      invariant Decrypting(invSbox, keys, iv, data, i, piv, input[..i])
      invariant input[i..] == was[i..]
      modifies input
    {
      ghost var before, tail := input[..i], input[i + 16..];
      TailAt(input[..], was, i, len);
      assert input[i..i + 16] == input[..][i..i + 16];
      DecryptAdvances(invSbox, keys, iv, data, i, piv, before);
      var tpiv: Block := input[i..i + 16];
      DecryptBlockInPlace(input, i, w[..], 14, invSbox);
      XorAt(input, i, piv);
      assert input[..i + 16] == before + input[i..i + 16];
      piv := tpiv;
      i := i + 16;
    }
    DecryptEnds(invSbox, keys, iv, data, piv, input[..i]);
    ret := 1;
  }

  /** With the tables of the source, decryptCBC undoes encryptCBC for every key, initialization
      vector and length. */
  lemma CbcRoundTrip(key: seq<bv8>, klen: nat, iv: Block, data: seq<bv8>)
    requires (klen <= |key| || 32 <= |key|) && |data| % 16 == 0
    ensures
      var keys := KeysFor(SBOX, key, klen);
      CbcDecrypt(INV_SBOX, keys, iv, CbcEncrypt(SBOX, keys, iv, data)) == data
  {
    hide Inverse, CbcEncrypt, CbcDecrypt, KeySchedule, SBOX, INV_SBOX;
    TablesInverse();
    CbcUndone(SBOX, INV_SBOX, KeysFor(SBOX, key, klen), iv, data);
  }
}
