/** Reed-Solomon blocks and their interleaving: RSblock_init and QRraw_getCode
    (qrcode/qrencode.c:72-104, 157-178). */
module QrRaw {
  import opened Products
  import opened RsCode
  import opened Rsecc

  /** The block structure of a symbol: b1 blocks of d data codewords, then b2 blocks of
      d + 1, each with e error correction codewords. */
  datatype Spec = Spec(b1: nat, d: nat, e: nat, b2: nat) {
    function Blocks(): nat { b1 + b2 }

    /** QRspec_rsDataLength */
    function DataLength(): nat { Times(b1, d) + Times(b2, d + 1) }

    /** QRspec_rsEccLength */
    function EccLength(): nat { Times(Blocks(), e) }

    predicate Valid() {
      b1 >= 1 && d >= 1 && MIN_LENGTH <= e <= MAX_LENGTH
    }

    function BlockLength(i: nat): nat {
      if i < b1 then d else d + 1
    }

    /** Where the data of block i begins. */
    function DataStart(i: nat): nat {
      if i <= b1 then Times(i, d) else Times(b1, d) + Times(i - b1, d + 1)
    }
  }

  lemma Starts(s: Spec, i: nat)
    requires i < s.Blocks()
    ensures s.DataStart(i + 1) == s.DataStart(i) + s.BlockLength(i)
    ensures s.DataStart(i + 1) <= s.DataLength()
    ensures Times(i, s.e) + s.e == Times(i + 1, s.e) <= s.EccLength()
    ensures s.DataStart(s.Blocks()) == s.DataLength()
  {
    Monotone(i + 1, s.Blocks(), s.e);
    if i < s.b1 {
      Monotone(i + 1, s.b1, s.d);
    } else {
      Monotone(i + 1 - s.b1, s.b2, s.d + 1);
    }
  }

  // ----- the order of the codewords in the symbol -----

  /** Codeword number col of each block that has one, block by block. */
  function Column(blocks: seq<seq<bv8>>, col: nat): seq<bv8> {
    if |blocks| == 0 then []
    else
      var n := |blocks| - 1;
      Column(blocks[..n], col) + if col < |blocks[n]| then [blocks[n][col]] else []
  }

  /** Section 6.6 of ISO/IEC 18004: the first codewords of all blocks, then the second ones,
      and so on. */
  function Interleaved(blocks: seq<seq<bv8>>, columns: nat): seq<bv8> {
    if columns == 0 then [] else Interleaved(blocks, columns - 1) + Column(blocks, columns - 1)
  }

  /** The first b1 blocks have d codewords, the others one more. */
  predicate Shaped(blocks: seq<seq<bv8>>, b1: nat, d: nat) {
    && b1 <= |blocks|
    && (forall i :: 0 <= i < b1 ==> |blocks[i]| == d)
    && (forall i :: b1 <= i < |blocks| ==> |blocks[i]| == d + 1)
  }

  lemma {:induction false} FullColumn(blocks: seq<seq<bv8>>, b1: nat, d: nat, col: nat)
    requires Shaped(blocks, b1, d) && col < d
    ensures |Column(blocks, col)| == |blocks|
    ensures forall i :: 0 <= i < |blocks| ==> Column(blocks, col)[i] == blocks[i][col]
    decreases |blocks|
  {
    if |blocks| > 0 {
      var n := |blocks| - 1;
      FullColumn(blocks[..n], if b1 <= n then b1 else n, d, col);
    }
  }

  lemma {:induction false} LastColumn(blocks: seq<seq<bv8>>, b1: nat, d: nat)
    requires Shaped(blocks, b1, d)
    ensures |Column(blocks, d)| == |blocks| - b1
    ensures forall i :: b1 <= i < |blocks| ==> Column(blocks, d)[i - b1] == blocks[i][d]
    decreases |blocks|
  {
    if |blocks| > 0 {
      var n := |blocks| - 1;
      LastColumn(blocks[..n], if b1 <= n then b1 else n, d);
    }
  }

  /** Where codeword col of block row stands in the interleaved order. */
  function Position(n: nat, b1: nat, d: nat, row: nat, col: nat): int {
    if col < d then Times(col, n) + row else Times(d, n) + row - b1
  }

  lemma {:induction false} InterleavedAt(blocks: seq<seq<bv8>>, b1: nat, d: nat, columns: nat, row: nat, col: nat)
    requires Shaped(blocks, b1, d) && columns <= d + 1
    requires row < |blocks| && col < |blocks[row]| && col < columns
    ensures |Interleaved(blocks, columns)| == if columns <= d then Times(columns, |blocks|) else Times(d, |blocks|) + |blocks| - b1
    ensures
      var p := Position(|blocks|, b1, d, row, col);
      0 <= p < |Interleaved(blocks, columns)| && Interleaved(blocks, columns)[p] == blocks[row][col]
    decreases columns
  {
    hide Column, Interleaved;
    InterleavedLength(blocks, b1, d, columns);
    InterleavedLength(blocks, b1, d, columns - 1);
    InterleavedStep(blocks, columns);
    if col == columns - 1 {
      if col < d {
        FullColumn(blocks, b1, d, col);
      } else {
        LastColumn(blocks, b1, d);
      }
    } else {
      InterleavedAt(blocks, b1, d, columns - 1, row, col);
    }
  }

  lemma InterleavedStep(blocks: seq<seq<bv8>>, columns: nat)
    requires columns > 0
    ensures Interleaved(blocks, columns) == Interleaved(blocks, columns - 1) + Column(blocks, columns - 1)
  {
  }

  lemma {:induction false} InterleavedLength(blocks: seq<seq<bv8>>, b1: nat, d: nat, columns: nat)
    requires Shaped(blocks, b1, d) && columns <= d + 1
    ensures |Interleaved(blocks, columns)| == if columns <= d then Times(columns, |blocks|) else Times(d, |blocks|) + |blocks| - b1
    decreases columns
  {
    hide Column, Shaped;
    if columns > 0 {
      InterleavedLength(blocks, b1, d, columns - 1);
      if columns - 1 < d {
        FullColumn(blocks, b1, d, columns - 1);
      } else {
        LastColumn(blocks, b1, d);
      }
    }
  }

  /** The quotient and remainder the source computes name the codeword whose turn it is. */
  lemma TurnOf(n: nat, b1: nat, d: nat, count: nat, row: nat, col: nat)
    requires 1 <= b1 <= n && count < Times(d, n) + n - b1 && row < n && count == Times(col, n) + row
    ensures if col >= d then col == d && row + b1 < n && Position(n, b1, d, row + b1, col) == count
            else Position(n, b1, d, row, col) == count
  {
    if col >= d + 1 {
      Monotone(d + 1, col, n);
    }
    if col >= d {
      Monotone(d, col, n);
    }
  }

  // ----- the blocks of a code -----

  function Slice(code: seq<bv8>, at: nat, length: nat): seq<bv8> {
    if at + length <= |code| then code[at..at + length] else []
  }

  function DataBlock(s: Spec, data: seq<bv8>, i: nat): seq<bv8> {
    Slice(data, s.DataStart(i), s.BlockLength(i))
  }

  function EccBlock(s: Spec, ecc: seq<bv8>, i: nat): seq<bv8> {
    Slice(ecc, Times(i, s.e), s.e)
  }

  function DataBlocks(s: Spec, data: seq<bv8>): seq<seq<bv8>> {
    seq(s.Blocks(), i requires i >= 0 => DataBlock(s, data, i))
  }

  function EccBlocks(s: Spec, ecc: seq<bv8>): seq<seq<bv8>> {
    seq(s.Blocks(), i requires i >= 0 => EccBlock(s, ecc, i))
  }

  lemma BlocksShaped(s: Spec, data: seq<bv8>, ecc: seq<bv8>)
    requires |data| == s.DataLength() && |ecc| == s.EccLength()
    ensures Shaped(DataBlocks(s, data), s.b1, s.d) && Shaped(EccBlocks(s, ecc), s.Blocks(), s.e)
  {
    forall i | 0 <= i < s.Blocks()
      ensures |DataBlock(s, data, i)| == s.BlockLength(i) && |EccBlock(s, ecc, i)| == s.e
    {
      Starts(s, i);
    }
  }

  /** Writing block n leaves the earlier ones alone. */
  lemma EccKept(s: Spec, a: seq<bv8>, b: seq<bv8>, n: nat)
    requires |a| == |b| == s.EccLength() && n < s.Blocks()
    requires forall k {:trigger b[k]} :: 0 <= k < Times(n, s.e) && k < |a| ==> b[k] == a[k]
    ensures forall i {:trigger EccBlock(s, b, i)} :: 0 <= i < n ==> EccBlock(s, b, i) == EccBlock(s, a, i)
  {
    forall i {:trigger EccBlock(s, b, i)} | 0 <= i < n ensures EccBlock(s, b, i) == EccBlock(s, a, i) {
      Starts(s, i);
      Monotone(i + 1, n, s.e);
    }
  }

  /** The codewords of a symbol in the order of section 6.6: data, then error correction. */
  function Stream(s: Spec, data: seq<bv8>, ecc: seq<bv8>): seq<bv8> {
    Interleaved(DataBlocks(s, data), s.d + 1) + Interleaved(EccBlocks(s, ecc), s.e)
  }

  lemma DataLengths(s: Spec, data: seq<bv8>, ecc: seq<bv8>)
    requires |data| == s.DataLength() && |ecc| == s.EccLength()
    ensures |Interleaved(DataBlocks(s, data), s.d + 1)| == s.DataLength()
  {
    BlocksShaped(s, data, ecc);
    InterleavedLength(DataBlocks(s, data), s.b1, s.d, s.d + 1);
    Distribute(s.b1, s.b2, s.d);
    hide Interleaved, Times, Shaped;
  }

  lemma EccLengths(s: Spec, data: seq<bv8>, ecc: seq<bv8>)
    requires |data| == s.DataLength() && |ecc| == s.EccLength()
    ensures |Interleaved(EccBlocks(s, ecc), s.e)| == s.EccLength()
  {
    BlocksShaped(s, data, ecc);
    InterleavedLength(EccBlocks(s, ecc), s.Blocks(), s.e, s.e);
    Distribute(s.Blocks(), 0, s.e);
    hide Interleaved, Times, Shaped;
  }

  lemma StreamLength(s: Spec, data: seq<bv8>, ecc: seq<bv8>)
    requires |data| == s.DataLength() && |ecc| == s.EccLength()
    ensures |Interleaved(DataBlocks(s, data), s.d + 1)| == s.DataLength()
    ensures |Stream(s, data, ecc)| == s.DataLength() + s.EccLength()
  {
    hide Interleaved, Times, Shaped;
    DataLengths(s, data, ecc);
    EccLengths(s, data, ecc);
  }

  /** De-interleaving: every codeword of every block is found at its position. */
  lemma Deinterleave(s: Spec, data: seq<bv8>, ecc: seq<bv8>, row: nat)
    requires |data| == s.DataLength() && |ecc| == s.EccLength() && row < s.Blocks()
    ensures |Stream(s, data, ecc)| == s.DataLength() + s.EccLength()
    ensures |DataBlock(s, data, row)| == s.BlockLength(row) && |EccBlock(s, ecc, row)| == s.e
    ensures forall col: nat {:trigger DataBlock(s, data, row)[col]} :: col < s.BlockLength(row) ==>
              var p := Position(s.Blocks(), s.b1, s.d, row, col);
              0 <= p < s.DataLength() && Stream(s, data, ecc)[p] == DataBlock(s, data, row)[col]
    ensures forall col: nat {:trigger EccBlock(s, ecc, row)[col]} :: col < s.e ==>
              var p := Times(col, s.Blocks()) + row;
              p < s.EccLength() && Stream(s, data, ecc)[s.DataLength() + p] == EccBlock(s, ecc, row)[col]
  {
    hide Interleaved, Column, Position;
    BlocksShaped(s, data, ecc);
    StreamLength(s, data, ecc);
    var d, e := DataBlocks(s, data), EccBlocks(s, ecc);
    assert d[row] == DataBlock(s, data, row) && e[row] == EccBlock(s, ecc, row);
    forall col: nat | col < s.BlockLength(row)
      ensures
        var p := Position(s.Blocks(), s.b1, s.d, row, col);
        0 <= p < s.DataLength() && Stream(s, data, ecc)[p] == d[row][col]
    {
      InterleavedAt(d, s.b1, s.d, s.d + 1, row, col);
    }
    forall col: nat | col < s.e
      ensures
        var p := Times(col, s.Blocks()) + row;
        p < s.EccLength() && Stream(s, data, ecc)[s.DataLength() + p] == e[row][col]
    {
      InterleavedAt(e, s.Blocks(), s.e, s.e, row, col);
      PositionInFull(s.Blocks(), s.Blocks(), s.e, row, col);
    }
  }

  lemma PositionInFull(n: nat, b1: nat, d: nat, row: nat, col: nat)
    requires col < d
    ensures Position(n, b1, d, row, col) == Times(col, n) + row
  {
  }

  // ----- the encoder's state -----

  /** RSblock: lengths, and where the block's codewords begin. */
  datatype RSblock = RSblock(dataLength: nat, data: nat, eccLength: nat, ecc: nat)

  function BlockAt(s: Spec, i: nat): RSblock {
    RSblock(s.BlockLength(i), s.DataStart(i), s.e, Times(i, s.e))
  }

  /** QRRawCode */
  class RawCode {
    const spec: Spec
    const datacode: seq<bv8>
    const ecccode: array<bv8>
    var rsblock: seq<RSblock>
    var count: nat

    ghost predicate Shape() {
      spec.Valid() && |datacode| == spec.DataLength() && ecccode.Length == spec.EccLength()
    }

    /** The first n blocks are set up, and their data and check symbols form code words. */
    ghost predicate Filled(n: nat)
      reads this`rsblock, ecccode
    {
      && Shape() && |rsblock| == n <= spec.Blocks()
      && (forall i :: 0 <= i < n ==> rsblock[i] == BlockAt(spec, i))
      && (forall i {:trigger EccBlock(spec, ecccode[..], i)} :: 0 <= i < n ==>
            Codeword(DataBlock(spec, datacode, i) + EccBlock(spec, ecccode[..], i), spec.e))
    }

    ghost predicate Valid()
      reads this`rsblock, ecccode
    {
      Filled(spec.Blocks())
    }

    /** QRraw_new */
    constructor (s: Spec, data: seq<bv8>, encoder: Encoder)
      requires s.Valid() && |data| == s.DataLength() && encoder.Valid()
      modifies encoder, encoder.alpha, encoder.aindex, encoder.generator, encoder.generatorInitialized
      ensures Valid() && encoder.Valid() && spec == s && datacode == data && count == 0 && fresh(ecccode)
    {
      spec, datacode, count := s, data, 0;
      ecccode := new bv8[s.EccLength()];
      rsblock := [];
      new;
      Init(encoder);
    }

    /** RSblock_init */
    method Init(encoder: Encoder)
      requires Filled(0) && encoder.Valid() && encoder.Separate(ecccode)
      modifies `rsblock, ecccode
      modifies encoder, encoder.alpha, encoder.aindex, encoder.generator, encoder.generatorInitialized
      ensures Valid() && encoder.Valid()
    {
      var dp, ep := 0, 0;
      for i := 0 to spec.b1
        invariant Filled(i) && encoder.Valid() && dp == spec.DataStart(i) && ep == Times(i, spec.e)
      {
        InitBlock(encoder, spec.d, dp, ep, i);
        Starts(spec, i);
        dp, ep := dp + spec.d, ep + spec.e;
      }
      if spec.b2 == 0 {
        return;
      }
      for i := 0 to spec.b2
        invariant Filled(spec.b1 + i) && encoder.Valid()
        invariant dp == spec.DataStart(spec.b1 + i) && ep == Times(spec.b1 + i, spec.e)
      {
        InitBlock(encoder, spec.d + 1, dp, ep, spec.b1 + i);
        Starts(spec, spec.b1 + i);
        dp, ep := dp + (spec.d + 1), ep + spec.e;
      }
    }

    /** RSblock_initBlock for block n. */
    method InitBlock(encoder: Encoder, dl: nat, dp: nat, ep: nat, ghost n: nat)
      requires Filled(n) && n < spec.Blocks() && encoder.Valid() && encoder.Separate(ecccode)
      requires dl == spec.BlockLength(n) && dp == spec.DataStart(n) && ep == Times(n, spec.e)
      modifies `rsblock, ecccode
      modifies encoder, encoder.alpha, encoder.aindex, encoder.generator, encoder.generatorInitialized
      ensures Filled(n + 1) && encoder.Valid()
    {
      hide Codeword;
      ghost var was := ecccode[..];
      Starts(spec, n);
      var ret := encoder.Encode(spec.e, datacode[dp..dp + dl], ecccode, ep);
      rsblock := rsblock + [RSblock(dl, dp, spec.e, ep)];
      assert EccBlock(spec, ecccode[..], n) == ecccode[ep..ep + spec.e];
      EccKept(spec, was, ecccode[..], n);
    }

    ghost function Codes(): seq<bv8>
      reads ecccode
    {
      Stream(spec, datacode, ecccode[..])
    }

    /** QRraw_getCode */
    method GetCode() returns (ret: bv8)
      requires Valid()
      modifies this`count
      ensures |Codes()| == spec.DataLength() + spec.EccLength()
      ensures if old(count) < |Codes()| then ret == Codes()[old(count)] && count == old(count) + 1
              else ret == 0 && count == old(count)
    {
      hide Stream, Codeword;
      StreamLength(spec, datacode, ecccode[..]);
      var n := spec.Blocks();
      if count < spec.DataLength() {
        var row, col := count % n, count / n;
        Divide(count, n);
        DataTurn(spec, datacode, ecccode[..], count, row, col);
        if col >= rsblock[0].dataLength {
          row := row + spec.b1;
        }
        ret := datacode[rsblock[row].data + col];
      } else if count < spec.DataLength() + spec.EccLength() {
        var row, col := (count - spec.DataLength()) % n, (count - spec.DataLength()) / n;
        Divide(count - spec.DataLength(), n);
        EccTurn(spec, datacode, ecccode[..], count - spec.DataLength(), row, col);
        ret := ecccode[rsblock[row].ecc + col];
      } else {
        return 0;
      }
      count := count + 1;
    }
  }

  lemma DataTurn(s: Spec, data: seq<bv8>, ecc: seq<bv8>, count: nat, r: nat, col: nat)
    requires s.Valid() && |data| == s.DataLength() && |ecc| == s.EccLength() && count < s.DataLength()
    requires r < s.Blocks() && count == Times(col, s.Blocks()) + r
    ensures
      var row := if col >= s.d then r + s.b1 else r;
      && row < s.Blocks() && col < s.BlockLength(row) && s.DataStart(row) + col < |data|
      && count < |Stream(s, data, ecc)| && data[s.DataStart(row) + col] == Stream(s, data, ecc)[count]
  {
    hide Stream, Position;
    Distribute(s.b1, s.b2, s.d);
    TurnOf(s.Blocks(), s.b1, s.d, count, r, col);
    var row := if col >= s.d then r + s.b1 else r;
    Deinterleave(s, data, ecc, row);
    Starts(s, row);
    assert DataBlock(s, data, row)[col] == data[s.DataStart(row) + col];
  }

  lemma EccTurn(s: Spec, data: seq<bv8>, ecc: seq<bv8>, count: nat, row: nat, col: nat)
    requires s.Valid() && |data| == s.DataLength() && |ecc| == s.EccLength() && count < s.EccLength()
    requires row < s.Blocks() && count == Times(col, s.Blocks()) + row
    ensures Times(row, s.e) + col < |ecc| && s.DataLength() + count < |Stream(s, data, ecc)|
    ensures ecc[Times(row, s.e) + col] == Stream(s, data, ecc)[s.DataLength() + count]
  {
    hide Stream, Position;
    var n := s.Blocks();
    Distribute(n, 0, s.e);
    TurnOf(n, n, s.e, count, row, col);
    Deinterleave(s, data, ecc, row);
    Starts(s, row);
    assert EccBlock(s, ecc, row)[col] == ecc[Times(row, s.e) + col];
  }
}
