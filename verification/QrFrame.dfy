/** The placement loops of QRcode_encodeMask (qrcode/qrencode.c:463-494), and how the blocks
    are read back from the finished frame. */
module QrFrame {
  import opened Common
  import opened QrPath
  import opened QrRaw
  import opened QrFill
  import opened RsCode
  import opened Rsecc

  // ----- the bits of a codeword -----

  /** The value of bit after j shifts. */
  function Mask(j: nat): bv8 {
    if j == 0 then 0x80 else Mask(j - 1) >> 1
  }

  predicate Bit(code: bv8, j: nat) {
    Mask(j) & code != 0
  }

  /** The module for one bit: error correction modules carry the tag 2. */
  function Module(tag: bv8, code: bv8, j: nat): bv8 {
    tag | if Bit(code, j) then 1 else 0
  }

  /** The byte with these bits, most significant first. */
  function FromBits(bits: seq<bool>): bv8 {
    if |bits| == 0 then 0
    else WithBit(FromBits(bits[..|bits| - 1]), Mask(|bits| - 1), bits[|bits| - 1])
  }

  function WithBit(code: bv8, mask: bv8, b: bool): bv8 {
    code | if b then mask else 0
  }

  /** The bits of code within mask. */
  function Within(code: bv8, mask: bv8): bv8 {
    code & mask
  }

  function Bits(code: bv8, n: nat): seq<bool> {
    seq(n, j requires j >= 0 => Bit(code, j))
  }

  /** The bits above the mask. */
  function High(j: nat): bv8 {
    if j == 0 then 0 else High(j - 1) | Mask(j - 1)
  }

  lemma {:induction false} FromHigh(code: bv8, n: nat)
    ensures FromBits(Bits(code, n)) == Within(code, High(n))
    decreases n
  {
    hide Within, WithBit, High, Mask, Bit;
    NoBits(code);
    if n > 0 {
      FromHigh(code, n - 1);
      assert Bits(code, n)[..n - 1] == Bits(code, n - 1);
      AddBit(code, High(n - 1), n - 1);
      HighStep(n);
    }
  }

  lemma HighStep(n: nat)
    requires n > 0
    ensures High(n) == High(n - 1) | Mask(n - 1)
  {
  }

  /** A mask has at most one bit. */
  lemma {:induction false} OneMask(j: nat)
    ensures Mask(j) == 0 || Mask(j) & (Mask(j) - 1) == 0
    decreases j
  {
    if j > 0 {
      OneMask(j - 1);
      HalfMask(Mask(j - 1));
    }
  }

  lemma HalfMask(m: bv8)
    requires m == 0 || m & (m - 1) == 0
    ensures m >> 1 == 0 || (m >> 1) & ((m >> 1) - 1) == 0
  {
  }

  lemma NoBits(code: bv8)
    ensures Within(code, High(0)) == 0
  {
  }

  lemma AddBit(code: bv8, h: bv8, j: nat)
    ensures WithBit(Within(code, h), Mask(j), Bit(code, j)) == Within(code, h | Mask(j))
  {
    OneMask(j);
    hide Mask;
    AddMask(code, h, Mask(j));
  }

  lemma AddMask(code: bv8, h: bv8, m: bv8)
    requires m == 0 || m & (m - 1) == 0
    ensures (code & h) | (if m & code != 0 then m else 0) == code & (h | m)
  {
  }

  lemma EightBits(code: bv8)
    ensures FromBits(Bits(code, 8)) == code
  {
    FromHigh(code, 8);
    assert Mask(1) == 0x40 && Mask(2) == 0x20 && Mask(3) == 0x10 && Mask(4) == 8;
    assert Mask(5) == 4 && Mask(6) == 2 && Mask(7) == 1;
    assert High(3) == 0xe0 && High(6) == 0xfc && High(8) == 0xff;
  }

  /** Bit 0 is the most significant one (section 8.7.3 of ISO/IEC 18004). */
  lemma BitOrder(code: bv8)
    ensures Bit(code, 0) <==> code & 0x80 != 0
    ensures Bit(code, 1) <==> code & 0x40 != 0
    ensures Bit(code, 2) <==> code & 0x20 != 0
    ensures Bit(code, 3) <==> code & 0x10 != 0
    ensures Bit(code, 4) <==> code & 0x08 != 0
    ensures Bit(code, 5) <==> code & 0x04 != 0
    ensures Bit(code, 6) <==> code & 0x02 != 0
    ensures Bit(code, 7) <==> code & 0x01 != 0
  {
    assert Mask(1) == 0x40 && Mask(2) == 0x20 && Mask(3) == 0x10 && Mask(4) == 8;
    assert Mask(5) == 4 && Mask(6) == 2 && Mask(7) == 1;
    FirstMask();
    hide Mask;
  }

  /** Is the module dark, before masking? */
  predicate Low(m: bv8) {
    m & 1 != 0
  }

  lemma ModuleBits(tag: bv8, code: bv8, j: nat)
    requires tag == 0 || tag == 2
    ensures Module(tag, code, j) & 0x80 == 0 && (Low(Module(tag, code, j)) <==> Bit(code, j))
  {
    hide Bit;
  }

  // ----- writing -----

  /** The frame after the values are written to the first cells, one each. */
  function Written(frame: seq<bv8>, cells: seq<nat>, values: seq<bv8>): (r: seq<bv8>)
    requires |values| <= |cells| && forall i :: 0 <= i < |cells| ==> cells[i] < |frame|
    ensures |r| == |frame|
    decreases |values|
  {
    if |values| == 0 then frame
    else Written(frame, cells, values[..|values| - 1])[cells[|values| - 1] := values[|values| - 1]]
  }

  /** Every value is found in its cell, and no other module has changed. */
  lemma {:induction false} WrittenAt(frame: seq<bv8>, cells: seq<nat>, values: seq<bv8>)
    requires |values| <= |cells| && Distinct(cells) && forall i :: 0 <= i < |cells| ==> cells[i] < |frame|
    ensures forall i :: 0 <= i < |values| ==> Written(frame, cells, values)[cells[i]] == values[i]
    ensures forall v :: 0 <= v < |frame| && v !in cells ==> Written(frame, cells, values)[v] == frame[v]
    decreases |values|
  {
    if |values| > 0 {
      WrittenAt(frame, cells, values[..|values| - 1]);
    }
  }

  /** Module values of a symbol: the data codewords, the error correction codewords, the
      remainder. */
  function Values(codes: seq<bv8>, dataLength: nat, remainder: nat): (r: seq<bv8>)
    ensures |r| == 8 * |codes| + remainder
  {
    seq(8 * |codes| + remainder, k requires k >= 0 => ValueAt(codes, dataLength, k))
  }

  function ValueAt(codes: seq<bv8>, dataLength: nat, k: nat): bv8 {
    if k < 8 * |codes| then Module(if k / 8 < dataLength then 0 else 2, codes[k / 8], k % 8) else 2
  }

  /** The same modules are reserved. */
  ghost predicate SameFlags(a: seq<bv8>, b: seq<bv8>) {
    forall v: nat {:trigger Reserved(a, v)} {:trigger Reserved(b, v)} :: Reserved(a, v) <==> Reserved(b, v)
  }

  /** The filler has yielded the first k cells, which hold the first values. */
  ghost predicate Filling(filler: FrameFiller, was: seq<bv8>, values: seq<bv8>, k: nat)
    requires Width(filler.width)
    reads filler, filler.frame
  {
    var cells := Cells(filler.width, was);
    && filler.Valid() && |was| == filler.frame.Length && k <= |values| && k <= |cells|
    && (k == 0 <==> filler.bit == -1)
    && (forall i :: 0 <= i < |cells| ==> cells[i] < |was| && !Reserved(was, cells[i]))
    && filler.Todo() == cells[k..]
    && filler.frame[..] == Written(was, cells, values[..k])
    && forall v: nat {:trigger Reserved(was, v)} :: Reserved(was, v) <==> Reserved(filler.frame[..], v)
  }

  /** p = FrameFiller_next(&filler); if(p == NULL) goto EXIT; *p = v; */
  method WriteNext(filler: FrameFiller, v: bv8, ghost was: seq<bv8>, ghost values: seq<bv8>, ghost k: nat)
    returns (ok: bool)
    requires Width(filler.width) && Filling(filler, was, values, k)
    requires k < |values| && values[k] == v && v & 0x80 == 0
    modifies filler, filler.frame
    ensures ok <==> k < |Cells(filler.width, was)|
    ensures ok ==> Filling(filler, was, values, k + 1)
  {
    hide Reserved, Rest, Cells;
    ghost var cells := Cells(filler.width, was);
    var p := filler.Next();
    if p == -1 {
      return false;
    }
    ghost var mid := filler.frame[..];
    filler.frame[p] := v;
    assert values[..k + 1][..k] == values[..k];
    assert filler.frame[..] == mid[p := v];
    KeepsReserved(was, mid, p, v);
    SameReserved(Cursor(filler.x, filler.y, filler.dir, filler.bit), filler.width, mid, filler.frame[..]);
    ok := true;
  }

  lemma KeepsReserved(was: seq<bv8>, mid: seq<bv8>, p: nat, v: bv8)
    requires p < |mid| == |was| && v & 0x80 == 0 && !Reserved(was, p)
    requires forall i: nat {:trigger Reserved(was, i)} :: Reserved(was, i) <==> Reserved(mid, i)
    ensures forall i: nat {:trigger Reserved(mid[p := v], i)} :: Reserved(was, i) <==> Reserved(mid[p := v], i)
    ensures forall i: nat {:trigger Reserved(mid, i)} :: Reserved(mid, i) <==> Reserved(mid[p := v], i)
  {
    forall i: nat {:trigger Reserved(mid[p := v], i)} ensures Reserved(was, i) <==> Reserved(mid[p := v], i) {
      assert Reserved(was, i) <==> Reserved(mid, i);
    }
    forall i: nat {:trigger Reserved(mid, i)} ensures Reserved(mid, i) <==> Reserved(mid[p := v], i) {
      assert Reserved(was, i) <==> Reserved(mid, i);
    }
  }

  lemma CellsFree(w: nat, frame: seq<bv8>, i: nat)
    requires Width(w) && !Reserved(frame, CellAt(w - 1, w - 1, w)) && |frame| == Products.Times(w, w)
    requires i < |Cells(w, frame)|
    ensures Cells(w, frame)[i] < |frame| && !Reserved(frame, Cells(w, frame)[i])
  {
    hide Rank, Upward, RightColumn, Reserved, Rest;
    var v := Cells(w, frame)[i];
    StartOnPath(w);
    CellInside(Start(w), w);
    if i > 0 {
      assert v == Rest(Start(w), w, frame)[i - 1];
      InFree(Start(w), w, frame, v);
      FreeFrom(Start(w), w, frame, v);
      var d :| On(d, w) && Rank(d, w) >= Rank(Start(w), w) && Index(d, w) == v;
      CellInside(d, w);
    }
  }

  lemma StartFilling(filler: FrameFiller, values: seq<bv8>)
    requires filler.Valid() && filler.bit == -1 && Suitable(filler.width, filler.frame[..])
    ensures Filling(filler, filler.frame[..], values, 0)
  {
    hide Reserved, Rest, Cells;
    var was := filler.frame[..];
    forall i | 0 <= i < |Cells(filler.width, was)|
      ensures Cells(filler.width, was)[i] < |was| && !Reserved(was, Cells(filler.width, was)[i])
    {
      CellsFree(filler.width, was, i);
    }
    assert values[..0] == [];
  }

  /** The loop over the bits of one codeword, from bit = 0x80 on. */
  method PlaceCode(filler: FrameFiller, code: bv8, tag: bv8, ghost was: seq<bv8>, ghost values: seq<bv8>, ghost k: nat)
    returns (ok: bool)
    requires Width(filler.width) && Filling(filler, was, values, k) && k + 8 <= |values| && (tag == 0 || tag == 2)
    requires forall j: nat {:trigger Module(tag, code, j)} :: j < 8 ==> values[k + j] == Module(tag, code, j)
    modifies filler, filler.frame
    ensures ok <==> k + 8 <= |Cells(filler.width, was)|
    ensures ok ==> Filling(filler, was, values, k + 8)
  {
    hide Filling, Module, Mask, Cells;
    FillingBound(filler, was, values, k);
    var bit: bv8 := 0x80;
    FirstMask();
    for j := 0 to 8
      invariant Filling(filler, was, values, k + j) && bit == Mask(j) && k + j <= |Cells(filler.width, was)|
    {
      var v := tag | if bit & code != 0 then 1 else 0;
      ModuleIs(tag, code, j);
      ModuleBits(tag, code, j);
      ok := WriteNext(filler, v, was, values, k + j);
      if !ok {
        return;
      }
      MaskStep(j);
      bit := bit >> 1;
    }
    ok := true;
  }

  lemma FillingBound(filler: FrameFiller, was: seq<bv8>, values: seq<bv8>, k: nat)
    requires Width(filler.width) && Filling(filler, was, values, k)
    ensures k <= |Cells(filler.width, was)|
  {
    hide Cells, Reserved;
  }

  lemma FirstMask()
    ensures Mask(0) == 0x80
  {
  }

  lemma MaskStep(j: nat)
    ensures Mask(j + 1) == Mask(j) >> 1
  {
  }

  lemma ModuleIs(tag: bv8, code: bv8, j: nat)
    ensures Module(tag, code, j) == tag | if Mask(j) & code != 0 then 1 else 0
  {
    hide Mask;
  }

  lemma ValuesAt(codes: seq<bv8>, dataLength: nat, remainder: nat, i: nat, tag: bv8)
    requires i < |codes| && tag == if i < dataLength then 0 else 2
    ensures forall j: nat {:trigger Module(tag, codes[i], j)} :: j < 8 ==>
              Values(codes, dataLength, remainder)[8 * i + j] == Module(tag, codes[i], j)
  {
    hide Module;
    forall j: nat {:trigger Module(tag, codes[i], j)} | j < 8
      ensures Values(codes, dataLength, remainder)[8 * i + j] == Module(tag, codes[i], j)
    {
      assert (8 * i + j) / 8 == i && (8 * i + j) % 8 == j;
    }
  }

  /** One of the two loops over codewords. */
  method PlaceCodes(raw: RawCode, filler: FrameFiller, n: nat, tag: bv8,
                    ghost was: seq<bv8>, ghost dataLength: nat, ghost remainder: nat)
    returns (ok: bool)
    requires raw.Valid() && filler.frame != raw.ecccode && (tag == 0 || tag == 2)
    requires raw.count + n <= |raw.Codes()| == raw.spec.DataLength() + raw.spec.EccLength()
    requires tag == 0 <==> raw.count < dataLength
    requires tag == 0 ==> raw.count + n <= dataLength
    requires Width(filler.width) && Filling(filler, was, Values(raw.Codes(), dataLength, remainder), 8 * raw.count)
    modifies raw`count, filler, filler.frame
    ensures raw.Valid() && raw.Codes() == old(raw.Codes())
    ensures ok <==> 8 * (old(raw.count) + n) <= |Cells(filler.width, was)|
    ensures ok ==> raw.count == old(raw.count) + n
                   && Filling(filler, was, Values(raw.Codes(), dataLength, remainder), 8 * raw.count)
  {
    hide Filling, Module, Cells, Stream, Values, RawCode.Filled;
    ghost var codes, first := raw.Codes(), raw.count;
    ghost var values := Values(codes, dataLength, remainder);
    FillingBound(filler, was, values, 8 * raw.count);
    for i := 0 to n
      invariant raw.Valid() && raw.Codes() == codes && raw.count == first + i
      invariant Filling(filler, was, values, 8 * (first + i)) && 8 * (first + i) <= |Cells(filler.width, was)|
    {
      var code := raw.GetCode();
      ValuesAt(codes, dataLength, remainder, first + i, tag);
      ok := PlaceCode(filler, code, tag, was, values, 8 * (first + i));
      if !ok {
        return;
      }
    }
    ok := true;
  }

  /** The part of QRcode_encodeMask that fills the frame, before masking. */
  method EncodeFrame(raw: RawCode, filler: FrameFiller, remainder: nat) returns (ok: bool)
    requires raw.Valid() && raw.count == 0 && filler.frame != raw.ecccode
    requires filler.Valid() && filler.bit == -1 && Suitable(filler.width, filler.frame[..])
    modifies raw`count, filler, filler.frame
    ensures raw.Codes() == old(raw.Codes()) && |raw.Codes()| == raw.spec.DataLength() + raw.spec.EccLength()
    ensures
      var cells := Cells(filler.width, old(filler.frame[..]));
      && (ok <==> 8 * |raw.Codes()| + remainder <= |cells|)
      && (forall i :: 0 <= i < |cells| ==> cells[i] < filler.frame.Length)
      && (ok ==> filler.frame[..] ==
                 Written(old(filler.frame[..]), cells, Values(raw.Codes(), raw.spec.DataLength(), remainder)))
    ensures ok ==> SameFlags(old(filler.frame[..]), filler.frame[..])
  {
    hide Filling, Module, Cells, Suitable, Stream, Values, RawCode.Filled;
    ghost var was, codes, n := filler.frame[..], raw.Codes(), raw.spec.DataLength();
    ghost var values, cells := Values(codes, n, remainder), Cells(filler.width, was);
    DataAndEcc(raw);
    StartFilling(filler, values);
    FillingCells(filler, was, values, 0);
    ok := PlaceCodes(raw, filler, raw.spec.DataLength(), 0, was, n, remainder);
    if !ok {
      return;
    }
    ok := PlaceCodes(raw, filler, raw.spec.EccLength(), 2, was, n, remainder);
    if !ok {
      return;
    }
    FillingBound(filler, was, values, 8 * |codes|);
    for i := 0 to remainder
      invariant raw.Codes() == codes
      invariant Filling(filler, was, values, 8 * |codes| + i) && 8 * |codes| + i <= |cells|
    {
      RemainderValue(codes, n, remainder, i);
      ok := WriteNext(filler, 2, was, values, 8 * |codes| + i);
      if !ok {
        return;
      }
    }
    FillingCells(filler, was, values, |values|);
    assert values[..|values|] == values;
    ok := true;
  }

  lemma DataAndEcc(raw: RawCode)
    requires raw.Valid()
    ensures raw.spec.DataLength() > 0
    ensures |raw.Codes()| == raw.spec.DataLength() + raw.spec.EccLength()
  {
    hide Stream, Codeword;
    StreamLength(raw.spec, raw.datacode, raw.ecccode[..]);
    Starts(raw.spec, 0);
  }

  lemma RemainderValue(codes: seq<bv8>, dataLength: nat, remainder: nat, i: nat)
    requires i < remainder
    ensures Values(codes, dataLength, remainder)[8 * |codes| + i] == 2
  {
  }

  lemma FillingCells(filler: FrameFiller, was: seq<bv8>, values: seq<bv8>, k: nat)
    requires Width(filler.width) && Filling(filler, was, values, k)
    ensures
      var cells := Cells(filler.width, was);
      && k <= |cells| && |was| == filler.frame.Length
      && (forall i :: 0 <= i < |cells| ==> cells[i] < |was|)
      && filler.frame[..] == Written(was, cells, values[..k])
    ensures SameFlags(was, filler.frame[..])
  {
    hide Cells, Reserved, Written;
  }

  // ----- reading -----

  /** Codeword i of a frame: the low bits of eight successive cells. */
  function ReadCode(frame: seq<bv8>, cells: seq<nat>, i: nat): bv8
    requires 8 * i + 8 <= |cells| && forall k :: 0 <= k < |cells| ==> cells[k] < |frame|
  {
    FromBits(seq(8, j requires 0 <= j < 8 => Low(frame[cells[8 * i + j]])))
  }

  /** Reading the modules back in the order of the path gives the codewords. */
  lemma ReadBack(frame: seq<bv8>, cells: seq<nat>, codes: seq<bv8>, dataLength: nat, remainder: nat, i: nat)
    requires 8 * |codes| + remainder <= |cells| && Distinct(cells) && i < |codes|
    requires forall k :: 0 <= k < |cells| ==> cells[k] < |frame|
    ensures ReadCode(Written(frame, cells, Values(codes, dataLength, remainder)), cells, i) == codes[i]
  {
    hide Module, Written, FromBits, Bit, Distinct, Values, Low;
    var values := Values(codes, dataLength, remainder);
    var after := Written(frame, cells, values);
    var tag: bv8 := if i < dataLength then 0 else 2;
    WrittenAt(frame, cells, values);
    ValuesAt(codes, dataLength, remainder, i, tag);
    var bits := seq(8, j requires 0 <= j < 8 => Low(after[cells[8 * i + j]]));
    forall j | 0 <= j < 8 ensures bits[j] == Bit(codes[i], j) {
      ModuleBits(tag, codes[i], j);
      assert after[cells[8 * i + j]] == values[8 * i + j] == Module(tag, codes[i], j);
    }
    assert bits == Bits(codes[i], 8);
    EightBits(codes[i]);
  }

  /** Block row of the frame: its data codewords, then its error correction codewords. */
  function ReadBlock(s: Spec, frame: seq<bv8>, cells: seq<nat>, row: nat): seq<bv8>
    requires row < s.Blocks() && 8 * (s.DataLength() + s.EccLength()) <= |cells|
    requires forall k :: 0 <= k < |cells| ==> cells[k] < |frame|
  {
    ReadData(s, frame, cells, row) + ReadEcc(s, frame, cells, row)
  }

  function ReadData(s: Spec, frame: seq<bv8>, cells: seq<nat>, row: nat): seq<bv8>
    requires row < s.Blocks() && 8 * (s.DataLength() + s.EccLength()) <= |cells|
    requires forall k :: 0 <= k < |cells| ==> cells[k] < |frame|
  {
    seq(s.BlockLength(row), col requires 0 <= col < s.BlockLength(row) =>
      var p := Position(s.Blocks(), s.b1, s.d, row, col);
      if 0 <= p < s.DataLength() then ReadCode(frame, cells, p) else 0)
  }

  function ReadEcc(s: Spec, frame: seq<bv8>, cells: seq<nat>, row: nat): seq<bv8>
    requires row < s.Blocks() && 8 * (s.DataLength() + s.EccLength()) <= |cells|
    requires forall k :: 0 <= k < |cells| ==> cells[k] < |frame|
  {
    seq(s.e, col requires 0 <= col < s.e =>
      var p := Products.Times(col, s.Blocks()) + row;
      if p < s.EccLength() then ReadCode(frame, cells, s.DataLength() + p) else 0)
  }

  lemma DataRead(s: Spec, data: seq<bv8>, ecc: seq<bv8>, after: seq<bv8>, cells: seq<nat>, row: nat)
    requires |data| == s.DataLength() && |ecc| == s.EccLength() && row < s.Blocks()
    requires 8 * (s.DataLength() + s.EccLength()) <= |cells| && forall k :: 0 <= k < |cells| ==> cells[k] < |after|
    requires |Stream(s, data, ecc)| == s.DataLength() + s.EccLength()
    requires forall i :: 0 <= i < |Stream(s, data, ecc)| ==> ReadCode(after, cells, i) == Stream(s, data, ecc)[i]
    ensures ReadData(s, after, cells, row) == DataBlock(s, data, row)
    ensures ReadEcc(s, after, cells, row) == EccBlock(s, ecc, row)
  {
    hide Stream, Position, ReadCode, DataBlock, EccBlock, Products.Times;
    Deinterleave(s, data, ecc, row);
    var d, e := ReadData(s, after, cells, row), ReadEcc(s, after, cells, row);
    forall col: nat | col < s.BlockLength(row) ensures d[col] == DataBlock(s, data, row)[col] {
    }
    forall col: nat | col < s.e ensures e[col] == EccBlock(s, ecc, row)[col] {
    }
  }

  /** The whole way: each block read from the finished frame is the data of the block
      followed by its check symbols. */
  lemma BlockRead(s: Spec, data: seq<bv8>, ecc: seq<bv8>, frame: seq<bv8>, cells: seq<nat>, remainder: nat, row: nat)
    requires s.Valid() && |data| == s.DataLength() && |ecc| == s.EccLength() && row < s.Blocks()
    requires |Stream(s, data, ecc)| == s.DataLength() + s.EccLength()
    requires 8 * |Stream(s, data, ecc)| + remainder <= |cells| && Distinct(cells)
    requires forall k :: 0 <= k < |cells| ==> cells[k] < |frame|
    ensures
      var after := Written(frame, cells, Values(Stream(s, data, ecc), s.DataLength(), remainder));
      && ReadData(s, after, cells, row) == DataBlock(s, data, row)
      && ReadBlock(s, after, cells, row) == DataBlock(s, data, row) + EccBlock(s, ecc, row)
  {
    hide Stream, Written, Values, Position, ReadCode, DataBlock, EccBlock, Distinct, ReadData, ReadEcc;
    var codes := Stream(s, data, ecc);
    var after := Written(frame, cells, Values(codes, s.DataLength(), remainder));
    forall i | 0 <= i < |codes| ensures ReadCode(after, cells, i) == codes[i] {
      ReadBack(frame, cells, codes, s.DataLength(), remainder, i);
    }
    DataRead(s, data, ecc, after, cells, row);
  }

  /** The frame holds the data of the block, in a Reed-Solomon code word. */
  ghost predicate Holds(s: Spec, data: seq<bv8>, frame: seq<bv8>, cells: seq<nat>, row: nat) {
    && row < s.Blocks() && 8 * (s.DataLength() + s.EccLength()) <= |cells|
    && (forall k :: 0 <= k < |cells| ==> cells[k] < |frame|)
    && ReadData(s, frame, cells, row) == DataBlock(s, data, row)
    && Codeword(ReadBlock(s, frame, cells, row), s.e)
  }

  /** QRcode_encodeMask from QRraw_new to the last remainder bit, for a frame as
      QRspec_newFrame makes it: every block can be read back, and is a Reed-Solomon code
      word that begins with the block's data. */
  method EncodeMask(s: Spec, data: seq<bv8>, encoder: Encoder, width: nat, frame: array<bv8>, remainder: nat)
    returns (ok: bool)
    requires s.Valid() && |data| == s.DataLength() && encoder.Valid() && encoder.Separate(frame)
    requires Width(width) && frame.Length == Products.Times(width, width) && Suitable(width, frame[..])
    modifies frame, encoder, encoder.alpha, encoder.aindex, encoder.generator, encoder.generatorInitialized
    ensures encoder.Valid()
    ensures
      var cells := Cells(width, old(frame[..]));
      && (ok <==> 8 * (s.DataLength() + s.EccLength()) + remainder <= |cells|)
      && (forall k :: 0 <= k < |cells| ==> cells[k] < frame.Length)
      && (ok ==> forall row :: 0 <= row < s.Blocks() ==> Holds(s, data, frame[..], cells, row))
      && (ok ==> forall v :: 0 <= v < frame.Length && v !in cells ==> frame[v] == old(frame[v]))
    ensures ok ==> SameFlags(old(frame[..]), frame[..])
  {
    hide Cells, Suitable, Stream, Values, Codeword, Written, ReadBlock, ReadData, DataBlock, EccBlock;
    ghost var was := frame[..];
    ghost var cells := Cells(width, was);
    CellsDistinct(width, was);
    var raw := new RawCode(s, data, encoder);
    assert frame[..] == was;
    var filler := new FrameFiller(width, frame);
    ok := EncodeFrame(raw, filler, remainder);
    if ok {
      ghost var ecc := raw.ecccode[..];
      WrittenAt(was, cells, Values(raw.Codes(), s.DataLength(), remainder));
      forall row | 0 <= row < s.Blocks() ensures Holds(s, data, frame[..], cells, row) {
        BlockRead(s, data, ecc, was, cells, remainder, row);
        BlockWord(raw, row);
      }
    }
  }

  lemma BlockWord(raw: RawCode, row: nat)
    requires raw.Valid() && row < raw.spec.Blocks()
    ensures Codeword(DataBlock(raw.spec, raw.datacode, row) + EccBlock(raw.spec, raw.ecccode[..], row), raw.spec.e)
  {
    hide Codeword, DataBlock, EccBlock;
  }
}
