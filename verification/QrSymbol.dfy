/** QRcode_encodeMask (qrcode/qrencode.c:107-145, 431-517) from entries to the masked symbol,
    and a reader that needs nothing but the symbol. */
module QrSymbol {
  import opened Common
  import opened Products
  import opened QrBits
  import opened QrEntry
  import opened QrReader
  import opened QrCapacity
  import opened QrInput
  import opened QrPadding
  import opened RsCode
  import opened Rsecc
  import opened QrRaw
  import opened QrSpec
  import opened QrPath
  import opened QrFill
  import opened QrFrame
  import opened QrPattern
  import opened QrDraw
  import opened QrMask
  import opened QrChoice

  // ----- the blank frame -----

  /** The frame is the one QRspec_createFrame draws. */
  ghost predicate Blank(version: nat, frame: seq<bv8>) {
    && |frame| == Times(Side(version), Side(version))
    && forall x: nat, y: nat {:trigger Pixel(frame, Side(version), x, y)} ::
         x < Side(version) && y < Side(version) ==> Pixel(frame, Side(version), x, y) == Pattern(version, x, y)
  }

  lemma BlankReserves(version: nat, frame: seq<bv8>, x: nat, y: nat)
    requires 1 <= version <= VERSION_MAX && Blank(version, frame) && x < Side(version) && y < Side(version)
    ensures Reserved(frame, CellAt(x, y, Side(version))) <==> Drawn(version, x, y)
  {
    hide Pattern, Drawn, Side, Times, CellAt;
    PatternKept(version, x, y);
    CellBelow(x, y, Side(version));
    assert Pixel(frame, Side(version), x, y) == Pattern(version, x, y);
  }

  lemma CornerFree(version: nat)
    requires 1 <= version <= VERSION_MAX
    ensures !Drawn(version, Side(version) - 1, Side(version) - 1)
  {
    hide Near, Markers;
    NearInside(version, Side(version) - 1);
  }

  /** Every drawn frame is one the placement is exact for. */
  lemma BlankSuitable(version: nat, frame: seq<bv8>)
    requires 1 <= version <= VERSION_MAX && Blank(version, frame)
    ensures Width(Side(version)) && Suitable(Side(version), frame)
  {
    var w := Side(version);
    hide Near, Markers, CellAt, Times, Reserved, Blank;
    BlankReserves(version, frame, w - 1, w - 1);
    CornerFree(version);
    forall x: nat, y: nat {:trigger CellAt(x, y, w)} | x < w && y < w && !OnPath(x, y, w) ensures Reserved(frame, CellAt(x, y, w)) {
      BlankReserves(version, frame, x, y);
    }
  }

  // ----- counting its cells -----

  ghost function Elements<T>(s: seq<T>): set<T> {
    set x | x in s
  }

  lemma {:induction false} DistinctSize<T>(s: seq<T>)
    requires Distinct(s)
    ensures |Elements(s)| == |s|
    decreases |s|
  {
    if |s| > 0 {
      var n := |s| - 1;
      DistinctSize(s[..n]);
      assert Elements(s) == Elements(s[..n]) + {s[n]};
    }
  }

  lemma {:induction false} BijectionSize<A, B>(a: set<A>, b: set<B>, f: A -> B)
    requires forall x :: x in a ==> f(x) in b
    requires forall x, y :: x in a && y in a && f(x) == f(y) ==> x == y
    requires forall z :: z in b ==> exists x :: x in a && f(x) == z
    ensures |a| == |b|
    decreases |a|
  {
    if x :| x in a {
      BijectionSize(a - {x}, b - {f(x)}, f);
    } else {
      assert b == {};
    }
  }

  lemma CellInFrame(w: nat, frame: seq<bv8>, v: nat) returns (x: nat, y: nat)
    requires Width(w) && v in Cells(w, frame)
    ensures x < w && y < w && CellAt(x, y, w) == v
  {
    hide Rest, Reserved, CellAt, Cells, Free, On, Index, Rank;
    StartOnPath(w);
    if v == Index(Start(w), w) {
      x, y := IndexCell(Start(w), w);
    } else {
      InFree(w, frame, v);
      FreeFrom(Start(w), w, frame, v);
      var d :| On(d, w) && Index(d, w) == v;
      x, y := IndexCell(d, w);
    }
  }

  lemma IndexCell(c: Cursor, w: nat) returns (x: nat, y: nat)
    requires On(c, w)
    ensures x < w && y < w && CellAt(x, y, w) == Index(c, w)
  {
    x, y := c.x, c.y;
  }

  lemma InFree(w: nat, frame: seq<bv8>, v: nat)
    requires Width(w) && v in Cells(w, frame) && On(Start(w), w) && v != Index(Start(w), w)
    ensures v in Free(Start(w), w, frame)
  {
    hide Reserved, Index;
    var rest := Rest(Start(w), w, frame);
    assert Cells(w, frame) == [Index(Start(w), w)] + rest;
    assert v in rest;
    hide Rest;
  }

  function Place(w: nat): ((int, int)) -> int {
    (m: (int, int)) => if m.0 >= 0 && m.1 >= 0 then CellAt(m.0, m.1, w) else -1
  }

  /** The free modules of a drawn frame are exactly enough for the codewords of the version
      and the remainder bits. */
  lemma BlankCells(version: nat, frame: seq<bv8>)
    requires 1 <= version <= VERSION_MAX && Blank(version, frame)
    ensures Width(Side(version)) && |Cells(Side(version), frame)| == 8 * Words(version) + Remainder(version)
  {
    hide Words, Remainder, Drawn, CellAt, Times, Cells, Reserved, Blank, Span;
    var w := Side(version);
    BlankSuitable(version, frame);
    hide Suitable;
    PlacementExact(w, frame);
    CellsDistinct(w, frame);
    var cells := Cells(w, frame);
    DistinctSize(cells);
    FreeCount(version);
    var free, places := FreeSet(version), Elements(cells);
    forall m | m in free ensures Place(w)(m) in places {
      BlankReserves(version, frame, m.0, m.1);
    }
    forall m, n | m in free && n in free && Place(w)(m) == Place(w)(n) ensures m == n {
      SamePlace(w, m, n);
    }
    forall v | v in places ensures exists m :: m in free && Place(w)(m) == v {
      var x, y := CellInFrame(w, frame, v);
      BlankReserves(version, frame, x, y);
      assert (x, y) in free && Place(w)((x, y)) == v;
    }
    BijectionSize(free, places, Place(w));
  }

  lemma SamePlace(w: nat, m: (int, int), n: (int, int))
    requires 0 <= m.0 < w && 0 <= m.1 && 0 <= n.0 < w && 0 <= n.1 && Place(w)(m) == Place(w)(n)
    ensures m == n
  {
    SameQuotient(m.1, m.0, n.1, n.0, w);
  }

  // ----- reading a message from the blocks of a frame -----

  function ToBytes(s: seq<bv8>): seq<byte> {
    seq(|s|, i requires 0 <= i < |s| => s[i] as int)
  }

  function FromBytes(s: seq<byte>): seq<bv8> {
    seq(|s|, i requires 0 <= i < |s| => s[i] as bv8)
  }

  lemma BytesKept(s: seq<byte>)
    ensures ToBytes(FromBytes(s)) == s
  {
    forall i | 0 <= i < |s| ensures ToBytes(FromBytes(s))[i] == s[i] {
      ByteKept(s[i]);
    }
  }

  /** The byte, counted up to. */
  function CountTo(b: byte): (v: bv8)
    ensures v as int == b
  {
    if b == 0 then 0
    else
      OneMore(CountTo(b - 1));
      CountTo(b - 1) + 1
  }

  lemma OneMore(v: bv8)
    requires v as int < 255
    ensures (v + 1) as int == v as int + 1
  {
  }

  lemma ByteKept(b: byte)
    ensures (b as bv8) as int == b
  {
    var v := CountTo(b);
    assert (v as int) as bv8 == v;
  }

  /** The frame has the cells of all codewords of the block structure. */
  predicate Roomy(s: Spec, frame: seq<bv8>, cells: seq<nat>) {
    8 * (s.DataLength() + s.EccLength()) <= |cells| && forall k :: 0 <= k < |cells| ==> cells[k] < |frame|
  }

  /** The data of the first k blocks. */
  function ReadMessage(s: Spec, frame: seq<bv8>, cells: seq<nat>, k: nat): seq<bv8>
    requires Roomy(s, frame, cells) && k <= s.Blocks()
  {
    if k == 0 then [] else ReadMessage(s, frame, cells, k - 1) + ReadData(s, frame, cells, k - 1)
  }

  lemma {:induction false} MessageRead(s: Spec, data: seq<bv8>, frame: seq<bv8>, cells: seq<nat>, k: nat)
    requires Roomy(s, frame, cells) && k <= s.Blocks() && |data| == s.DataLength()
    requires forall row :: 0 <= row < s.Blocks() ==> ReadData(s, frame, cells, row) == DataBlock(s, data, row)
    ensures s.DataStart(k) <= |data| && ReadMessage(s, frame, cells, k) == data[..s.DataStart(k)]
    decreases k
  {
    hide ReadData, Times, DataBlock;
    if k > 0 {
      MessageRead(s, data, frame, cells, k - 1);
      BlockFollows(s, data, k - 1);
    } else {
      StartZero(s);
    }
  }

  lemma BlockFollows(s: Spec, data: seq<bv8>, k: nat)
    requires k < s.Blocks() && |data| == s.DataLength()
    ensures s.DataStart(k) <= s.DataStart(k + 1) <= |data|
    ensures data[..s.DataStart(k)] + DataBlock(s, data, k) == data[..s.DataStart(k + 1)]
  {
    hide Times;
    Starts(s, k);
  }

  lemma StartZero(s: Spec)
    ensures s.DataStart(0) == 0
  {
  }

  /** Reading looks at the cells of the codewords only. */
  lemma SameCode(f: seq<bv8>, g: seq<bv8>, cells: seq<nat>, i: nat)
    requires |f| == |g| && 8 * i + 8 <= |cells| && forall k :: 0 <= k < |cells| ==> cells[k] < |f| && f[cells[k]] == g[cells[k]]
    ensures ReadCode(f, cells, i) == ReadCode(g, cells, i)
  {
    hide FromBits, Low;
    assert seq(8, j requires 0 <= j < 8 => Low(f[cells[8 * i + j]])) == seq(8, j requires 0 <= j < 8 => Low(g[cells[8 * i + j]]));
  }

  lemma SameBlock(s: Spec, f: seq<bv8>, g: seq<bv8>, cells: seq<nat>, row: nat)
    requires |f| == |g| && Roomy(s, f, cells) && row < s.Blocks()
    requires forall k :: 0 <= k < |cells| ==> f[cells[k]] == g[cells[k]]
    ensures ReadData(s, f, cells, row) == ReadData(s, g, cells, row) && ReadBlock(s, f, cells, row) == ReadBlock(s, g, cells, row)
  {
    hide ReadCode, Times, Position;
    forall i: nat | i < s.DataLength() + s.EccLength() ensures ReadCode(f, cells, i) == ReadCode(g, cells, i) {
      SameCode(f, g, cells, i);
    }
    assert ReadData(s, f, cells, row) == ReadData(s, g, cells, row);
    assert ReadEcc(s, f, cells, row) == ReadEcc(s, g, cells, row);
  }

  // ----- the finished symbol -----

  /** The symbol after the mask is taken away. */
  function Plain(version: nat, mask: nat, symbol: seq<bv8>): (r: seq<bv8>)
    ensures |r| == |symbol|
  {
    Unmasked(symbol, Side(version), mask)
  }

  lemma PlainIs(version: nat, mask: nat, symbol: seq<bv8>)
    ensures Plain(version, mask, symbol) == Masked(symbol, Side(version), mask)
  {
    UnmaskedIs(symbol, Side(version), mask);
    hide Unmasked, Masked;
  }

  /** Both copies of the format information name the mask and the level. */
  ghost predicate Formatted(version: nat, level: Level, mask: nat, symbol: seq<bv8>)
    requires 1 <= version && |symbol| == Times(Side(version), Side(version))
  {
    forall x: nat, y: nat {:trigger Pixel(symbol, Side(version), x, y)} ::
      x < Side(version) && y < Side(version) && FormatBit(Side(version), x, y).Some? ==>
        Pixel(symbol, Side(version), x, y) == FormatModule(FormatInfo(mask, level), FormatBit(Side(version), x, y).value)
  }

  /** Everything else that is drawn is as drawn. */
  ghost predicate DrawnKept(version: nat, symbol: seq<bv8>)
    requires 1 <= version && |symbol| == Times(Side(version), Side(version))
  {
    forall x: nat, y: nat {:trigger Pixel(symbol, Side(version), x, y)} ::
      x < Side(version) && y < Side(version) && Drawn(version, x, y) && FormatBit(Side(version), x, y).None? ==>
        Pixel(symbol, Side(version), x, y) == Pattern(version, x, y)
  }

  /** The blocks, read with the mask taken away in the order of the path, hold the data, each
      in a Reed-Solomon code word. */
  ghost predicate Carries(version: nat, level: Level, mask: nat, symbol: seq<bv8>, data: seq<bv8>)
    requires 1 <= version <= VERSION_MAX
  {
    var s, plain := EccSpec(version, level), Plain(version, mask, symbol);
    && Width(Side(version)) && |data| == s.DataLength()
    && var cells := Cells(Side(version), plain);
       && Roomy(s, plain, cells)
       && (forall row :: 0 <= row < s.Blocks() ==> Holds(s, data, plain, cells, row))
       && ReadMessage(s, plain, cells, s.Blocks()) == data
  }

  lemma SameCells(w: nat, f: seq<bv8>, g: seq<bv8>)
    requires Width(w) && SameFlags(f, g)
    ensures Cells(w, f) == Cells(w, g)
  {
    hide Reserved, Rest, Index;
    StartOnPath(w);
    SameReserved(Start(w), w, f, g);
  }

  /** What is on the symbol where the frame was blank, filled and masked. */
  ghost predicate Finished(version: nat, level: Level, mask: nat, filled: seq<bv8>, symbol: seq<bv8>)
    requires 1 <= version
  {
    var w := Side(version);
    && |filled| == |symbol| == Times(w, w)
    && forall a: nat, b: nat {:trigger Pixel(symbol, w, a, b)} :: a < w && b < w ==>
         Pixel(symbol, w, a, b) ==
         WithFormat(FormatInfo(mask, level), 15, FormatBit(w, a, b), Pixel(Masked(filled, w, mask), w, a, b))
  }

  lemma FormatIsDrawn(version: nat, x: nat, y: nat)
    requires 1 <= version && x < Side(version) && y < Side(version) && FormatBit(Side(version), x, y).Some?
    ensures Drawn(version, x, y) && FormatBit(Side(version), x, y).value < 15
  {
  }

  lemma FormatIsFlagged(format: nat, k: nat)
    ensures Kept(FormatModule(format, k))
  {
    hide Shifted;
  }

  /** Position k of the symbol: its flag, and its module with the mask taken away. */
  lemma FinishedAt(version: nat, level: Level, mask: nat, blank: seq<bv8>, filled: seq<bv8>, symbol: seq<bv8>, x: nat, y: nat)
    requires 1 <= version <= VERSION_MAX && Blank(version, blank) && SameFlags(blank, filled)
    requires Finished(version, level, mask, filled, symbol) && x < Side(version) && y < Side(version)
    ensures
      var v := CellAt(x, y, Side(version));
      && v < |symbol| && (Reserved(symbol, v) <==> Reserved(blank, v))
      && (!Reserved(blank, v) ==> Plain(version, mask, symbol)[v] == filled[v])
      && (Reserved(blank, v) && FormatBit(Side(version), x, y).None? ==> symbol[v] == filled[v])
  {
    hide Plain, Times, CellAt, MaskAt, Masked, FormatInfo, FormatModule, FormatBit, Drawn, Pattern, Shifted, MaskedModule, Blank, Side, WithFormat;
    var w := Side(version);
    SideAtLeast(version);
    var v := CellAt(x, y, w);
    CellBelow(x, y, w);
    BlankReserves(version, blank, x, y);
    assert Pixel(symbol, w, x, y) == symbol[v];
    var on := MaskAt(mask, w, v);
    MaskedAt(filled, w, mask, v);
    MaskedAt(symbol, w, mask, v);
    PlainIs(version, mask, symbol);
    assert Pixel(Masked(filled, w, mask), w, x, y) == MaskedModule(filled[v], on);
    if FormatBit(w, x, y).Some? {
      FormatIsDrawn(version, x, y);
    }
    ModuleFinished(FormatInfo(mask, level), FormatBit(w, x, y), filled[v], on);
  }

  lemma ModuleFinished(format: nat, bit: Option<nat>, m: bv8, on: bool)
    requires bit.Some? ==> bit.value < 15 && m & 0x80 != 0
    ensures
      var p := WithFormat(format, 15, bit, MaskedModule(m, on));
      && (p & 0x80 != 0 <==> m & 0x80 != 0) && (m & 0x80 == 0 ==> MaskedModule(p, on) == m)
      && (m & 0x80 != 0 && bit.None? ==> p == m)
  {
    hide Shifted, FormatModule, MaskedModule;
    MaskedTwice(m, on);
    if bit.Some? {
      FormatIsFlagged(format, bit.value);
    }
  }

  lemma FinishedFlags(version: nat, level: Level, mask: nat, blank: seq<bv8>, filled: seq<bv8>, symbol: seq<bv8>)
    requires 1 <= version <= VERSION_MAX && Blank(version, blank) && SameFlags(blank, filled)
    requires Finished(version, level, mask, filled, symbol)
    ensures SameFlags(blank, Plain(version, mask, symbol))
  {
    hide Plain, Times, CellAt, Masked, Blank, Finished, Side;
    SideAtLeast(version);
    SameLength(version, level, mask, blank, filled, symbol);
    MaskUndone(symbol, Side(version), mask);
    PlainIs(version, mask, symbol);
    forall v: nat ensures Reserved(blank, v) <==> Reserved(symbol, v) {
      if v < |blank| {
        var x, y := CellOf(v, Side(version), Side(version));
        FinishedAt(version, level, mask, blank, filled, symbol, x, y);
      }
    }
  }

  lemma SameLength(version: nat, level: Level, mask: nat, blank: seq<bv8>, filled: seq<bv8>, symbol: seq<bv8>)
    requires 1 <= version <= VERSION_MAX && Blank(version, blank) && Finished(version, level, mask, filled, symbol)
    ensures |blank| == |symbol| == |filled| == Times(Side(version), Side(version)) && Side(version) > 0
  {
  }

  /** Every index of the first h rows belongs to a module. */
  lemma {:induction false} CellOf(v: nat, w: nat, h: nat) returns (x: nat, y: nat)
    requires v < Times(h, w)
    ensures x < w && y < h && CellAt(x, y, w) == v
    decreases h
  {
    if v < Times(h - 1, w) {
      x, y := CellOf(v, w, h - 1);
    } else {
      x, y := v - Times(h - 1, w), h - 1;
    }
  }

  /** Masking and the format information leave every codeword to be read. */
  lemma FinishedCarries(version: nat, level: Level, mask: nat, blank: seq<bv8>, filled: seq<bv8>, symbol: seq<bv8>, data: seq<bv8>)
    requires 1 <= version <= VERSION_MAX && Blank(version, blank) && SameFlags(blank, filled)
    requires Finished(version, level, mask, filled, symbol)
    requires |data| == EccSpec(version, level).DataLength()
    requires Width(Side(version)) && Roomy(EccSpec(version, level), filled, Cells(Side(version), blank))
    requires forall row :: 0 <= row < EccSpec(version, level).Blocks() ==>
               Holds(EccSpec(version, level), data, filled, Cells(Side(version), blank), row)
    ensures Carries(version, level, mask, symbol, data)
  {
    hide Plain, Times, CellAt, Masked, Blank, Finished, Side, Cells, EccSpec, ReadData, ReadBlock, DataBlock, Codeword, SameFlags;
    var w, s, plain := Side(version), EccSpec(version, level), Plain(version, mask, symbol);
    FinishedFlags(version, level, mask, blank, filled, symbol);
    SameCells(w, blank, plain);
    var cells := Cells(w, blank);
    SameLength(version, level, mask, blank, filled, symbol);
    CellsKept(version, level, mask, blank, filled, symbol);
    forall row | 0 <= row < s.Blocks()
      ensures Holds(s, data, plain, cells, row) && ReadData(s, plain, cells, row) == DataBlock(s, data, row)
    {
      assert Holds(s, data, filled, cells, row);
      SameBlock(s, filled, plain, cells, row);
    }
    MessageRead(s, data, plain, cells, s.Blocks());
    WholeMessage(s, data);
  }

  lemma WholeMessage(s: Spec, data: seq<bv8>)
    requires |data| == s.DataLength()
    ensures data[..s.DataStart(s.Blocks())] == data
  {
    if s.Blocks() > 0 {
      Starts(s, 0);
    }
  }

  lemma CellsKept(version: nat, level: Level, mask: nat, blank: seq<bv8>, filled: seq<bv8>, symbol: seq<bv8>)
    requires 1 <= version <= VERSION_MAX && Blank(version, blank) && SameFlags(blank, filled)
    requires Finished(version, level, mask, filled, symbol) && Width(Side(version))
    ensures
      var cells, plain := Cells(Side(version), blank), Plain(version, mask, symbol);
      |plain| == |filled| && forall k :: 0 <= k < |cells| ==> cells[k] < |plain| && plain[cells[k]] == filled[cells[k]]
  {
    hide Plain, Times, CellAt, Masked, Blank, Finished, Side, Cells, SameFlags, Drawn;
    var w := Side(version);
    SameLength(version, level, mask, blank, filled, symbol);
    BlankSuitable(version, blank);
    PlacementExact(w, blank);
    var cells := Cells(w, blank);
    forall k | 0 <= k < |cells|
      ensures cells[k] < |symbol| && Plain(version, mask, symbol)[cells[k]] == filled[cells[k]]
    {
      var x, y := CellInFrame(w, blank, cells[k]);
      FinishedAt(version, level, mask, blank, filled, symbol, x, y);
    }
  }

  lemma FinishedDrawn(version: nat, level: Level, mask: nat, blank: seq<bv8>, filled: seq<bv8>, symbol: seq<bv8>)
    requires 1 <= version <= VERSION_MAX && Blank(version, blank) && SameFlags(blank, filled)
    requires Finished(version, level, mask, filled, symbol)
    requires Width(Side(version)) && forall v :: 0 <= v < |blank| && v !in Cells(Side(version), blank) ==> filled[v] == blank[v]
    ensures |symbol| == Times(Side(version), Side(version))
    ensures Formatted(version, level, mask, symbol) && DrawnKept(version, symbol)
  {
    hide Times, CellAt, Masked, Side, Cells, SameFlags, Drawn, Pattern, FormatBit, FormatModule, FormatInfo, Blank;
    var w := Side(version);
    SideAtLeast(version);
    SameLength(version, level, mask, blank, filled, symbol);
    forall x: nat, y: nat {:trigger Pixel(symbol, w, x, y)} | x < w && y < w
      ensures FormatBit(w, x, y).Some? ==>
                Pixel(symbol, w, x, y) == FormatModule(FormatInfo(mask, level), FormatBit(w, x, y).value)
      ensures Drawn(version, x, y) && FormatBit(w, x, y).None? ==> Pixel(symbol, w, x, y) == Pattern(version, x, y)
    {
      if FormatBit(w, x, y).Some? {
        FormatIsDrawn(version, x, y);
      } else if Drawn(version, x, y) {
        DrawnUnchanged(version, blank, x, y);
        FinishedAt(version, level, mask, blank, filled, symbol, x, y);
      }
    }
  }

  /** A drawn module is none of the cells. */
  lemma DrawnUnchanged(version: nat, blank: seq<bv8>, x: nat, y: nat)
    requires 1 <= version <= VERSION_MAX && Blank(version, blank) && x < Side(version) && y < Side(version)
    requires Drawn(version, x, y)
    ensures Width(Side(version)) && CellAt(x, y, Side(version)) !in Cells(Side(version), blank)
    ensures Reserved(blank, CellAt(x, y, Side(version)))
    ensures CellAt(x, y, Side(version)) < |blank| && blank[CellAt(x, y, Side(version))] == Pattern(version, x, y)
  {
    hide Times, CellAt, Side, Cells, Drawn, Pattern;
    var w := Side(version);
    BlankReserves(version, blank, x, y);
    BlankSuitable(version, blank);
    PlacementExact(w, blank);
    CellBelow(x, y, w);
    assert Pixel(blank, w, x, y) == Pattern(version, x, y);
  }

  /** A complete symbol for these entries: its patterns, its format information, and the
      padded stream of the entries in its blocks. */
  ghost predicate Symbol(version: nat, level: Level, mask: nat, entries: seq<Entry>, symbol: seq<bv8>)
    requires 1 <= version <= VERSION_MAX && AllProper(entries)
  {
    && |symbol| == Times(Side(version), Side(version))
    && Formatted(version, level, mask, symbol) && DrawnKept(version, symbol)
    && var stream := QrInput.Stream(entries, version);
       && |stream| <= 8 * DataLength(version, level)
       && exists bytes: seq<byte> ::
            && |bytes| == DataLength(version, level) && Filled(bytes, stream)
            && Carries(version, level, mask, symbol, FromBytes(bytes))
  }

  // ----- the format area -----

  lemma FormatTimed(w: nat, x: nat, y: nat)
    requires w >= 21 && x < w && y < w && FormatBit(w, x, y).Some?
    ensures Timed(w, x, y) == 0x84
    ensures (x == 8 && y != w - 8 && (y < 9 || w - 8 < y)) || (y == 8 && (x < 8 || w - 8 <= x))
  {
  }

  lemma FormatPattern(version: nat, x: nat, y: nat)
    requires 1 <= version <= VERSION_MAX && x < Side(version) && y < Side(version) && FormatBit(Side(version), x, y).Some?
    ensures Pattern(version, x, y) == 0x84
  {
    hide Centre, Near, Timed, QrDraw.Offset, Markers, Shifted, VersionPattern, Ring, FormatBit;
    FormatTimed(Side(version), x, y);
    NearInside(version, x);
    NearInside(version, y);
  }

  /** The modules for the format information are as drawn: reserved and light. */
  ghost predicate FormatFree(version: nat, s: seq<bv8>)
    requires 1 <= version
  {
    && |s| == Times(Side(version), Side(version))
    && forall x: nat, y: nat {:trigger Pixel(s, Side(version), x, y)} ::
         x < Side(version) && y < Side(version) && FormatBit(Side(version), x, y).Some? ==> Pixel(s, Side(version), x, y) == 0x84
  }

  lemma FilledFormat(version: nat, blank: seq<bv8>, filled: seq<bv8>)
    requires 1 <= version <= VERSION_MAX && Blank(version, blank) && |filled| == |blank|
    requires Width(Side(version)) && forall v :: 0 <= v < |blank| && v !in Cells(Side(version), blank) ==> filled[v] == blank[v]
    ensures FormatFree(version, filled)
  {
    hide Times, CellAt, Side, Cells, Drawn, Pattern, FormatBit, Blank;
    var w := Side(version);
    SideAtLeast(version);
    BlankLength(version, blank);
    forall x: nat, y: nat {:trigger Pixel(filled, w, x, y)} | x < w && y < w && FormatBit(w, x, y).Some?
      ensures Pixel(filled, w, x, y) == 0x84
    {
      FormatIsDrawn(version, x, y);
      DrawnUnchanged(version, blank, x, y);
      FormatPattern(version, x, y);
    }
  }

  lemma BlankLength(version: nat, blank: seq<bv8>)
    requires Blank(version, blank)
    ensures |blank| == Times(Side(version), Side(version))
  {
  }

  lemma LightModule(m: bv8)
    requires m == 0x84
    ensures !Dark(m) && m & 0x80 != 0
  {
  }

  lemma FormatScores(version: nat, level: Level, filled: seq<bv8>, mask: nat)
    requires 1 <= version && FormatFree(version, filled)
    ensures Side(version) >= 21 && |filled| == Times(Side(version), Side(version)) > 0
    ensures Score(filled, Side(version), mask, level) == Demerits(MaskedSymbol(filled, Side(version), mask, level), Side(version))
  {
    hide Times, Side, FormatBit, Score, Demerits, MaskedSymbol, Pixel, Dark;
    var w := Side(version);
    SideAtLeast(version);
    FrameNotEmpty(w);
    LightModule(0x84);
    ScoreExact(filled, w, mask, level);
  }

  lemma FrameNotEmpty(w: nat)
    requires w > 0
    ensures Times(w, w) > 0
  {
  }

  // ----- the symbol under another mask -----

  /** The mask taken away and another one put in its place, with its format information. */
  function Remasked(version: nat, level: Level, mask: nat, n: nat, symbol: seq<bv8>): (r: seq<bv8>)
    requires 1 <= version && Side(version) >= 21 && |symbol| == Times(Side(version), Side(version))
    ensures |r| == |symbol|
  {
    MaskedSymbol(Plain(version, mask, symbol), Side(version), n, level)
  }

  lemma RemaskedIs(version: nat, level: Level, mask: nat, n: nat, filled: seq<bv8>)
    requires 1 <= version && Side(version) >= 21 && |filled| == Times(Side(version), Side(version))
    ensures
      var w := Side(version);
      Remasked(version, level, mask, n, MaskedSymbol(filled, w, mask, level)) == MaskedSymbol(filled, w, n, level)
  {
    hide Plain, Times, Side, CellAt, FormatBit, FormatInfo, Masked, MaskAt, MaskedModule, WithInfo, WithFormat;
    var w := Side(version);
    var symbol := MaskedSymbol(filled, w, mask, level);
    var plain := Plain(version, mask, symbol);
    PlainIs(version, mask, symbol);
    var a, b := MaskedSymbol(plain, w, n, level), MaskedSymbol(filled, w, n, level);
    forall k | 0 <= k < |filled| ensures a[k] == b[k] {
      var bit := InfoOf(filled, w, mask, level, k);
      var same := InfoOf(filled, w, n, level, k);
      var again := InfoOf(plain, w, n, level, k);
      MaskedAt(symbol, w, mask, k);
      MaskedTwice(filled[k], MaskAt(mask, w, k));
      InfoOver(FormatInfo(mask, level), FormatInfo(n, level), bit, filled[k], MaskAt(mask, w, k), MaskAt(n, w, k));
    }
    assert a == b;
  }

  lemma InfoOf(s: seq<bv8>, w: nat, mask: nat, level: Level, k: nat) returns (bit: Option<nat>)
    requires w >= 21 && |s| == Times(w, w) && k < |s|
    ensures k % w < w && k / w < w && bit == FormatBit(w, k % w, k / w) && (bit.Some? ==> bit.value < 15)
    ensures MaskedSymbol(s, w, mask, level)[k] ==
              WithFormat(FormatInfo(mask, level), 15, bit, MaskedModule(s[k], MaskAt(mask, w, k)))
  {
    hide Times, CellAt, FormatInfo, Masked, MaskAt, MaskedModule, WithInfo, WithFormat;
    InfoAt(Masked(s, w, mask), w, FormatInfo(mask, level), 15, k);
    MaskedAt(s, w, mask, k);
    bit := FormatBit(w, k % w, k / w);
  }

  lemma InfoOver(format: nat, other: nat, bit: Option<nat>, m: bv8, on: bool, onOther: bool)
    requires bit.Some? ==> bit.value < 15
    ensures
      var was := MaskedModule(WithFormat(format, 15, bit, MaskedModule(m, on)), on);
      WithFormat(other, 15, bit, MaskedModule(was, onOther)) == WithFormat(other, 15, bit, MaskedModule(m, onOther))
  {
    hide MaskedModule, FormatModule;
    MaskedTwice(m, on);
  }

  /** No other mask gives a symbol with fewer demerits, and no lower one a symbol with as few. */
  ghost predicate BestMasked(version: nat, level: Level, mask: nat, symbol: seq<bv8>)
    requires 1 <= version && Side(version) >= 21 && |symbol| == Times(Side(version), Side(version)) > 0
  {
    var w := Side(version);
    && mask < 8
    && forall n: nat {:trigger Remasked(version, level, mask, n, symbol)} :: n < 8 ==>
         Demerits(symbol, w) <= Demerits(Remasked(version, level, mask, n, symbol), w)
         && (n < mask ==> Demerits(symbol, w) < Demerits(Remasked(version, level, mask, n, symbol), w))
  }

  lemma BestIs(version: nat, level: Level, mask: nat, filled: seq<bv8>)
    requires 1 <= version && FormatFree(version, filled)
    requires Side(version) >= 21 && |filled| == Times(Side(version), Side(version)) > 0 && Best(filled, Side(version), mask, level)
    ensures BestMasked(version, level, mask, MaskedSymbol(filled, Side(version), mask, level))
  {
    hide Times, Side, FormatFree, Score, Demerits, MaskedSymbol, Remasked;
    var w := Side(version);
    var symbol := MaskedSymbol(filled, w, mask, level);
    FormatScores(version, level, filled, mask);
    forall n: nat {:trigger Remasked(version, level, mask, n, symbol)} | n < 8
      ensures Demerits(symbol, w) <= Demerits(Remasked(version, level, mask, n, symbol), w)
      ensures n < mask ==> Demerits(symbol, w) < Demerits(Remasked(version, level, mask, n, symbol), w)
    {
      RemaskedIs(version, level, mask, n, filled);
      FormatScores(version, level, filled, n);
      assert Score(filled, w, mask, level) <= Score(filled, w, n, level);
    }
  }

  // ----- no mask -----

  /** The number that stands for no mask: no module is turned over, the format area stays light. */
  const UNMASKED := 8

  lemma {:induction false} ShiftedZero(k: nat)
    ensures Shifted(0, k) == 0
    decreases k
  {
    if k > 0 {
      ShiftedZero(k - 1);
    }
  }

  lemma NoMask(w: nat, k: nat, m: bv8)
    requires w > 0
    ensures MaskedModule(m, MaskAt(UNMASKED, w, k)) == m
  {
  }

  lemma UnmaskedFinished(version: nat, level: Level, filled: seq<bv8>)
    requires 1 <= version && FormatFree(version, filled)
    ensures Finished(version, level, UNMASKED, filled, filled)
  {
    hide Times, Side, CellAt, FormatBit, MaskAt, MaskedModule, Shifted, Masked;
    var w := Side(version);
    SideAtLeast(version);
    assert FormatInfo(UNMASKED, level) == 0;
    hide FormatInfo;
    forall a: nat, b: nat {:trigger Pixel(filled, w, a, b)} | a < w && b < w
      ensures Pixel(filled, w, a, b) == WithFormat(0, 15, FormatBit(w, a, b), Pixel(Masked(filled, w, UNMASKED), w, a, b))
    {
      var k := CellAt(a, b, w);
      CellBelow(a, b, w);
      MaskedAt(filled, w, UNMASKED, k);
      NoMask(w, k, filled[k]);
      if FormatBit(w, a, b).Some? {
        ShiftedZero(FormatBit(w, a, b).value);
      }
    }
  }

  /** QRcode_encodeMask: a mask from 0 on is used as given, -2 leaves the frame unmasked, and any
      other negative number asks for the best mask. */
  method EncodeSymbol(input: Input, mask: int, encoder: Encoder) returns (r: Option<array<bv8>>, ghost used: nat)
    requires input.Valid() && encoder.Valid()
    modifies input`version, encoder, encoder.alpha, encoder.aindex, encoder.generator, encoder.generatorInitialized
    ensures input.Valid() && encoder.Valid() && old(input.version) <= input.version && 1 <= input.version
    ensures r.Some? <==> mask < 8 && |QrInput.Stream(input.entries, input.version)| <= 8 * DataLength(input.version, input.level)
    ensures r.Some? ==> Symbol(input.version, input.level, used, input.entries, r.value[..])
    ensures mask >= 0 ==> used == mask
    ensures mask == -2 ==> used == UNMASKED
    ensures r.Some? && mask < 0 && mask != -2 ==>
              && Side(input.version) >= 21 && Times(Side(input.version), Side(input.version)) > 0
              && BestMasked(input.version, input.level, used, r.value[..])
  {
    hide Blank, Finished, Carries, Cells, Suitable, Holds, SameFlags, EccSpec, Times, Side, DataLength, QrInput.Stream,
      Formatted, DrawnKept, Words, Remainder, FormatFree, Best, BestMasked, MaskedSymbol;
    used := if mask >= 0 then mask else UNMASKED;
    var bytes := input.GetByteStream();
    if bytes.None? {
      return None, used;
    }
    ghost var was := bytes.value[..];
    var version, level := input.version, input.level;
    var spec, w := EccSpec(version, level), Side(version);
    EccSpecExact(version, level);
    SideAtLeast(version);
    var data := FromBytes(bytes.value[..]);
    var frame := CreateFrame(version);
    ghost var blank := frame[..];
    assert Blank(version, blank) by { IsBlank(version, blank); }
    BlankSuitable(version, blank);
    BlankCells(version, blank);
    var ok := EncodeMask(spec, data, encoder, w, frame, QrPattern.Remainder(version));
    ghost var filled := frame[..];
    FilledFormat(version, blank, filled);
    FrameNotEmpty(w);
    if mask == -2 {
      r := Some(frame);
      UnmaskedFinished(version, level, filled);
    } else if mask < 0 {
      SideAtMost(version);
      var best, chosen := ChooseMask(w, frame, level);
      r, used := Some(best), chosen;
      IsFinished(version, level, used, filled);
      BestIs(version, level, used, filled);
    } else {
      r := MakeMask(w, frame, mask, level);
      if r.None? {
        return;
      }
      IsFinished(version, level, used, filled);
    }
    FinishedCarries(version, level, used, blank, filled, r.value[..], data);
    FinishedDrawn(version, level, used, blank, filled, r.value[..]);
    assert Carries(version, level, used, r.value[..], FromBytes(was));
  }

  lemma SideAtMost(version: nat)
    requires version <= VERSION_MAX
    ensures Side(version) <= WIDTH_MAX
  {
  }

  lemma IsBlank(version: nat, frame: seq<bv8>)
    requires |frame| == Times(Side(version), Side(version))
    requires forall a: nat, b: nat {:trigger Pixel(frame, Side(version), a, b)} ::
               a < Side(version) && b < Side(version) ==> Pixel(frame, Side(version), a, b) == Pattern(version, a, b)
    ensures Blank(version, frame)
  {
    hide Pixel, Pattern;
  }

  lemma IsFinished(version: nat, level: Level, mask: nat, filled: seq<bv8>)
    requires 1 <= version && Side(version) >= 21 && |filled| == Times(Side(version), Side(version))
    ensures Finished(version, level, mask, filled, MaskedSymbol(filled, Side(version), mask, level))
  {
    hide WithFormat, Masked, FormatBit, FormatInfo, WithInfo, Pixel, Times, Side;
    var w := Side(version);
    forall a: nat, b: nat {:trigger Pixel(MaskedSymbol(filled, w, mask, level), w, a, b)} | a < w && b < w
      ensures Pixel(MaskedSymbol(filled, w, mask, level), w, a, b) ==
              WithFormat(FormatInfo(mask, level), 15, FormatBit(w, a, b), Pixel(Masked(filled, w, mask), w, a, b))
    {
      InfoPixel(Masked(filled, w, mask), w, FormatInfo(mask, level), 15, a, b);
    }
  }

  // ----- and back -----

  /** The format information without its low k bits, as a copy shows it. */
  function ReadFormat(symbol: seq<bv8>, w: nat, copy: nat, k: nat): nat
    requires w >= 21 && |symbol| == Times(w, w) && k <= 15
    decreases 15 - k
  {
    if k == 15 then 0
    else
      var p := FormatPlace(w, k, copy);
      2 * ReadFormat(symbol, w, copy, k + 1) + if Low(Pixel(symbol, w, p.0, p.1)) then 1 else 0
  }

  lemma FormatEnds(mask: nat, level: Level)
    ensures Shifted(FormatInfo(mask, level), 15) == 0
  {
    var v := FormatInfo(mask, level);
    assert v < 32768;
    hide FormatInfo;
    FiveShifts(v, 0);
    FiveShifts(v, 5);
    FiveShifts(v, 10);
    assert Shifted(v, 0) == v;
  }

  lemma FiveShifts(v: nat, k: nat)
    ensures Shifted(v, k + 5) == Shifted(v, k) / 32
  {
    ShiftedOnce(v, k);
    ShiftedOnce(v, k + 1);
    ShiftedOnce(v, k + 2);
    ShiftedOnce(v, k + 3);
    ShiftedOnce(v, k + 4);
  }

  lemma FormatLow(format: nat, k: nat)
    ensures Low(FormatModule(format, k)) <==> Shifted(format, k) % 2 == 1
  {
    hide Shifted;
  }

  lemma {:induction false} FormatCopied(version: nat, level: Level, mask: nat, symbol: seq<bv8>, copy: nat, k: nat)
    requires 1 <= version && |symbol| == Times(Side(version), Side(version)) && Formatted(version, level, mask, symbol)
    requires k <= 15
    ensures Side(version) >= 21
    ensures ReadFormat(symbol, Side(version), copy, k) == Shifted(FormatInfo(mask, level), k)
    decreases 15 - k
  {
    hide Times, Pixel, FormatInfo, FormatModule, Low, FormatBit, Shifted;
    var w, info := Side(version), FormatInfo(mask, level);
    SideAtLeast(version);
    if k == 15 {
      FormatEnds(mask, level);
    } else {
      FormatCopied(version, level, mask, symbol, copy, k + 1);
      var p := FormatPlace(w, k, copy);
      FormatBitIs(w, p.0, p.1, k);
      assert Pixel(symbol, w, p.0, p.1) == FormatModule(info, k);
      FormatLow(info, k);
      ShiftedOnce(info, k);
    }
  }

  /** Either copy of the format information names the level and the mask. */
  lemma FormatNames(version: nat, level: Level, mask: nat, symbol: seq<bv8>, copy: nat)
    requires 1 <= version && |symbol| == Times(Side(version), Side(version)) && Formatted(version, level, mask, symbol)
    requires mask < 8
    ensures Side(version) >= 21
    ensures FormatData(ReadFormat(symbol, Side(version), copy, 0)) == 8 * LevelBits(level) + mask
  {
    hide Times, Formatted, FormatInfo, FormatData;
    FormatCopied(version, level, mask, symbol, copy, 0);
    ShiftedOnce(FormatInfo(mask, level), 0);
    FormatRead(mask, level);
  }

  /** Reading a symbol: the mask and level from the format information, then the blocks, then
      the segments. What was put in comes out. */
  lemma SymbolDecodes(version: nat, level: Level, mask: nat, entries: seq<Entry>, symbol: seq<bv8>)
    requires 1 <= version <= VERSION_MAX && AllProper(entries) && forall i :: 0 <= i < |entries| ==> Readable(entries[i])
    requires Symbol(version, level, mask, entries, symbol)
    ensures
      var s, plain := EccSpec(version, level), Plain(version, mask, symbol);
      && Width(Side(version)) && Roomy(s, plain, Cells(Side(version), plain))
      && var r := ReadAll(BytesBits(ToBytes(ReadMessage(s, plain, Cells(Side(version), plain), s.Blocks()))), version);
         r.Some? && Content(r.value) == Content(entries)
  {
    hide Plain, Cells, EccSpec, Times, Side, DataLength, QrInput.Stream, Formatted, DrawnKept, Holds, ReadMessage;
    var stream := QrInput.Stream(entries, version);
    var bytes: seq<byte> :|
      && |bytes| == DataLength(version, level) && Filled(bytes, stream)
      && Carries(version, level, mask, symbol, FromBytes(bytes));
    BytesKept(bytes);
    StreamDecodes(entries, version, bytes);
  }

  /** A damaged block: if no more than half as many codewords of it are wrong as it has check
      symbols, no other code word is as near as that, so the block can be recovered. */
  lemma DamageTolerated(version: nat, level: Level, mask: nat, symbol: seq<bv8>, data: seq<bv8>, row: nat,
                        damaged: seq<bv8>, other: seq<bv8>)
    requires 1 <= version <= VERSION_MAX && Carries(version, level, mask, symbol, data)
    requires row < EccSpec(version, level).Blocks()
    requires |damaged| == |other| == EccSpec(version, level).BlockLength(row) + EccSpec(version, level).e
    requires Codeword(other, EccSpec(version, level).e)
    requires
      var s, plain := EccSpec(version, level), Plain(version, mask, symbol);
      && 2 * |Differences(damaged, other)| <= s.e
      && |damaged| == |ReadBlock(s, plain, Cells(Side(version), plain), row)|
      && 2 * |Differences(damaged, ReadBlock(s, plain, Cells(Side(version), plain), row))| <= s.e
    ensures other[..EccSpec(version, level).BlockLength(row)] == DataBlock(EccSpec(version, level), data, row)
  {
    hide Plain, Codeword, Differences, EccSpec, Cells, ReadEcc, DataBlock, Side, ReadMessage;
    var s, plain := EccSpec(version, level), Plain(version, mask, symbol);
    var cells := Cells(Side(version), plain);
    EccSpecExact(version, level);
    assert Holds(s, data, plain, cells, row);
    UniqueDecoding(damaged, other, ReadBlock(s, plain, cells, row), s.e);
  }
}
