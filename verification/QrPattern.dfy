/** The modules of a symbol that are not for data (qrcode/qrspec.c:54-96, 259-345, 426-507):
    which they are, and that the others are exactly as many as the codewords need. */
module QrPattern {
  import opened Products
  import opened QrCapacity
  import opened QrFill

  /** QRspec_getWidth: the widths of the capacity table. */
  function Side(version: nat): nat {
    4 * version + 17
  }

  /** QRspec_getRemainder */
  function Remainder(version: nat): nat {
    if version < 2 then 0
    else if version <= 6 then 7
    else if version <= 13 then 0
    else if version <= 20 then 3
    else if version <= 27 then 4
    else if version <= 34 then 3
    else 0
  }

  // ----- alignment patterns -----

  /** The first and second columns of alignmentPattern. */
  function Alignment(version: nat): (int, int) {
    match version
    case 2 => (18, 0) case 3 => (22, 0) case 4 => (26, 0) case 5 => (30, 0) case 6 => (34, 0)
    case 7 => (22, 38) case 8 => (24, 42) case 9 => (26, 46) case 10 => (28, 50) case 11 => (30, 54)
    case 12 => (32, 58) case 13 => (34, 62) case 14 => (26, 46) case 15 => (26, 48) case 16 => (26, 50)
    case 17 => (30, 54) case 18 => (30, 56) case 19 => (30, 58) case 20 => (34, 62) case 21 => (28, 50)
    case 22 => (26, 50) case 23 => (30, 54) case 24 => (28, 54) case 25 => (32, 58) case 26 => (30, 58)
    case 27 => (34, 62) case 28 => (26, 50) case 29 => (30, 54) case 30 => (26, 52) case 31 => (30, 56)
    case 32 => (34, 60) case 33 => (30, 58) case 34 => (34, 62) case 35 => (30, 54) case 36 => (24, 50)
    case 37 => (28, 54) case 38 => (32, 58) case 39 => (26, 54) case 40 => (30, 58)
    case _ => (0, 0)
  }

  function Gap(version: nat): int {
    Alignment(version).1 - Alignment(version).0
  }

  /** The number of markers in a row, without the ones on the timing patterns. */
  function Markers(version: nat): nat {
    if version < 2 then 0
    else if Gap(version) <= 0 || Side(version) < Alignment(version).0 then 1
    else (Side(version) - Alignment(version).0) / Gap(version) + 1
  }

  /** The column of marker i. */
  function Centre(version: nat, i: nat): int {
    Alignment(version).0 + (if Gap(version) > 0 then Times(i, Gap(version)) else 0)
  }

  /** Where the markers are: the last one 7 modules from the edge, all clear of each other
      and of the corners. */
  lemma MarkerFacts(version: nat)
    requires 2 <= version <= VERSION_MAX
    ensures 1 <= Markers(version) <= 6 && (version >= 7 <==> Markers(version) >= 2)
    ensures Alignment(version).0 >= 18
    ensures Markers(version) >= 2 ==> Gap(version) >= 16
    ensures Centre(version, Markers(version) - 1) == Side(version) - 7
  {
    if version >= 7 {
      Spacing(version);
      hide Alignment;
      DivisionIs(Side(version) - Alignment(version).0, version / 7, Gap(version), 7);
      TimesIs(Markers(version) - 1, Gap(version));
    } else {
      SingleMarker(version);
    }
  }

  lemma SingleMarker(version: nat)
    requires 2 <= version <= 6
    ensures Gap(version) <= 0 && Alignment(version).0 == Side(version) - 7
  {
  }

  lemma Spacing(version: nat)
    requires 7 <= version <= VERSION_MAX
    ensures 1 <= version / 7 <= 5 && Gap(version) >= 16 && 18 <= Alignment(version).0 <= Side(version)
    ensures Alignment(version).0 + (version / 7) * Gap(version) == Side(version) - 7
  {
    if version < 14 {
      assert version / 7 == 1;
    } else if version < 21 {
      assert version / 7 == 2;
    } else if version < 28 {
      assert version / 7 == 3;
    } else if version < 35 {
      assert version / 7 == 4;
    } else {
      assert version / 7 == 5;
    }
  }

  lemma DivisionIs(a: nat, q: nat, n: nat, r: nat)
    requires r < n && a == q * n + r
    ensures a / n == q
  {
    TimesIs(q, n);
    TimesIs(a / n, n);
    SameQuotient(q, r, a / n, a % n, n);
  }

  /** Annex E of ISO/IEC 18004: from column 6 to the last one, 7 from the edge, the centres divide
      the span; the step is the least even one that reaches far enough, all of it short of the
      first, but for version 32, where it is 26. */
  lemma SpacingExact(version: nat)
    requires 7 <= version <= VERSION_MAX
    ensures
      var first, step, steps := Alignment(version).0, Gap(version), version / 7 + 1;
      && step % 2 == 0 && first + (steps - 1) * step == Side(version) - 7
      && (if version == 32 then step == 26 else (step - 2) * steps < Side(version) - 13 <= step * steps)
  {
    hide Side;
    Spacing(version);
    SideIs(version);
    if version < 14 {
      SpacingTo13(version);
    } else if version < 21 {
      SpacingTo20(version);
    } else if version < 28 {
      SpacingTo27(version);
    } else if version < 35 {
      SpacingTo34(version);
    } else {
      SpacingTo40(version);
    }
  }

  lemma SideIs(version: nat)
    ensures Side(version) == 4 * version + 17
  {
  }

  lemma SpacingTo13(version: nat)
    requires 7 <= version <= 13
    ensures version / 7 + 1 == 2
    ensures Gap(version) % 2 == 0 && Alignment(version).0 + 1 * Gap(version) == 4 * version + 10
    ensures if version == 32 then Gap(version) == 26
            else (Gap(version) - 2) * 2 < 4 * version + 4 <= Gap(version) * 2
  {
  }

  lemma SpacingTo20(version: nat)
    requires 14 <= version <= 20
    ensures version / 7 + 1 == 3
    ensures Gap(version) % 2 == 0 && Alignment(version).0 + 2 * Gap(version) == 4 * version + 10
    ensures if version == 32 then Gap(version) == 26
            else (Gap(version) - 2) * 3 < 4 * version + 4 <= Gap(version) * 3
  {
  }

  lemma SpacingTo27(version: nat)
    requires 21 <= version <= 27
    ensures version / 7 + 1 == 4
    ensures Gap(version) % 2 == 0 && Alignment(version).0 + 3 * Gap(version) == 4 * version + 10
    ensures if version == 32 then Gap(version) == 26
            else (Gap(version) - 2) * 4 < 4 * version + 4 <= Gap(version) * 4
  {
  }

  lemma SpacingTo34(version: nat)
    requires 28 <= version <= 34
    ensures version / 7 + 1 == 5
    ensures Gap(version) % 2 == 0 && Alignment(version).0 + 4 * Gap(version) == 4 * version + 10
    ensures if version == 32 then Gap(version) == 26
            else (Gap(version) - 2) * 5 < 4 * version + 4 <= Gap(version) * 5
  {
  }

  lemma SpacingTo40(version: nat)
    requires 35 <= version <= 40
    ensures version / 7 + 1 == 6
    ensures Gap(version) % 2 == 0 && Alignment(version).0 + 5 * Gap(version) == 4 * version + 10
    ensures if version == 32 then Gap(version) == 26
            else (Gap(version) - 2) * 6 < 4 * version + 4 <= Gap(version) * 6
  {
  }

  // ----- the modules that are drawn -----

  /** x lies within two modules of one of the first k markers. */
  predicate Near(version: nat, x: int, k: nat) {
    k > 0 && (Centre(version, k - 1) - 2 <= x < Centre(version, k - 1) + 3 || Near(version, x, k - 1))
  }

  /** Finder patterns with their separators and the format information beside them, timing
      patterns, alignment patterns, version information. */
  predicate Drawn(version: nat, x: int, y: int) {
    var w, n := Side(version), Markers(version);
    || (x < 9 && y < 9) || (w - 8 <= x && y < 9) || (x < 9 && w - 8 <= y)
    || x == 6 || y == 6
    || (Near(version, x, n) && Near(version, y, n))
    || (n > 0 && 4 <= y < 9 && Near(version, x, n - 1)) || (n > 0 && 4 <= x < 9 && Near(version, y, n - 1))
    || (version >= 7 && ((x < 6 && w - 11 <= y < w - 8) || (y < 6 && w - 11 <= x < w - 8)))
  }

  // ----- counting -----

  type Module = (int, int)

  function Span(a: int, b: int): (s: set<int>)
    requires a <= b
    ensures forall x :: x in s <==> a <= x < b
    ensures |s| == b - a
    decreases b - a
  {
    if a == b then {} else Span(a, b - 1) + {b - 1}
  }

  ghost function Prod<A, B>(xs: set<A>, ys: set<B>): set<(A, B)> {
    set x, y | x in xs && y in ys :: (x, y)
  }

  lemma {:induction false} RowSize<A, B>(x: A, ys: set<B>)
    ensures |Prod({x}, ys)| == |ys|
    decreases |ys|
  {
    if y :| y in ys {
      RowSize(x, ys - {y});
      assert Prod({x}, ys) == Prod({x}, ys - {y}) + {(x, y)};
    } else {
      assert ys == {} && Prod({x}, ys) == {};
    }
  }

  lemma {:induction false} ProdSize<A, B>(xs: set<A>, ys: set<B>)
    ensures |Prod(xs, ys)| == Times(|xs|, |ys|)
    decreases |xs|
  {
    if x :| x in xs {
      ProdSize(xs - {x}, ys);
      RowSize(x, ys);
      assert Prod(xs, ys) == Prod(xs - {x}, ys) + Prod({x}, ys);
      assert Prod(xs - {x}, ys) !! Prod({x}, ys);
    } else {
      assert xs == {} && Prod(xs, ys) == {};
    }
  }

  /** The columns near the first k markers. */
  function NearSet(version: nat, k: nat): set<int> {
    if k == 0 then {} else NearSet(version, k - 1) + Span(Centre(version, k - 1) - 2, Centre(version, k - 1) + 3)
  }

  lemma {:induction false} NearSetIs(version: nat, k: nat)
    ensures forall x :: x in NearSet(version, k) <==> Near(version, x, k)
  {
    hide Centre;
    if k > 0 {
      NearSetIs(version, k - 1);
    }
  }

  lemma CentreStep(version: nat, k: nat)
    requires 2 <= version <= VERSION_MAX && k > 0 && Markers(version) >= 2
    ensures Centre(version, k) >= Centre(version, k - 1) + 16
  {
    MarkerFacts(version);
    hide Markers, Side, Alignment;
  }

  lemma {:induction false} NearRange(version: nat, k: nat)
    requires 2 <= version <= VERSION_MAX && k <= Markers(version)
    ensures forall x :: x in NearSet(version, k) ==> k > 0 && 16 <= x < Centre(version, k - 1) + 3
    ensures k > 0 ==> Centre(version, k - 1) >= 18
  {
    hide Centre, Markers;
    if k > 0 {
      NearRange(version, k - 1);
      if k > 1 {
        CentreStep(version, k - 1);
      } else {
        FirstCentre(version);
      }
    }
  }

  /** The markers are clear of each other: five columns each. */
  lemma {:induction false} NearSetSize(version: nat, k: nat)
    requires 2 <= version <= VERSION_MAX && k <= Markers(version)
    ensures |NearSet(version, k)| == 5 * k
  {
    hide Centre, Markers, Span, Near;
    if k > 0 {
      var c := Centre(version, k - 1);
      NearSetSize(version, k - 1);
      NearRange(version, k - 1);
      if k > 1 {
        CentreStep(version, k - 1);
      }
      DisjointSize(NearSet(version, k - 1), Span(c - 2, c + 3));
    }
  }

  lemma DisjointSize<T>(a: set<T>, b: set<T>)
    requires a !! b
    ensures |a + b| == |a| + |b|
  {
  }

  lemma FirstCentre(version: nat)
    requires 2 <= version <= VERSION_MAX
    ensures Centre(version, 0) >= 18
  {
    MarkerFacts(version);
    hide Markers, Side, Alignment;
  }

  // ----- the count -----

  /** The corners and the timing patterns between them. */
  ghost function Fixed(w: nat): set<Module>
    requires w >= 21
  {
    Prod(Span(0, 9), Span(0, 9)) + Prod(Span(w - 8, w), Span(0, 9)) + Prod(Span(0, 9), Span(w - 8, w))
      + Prod(Span(9, w - 8), Span(6, 7)) + Prod(Span(6, 7), Span(9, w - 8))
  }

  lemma RectSize(a: int, b: int, c: int, d: int)
    requires a <= b && c <= d
    ensures |Prod(Span(a, b), Span(c, d))| == Times(b - a, d - c)
  {
    ProdSize(Span(a, b), Span(c, d));
  }

  lemma SpansApart(a: int, b: int, c: int, d: int)
    requires a <= b <= c <= d
    ensures Span(a, b) !! Span(c, d) && Span(c, d) !! Span(a, b)
  {
  }

  lemma ProdsApart<A, B>(a: set<A>, b: set<B>, c: set<A>, d: set<B>)
    requires a !! c || b !! d
    ensures Prod(a, b) !! Prod(c, d)
  {
  }

  lemma CornersSize(w: nat)
    requires w >= 21
    ensures |Prod(Span(0, 9), Span(0, 9)) + Prod(Span(w - 8, w), Span(0, 9)) + Prod(Span(0, 9), Span(w - 8, w))| == 225
  {
    hide Span, Prod, Times;
    var low, high := Span(0, 9), Span(w - 8, w);
    RectSize(0, 9, 0, 9);
    RectSize(w - 8, w, 0, 9);
    RectSize(0, 9, w - 8, w);
    TimesIs(9, 9);
    TimesIs(8, 9);
    TimesIs(9, 8);
    SpansApart(0, 9, w - 8, w);
    ProdsApart(low, low, high, low);
    DisjointSize(Prod(low, low), Prod(high, low));
    ProdsApart(low, low, low, high);
    ProdsApart(high, low, low, high);
    DisjointSize(Prod(low, low) + Prod(high, low), Prod(low, high));
  }

  lemma FixedSize(w: nat)
    requires w >= 21
    ensures |Fixed(w)| == 225 + 2 * (w - 17)
  {
    hide Span, Prod, Times;
    var low, high, middle, six := Span(0, 9), Span(w - 8, w), Span(9, w - 8), Span(6, 7);
    var corners, t1, t2 := Prod(low, low) + Prod(high, low) + Prod(low, high), Prod(middle, six), Prod(six, middle);
    CornersSize(w);
    RectSize(9, w - 8, 6, 7);
    RectSize(6, 7, 9, w - 8);
    TimesIs(w - 17, 1);
    TimesIs(1, w - 17);
    SpansApart(0, 9, 9, w - 8);
    SpansApart(9, w - 8, w - 8, w);
    SpansApart(6, 7, 9, w - 8);
    SpansApart(6, 7, w - 8, w);
    ProdsApart(low, low, middle, six);
    ProdsApart(high, low, middle, six);
    ProdsApart(low, high, middle, six);
    DisjointSize(corners, t1);
    ProdsApart(low, low, six, middle);
    ProdsApart(high, low, six, middle);
    ProdsApart(low, high, six, middle);
    ProdsApart(middle, six, six, middle);
    DisjointSize(corners + t1, t2);
  }

  lemma FixedIs(w: nat, x: int, y: int)
    requires w >= 21
    ensures (x, y) in Fixed(w) <==>
              && 0 <= x < w && 0 <= y < w
              && ((x < 9 && y < 9) || (w - 8 <= x && y < 9) || (x < 9 && w - 8 <= y) || x == 6 || y == 6)
  {
    hide Span;
  }

  /** The rows that a marker on a timing pattern adds to it. */
  ghost function Beside(): (s: set<int>)
    ensures forall y :: y in s <==> (4 <= y < 9 && y != 6)
    ensures |s| == 4
  {
    DisjointSize(Span(4, 6), Span(7, 9));
    Span(4, 6) + Span(7, 9)
  }

  /** The alignment patterns, without what lies on the timing patterns. */
  ghost function Aligned(version: nat): set<Module> {
    var n := Markers(version);
    var edge := NearSet(version, if n == 0 then 0 else n - 1);
    Prod(NearSet(version, n), NearSet(version, n)) + Prod(edge, Beside()) + Prod(Beside(), edge)
  }

  lemma NearBeside(version: nat, k: nat)
    requires 2 <= version <= VERSION_MAX && k <= Markers(version)
    ensures NearSet(version, k) !! Beside() && Beside() !! NearSet(version, k)
  {
    hide Centre, Markers, NearSet, Beside;
    NearRange(version, k);
  }

  lemma AlignedSize(version: nat)
    requires 2 <= version <= VERSION_MAX
    ensures |Aligned(version)| == Times(5 * Markers(version), 5 * Markers(version)) + 40 * (Markers(version) - 1)
  {
    hide Centre, Beside, Markers, NearSet, Prod, Times;
    MarkerCount(version);
    var n := Markers(version);
    var all, edge, rows := NearSet(version, n), NearSet(version, n - 1), Beside();
    NearSetSize(version, n);
    NearSetSize(version, n - 1);
    NearBeside(version, n);
    NearBeside(version, n - 1);
    ProdSize(all, all);
    ProdSize(edge, rows);
    ProdSize(rows, edge);
    TimesIs(5 * (n - 1), 4);
    TimesIs(4, 5 * (n - 1));
    ProdsApart(all, all, edge, rows);
    DisjointSize(Prod(all, all), Prod(edge, rows));
    ProdsApart(all, all, rows, edge);
    ProdsApart(edge, rows, rows, edge);
    DisjointSize(Prod(all, all) + Prod(edge, rows), Prod(rows, edge));
  }

  ghost function VersionBlocks(version: nat): set<Module> {
    var w := Side(version);
    if version < 7 then {} else Prod(Span(0, 6), Span(w - 11, w - 8)) + Prod(Span(w - 11, w - 8), Span(0, 6))
  }

  lemma VersionBlocksSize(version: nat)
    ensures |VersionBlocks(version)| == if version < 7 then 0 else 36
  {
    hide Span, Prod;
    var w := Side(version);
    if version >= 7 {
      RectSize(0, 6, w - 11, w - 8);
      RectSize(w - 11, w - 8, 0, 6);
      TimesIs(6, 3);
      TimesIs(3, 6);
      SpansApart(0, 6, w - 11, w - 8);
      ProdsApart(Span(0, 6), Span(w - 11, w - 8), Span(w - 11, w - 8), Span(0, 6));
      DisjointSize(Prod(Span(0, 6), Span(w - 11, w - 8)), Prod(Span(w - 11, w - 8), Span(0, 6)));
    }
  }

  lemma AlignedIs(version: nat, x: int, y: int)
    ensures (x, y) in Aligned(version) <==>
              var n := Markers(version);
              var k := if n == 0 then 0 else n - 1;
              (Near(version, x, n) && Near(version, y, n)) || (4 <= y < 9 && y != 6 && Near(version, x, k))
              || (4 <= x < 9 && x != 6 && Near(version, y, k))
  {
    hide Centre, NearSet, Near, Markers, Beside;
    var n := Markers(version);
    NearSetIs(version, n);
    NearSetIs(version, if n == 0 then 0 else n - 1);
  }

  lemma VersionBlocksAre(version: nat, x: int, y: int)
    ensures (x, y) in VersionBlocks(version) <==>
              var w := Side(version);
              version >= 7 && ((0 <= x < 6 && w - 11 <= y < w - 8) || (0 <= y < 6 && w - 11 <= x < w - 8))
  {
    hide Span;
  }

  /** Every module of the frame that is drawn. */
  ghost function DrawnSet(version: nat): set<Module>
    requires version >= 1
  {
    Fixed(Side(version)) + Aligned(version) + VersionBlocks(version)
  }

  lemma DrawnSetIs(version: nat, x: int, y: int)
    requires 1 <= version <= VERSION_MAX
    ensures (x, y) in DrawnSet(version) <==> 0 <= x < Side(version) && 0 <= y < Side(version) && Drawn(version, x, y)
  {
    hide Centre, NearSet, Near, Markers, Fixed, Aligned, VersionBlocks;
    FixedIs(Side(version), x, y);
    AlignedIs(version, x, y);
    VersionBlocksAre(version, x, y);
    NearInside(version, x);
    NearInside(version, y);
  }

  lemma NearInside(version: nat, x: int)
    requires 1 <= version <= VERSION_MAX
    ensures Markers(version) == 0 ==> !Near(version, x, 0)
    ensures Near(version, x, Markers(version)) ==> 16 <= x < Side(version) - 4
    ensures Markers(version) > 0 && Near(version, x, Markers(version) - 1) ==> 16 <= x < Side(version) - 20
  {
    hide Centre, NearSet, Markers;
    var n := Markers(version);
    NearSetIs(version, n);
    if version >= 2 {
      MarkerFacts(version);
      NearRange(version, n);
      NearSetIs(version, n - 1);
      NearRange(version, n - 1);
      if n >= 2 {
        CentreStep(version, n - 1);
      }
    } else {
      NoMarkers(version);
    }
  }

  lemma NoMarkers(version: nat)
    requires version < 2
    ensures Markers(version) == 0
  {
  }

  lemma PartsApart(version: nat)
    requires 2 <= version <= VERSION_MAX
    ensures Fixed(Side(version)) !! Aligned(version)
    ensures (Fixed(Side(version)) + Aligned(version)) !! VersionBlocks(version)
  {
    hide Centre, NearSet, Near, Markers, Fixed, Aligned, VersionBlocks;
    forall m: Module | m in Aligned(version) ensures m !in Fixed(Side(version)) && m !in VersionBlocks(version) {
      PartsApartAt(version, m.0, m.1);
    }
    forall m: Module | m in VersionBlocks(version) ensures m !in Fixed(Side(version)) {
      VersionBlocksAre(version, m.0, m.1);
      FixedIs(Side(version), m.0, m.1);
    }
  }

  lemma PartsApartAt(version: nat, x: int, y: int)
    requires 2 <= version <= VERSION_MAX && (x, y) in Aligned(version)
    ensures (x, y) !in Fixed(Side(version)) && (x, y) !in VersionBlocks(version)
  {
    hide Centre, NearSet, Near, Markers, Fixed, Aligned, VersionBlocks;
    AlignedIs(version, x, y);
    FixedIs(Side(version), x, y);
    VersionBlocksAre(version, x, y);
    NearInside(version, x);
    NearInside(version, y);
  }

  /** How many modules are drawn. */
  function DrawnCount(version: nat): int {
    var n := if version < 2 then 0 else if version < 7 then 1 else version / 7 + 1;
    225 + 2 * (Side(version) - 17) + (if version < 2 then 0 else Times(5 * n, 5 * n) + 40 * (n - 1)) + if version < 7 then 0 else 36
  }

  lemma DrawnSize(version: nat)
    requires 1 <= version <= VERSION_MAX
    ensures |DrawnSet(version)| == DrawnCount(version)
  {
    hide Centre, NearSet, Near, Markers, Fixed, Aligned, VersionBlocks, Times;
    FixedSize(Side(version));
    VersionBlocksSize(version);
    if version >= 2 {
      PartsApart(version);
      DisjointSize(Fixed(Side(version)), Aligned(version));
      DisjointSize(Fixed(Side(version)) + Aligned(version), VersionBlocks(version));
      AlignedSize(version);
      MarkerCount(version);
    } else {
      NothingAligned(version);
      assert Fixed(Side(version)) + Aligned(version) + VersionBlocks(version) == Fixed(Side(version));
    }
  }

  lemma NothingAligned(version: nat)
    requires version < 2
    ensures Aligned(version) == {} && VersionBlocks(version) == {}
  {
    NoMarkers(version);
    hide Markers;
  }

  lemma MarkerCount(version: nat)
    requires 2 <= version <= VERSION_MAX
    ensures Markers(version) == if version < 7 then 1 else version / 7 + 1
  {
    if version >= 7 {
      Spacing(version);
      hide Alignment;
      DivisionIs(Side(version) - Alignment(version).0, version / 7, Gap(version), 7);
    } else {
      SingleMarker(version);
    }
  }

  // ----- and what is left -----

  ghost function FreeSet(version: nat): set<Module> {
    set x, y | x in Span(0, Side(version)) && y in Span(0, Side(version)) && !Drawn(version, x, y) :: (x, y)
  }

  /** The modules that are not drawn are exactly those of the codewords and the remainder. */
  lemma FreeCount(version: nat)
    requires 1 <= version <= VERSION_MAX
    ensures |FreeSet(version)| == 8 * Words(version) + Remainder(version)
  {
    hide Drawn, Words, DrawnSet, Times, Prod, Remainder, DrawnCount;
    var w := Side(version);
    var all := Prod(Span(0, w), Span(0, w));
    AllModules(version);
    DrawnSize(version);
    RectSize(0, w, 0, w);
    assert all == FreeSet(version) + DrawnSet(version) && FreeSet(version) !! DrawnSet(version);
    CapacityTable(version);
  }

  lemma AllModules(version: nat)
    requires 1 <= version <= VERSION_MAX
    ensures
      var all := Prod(Span(0, Side(version)), Span(0, Side(version)));
      all == FreeSet(version) + DrawnSet(version) && FreeSet(version) !! DrawnSet(version)
  {
    hide Drawn, DrawnSet, Span;
    var all := Prod(Span(0, Side(version)), Span(0, Side(version)));
    forall m: Module
      ensures m in all <==> m in FreeSet(version) + DrawnSet(version)
      ensures !(m in FreeSet(version) && m in DrawnSet(version))
    {
      DrawnSetIs(version, m.0, m.1);
      assert m == (m.0, m.1);
    }
  }

  /** The capacity table agrees with the drawing, version by version. */
  lemma CapacityTable(version: nat)
    requires 1 <= version <= VERSION_MAX
    ensures Times(Side(version), Side(version)) == 8 * Words(version) + Remainder(version) + DrawnCount(version)
  {
    var n := version / 7 + 1;
    TimesIs(5, 5);
    TimesIs(10, 10);
    TimesIs(15, 15);
    TimesIs(20, 20);
    TimesIs(25, 25);
    TimesIs(30, 30);
    hide Times, Words, Remainder;
    if version < 7 {
      CapacityTo6(version);
    } else if version < 14 {
      CapacityTo13(version);
      assert n == 2;
    } else if version < 21 {
      CapacityTo20(version);
      assert n == 3;
    } else if version < 28 {
      CapacityTo27(version);
      assert n == 4;
    } else if version < 35 {
      CapacityTo34(version);
      assert n == 5;
    } else {
      CapacityTo40(version);
      assert n == 6;
    }
  }

  /** The same, with r modules drawn besides the corners and the timing patterns. */
  predicate Agrees(version: nat, r: nat) {
    Times(Side(version), Side(version)) == 8 * Words(version) + Remainder(version) + 225 + 2 * (Side(version) - 17) + r
  }

  lemma CapacityTo6(version: nat)
    requires 1 <= version <= 6
    ensures Agrees(version, if version == 1 then 0 else 25)
  {
    TimesIs(Side(version), Side(version));
    hide Times;
  }

  lemma CapacityTo13(version: nat)
    requires 7 <= version <= 13
    ensures Agrees(version, 176)
  {
    TimesIs(Side(version), Side(version));
    hide Times;
  }

  lemma CapacityTo20(version: nat)
    requires 14 <= version <= 20
    ensures Agrees(version, 341)
  {
    TimesIs(Side(version), Side(version));
    hide Times;
  }

  lemma CapacityTo27(version: nat)
    requires 21 <= version <= 27
    ensures Agrees(version, 556)
  {
    TimesIs(Side(version), Side(version));
    hide Times;
  }

  lemma CapacityTo34(version: nat)
    requires 28 <= version <= 34
    ensures Agrees(version, 821)
  {
    TimesIs(Side(version), Side(version));
    hide Times;
  }

  lemma CapacityTo40(version: nat)
    requires 35 <= version <= 40
    ensures Agrees(version, 1136)
  {
    TimesIs(Side(version), Side(version));
    hide Times;
  }
}
