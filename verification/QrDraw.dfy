/** QRspec_createFrame (qrcode/qrspec.c:259-507): the empty frame of a version, drawn in an
    array of width * width modules. */
module QrDraw {
  import opened Products
  import opened QrCapacity
  import opened QrFill
  import opened QrPattern

  // ----- what is drawn, in the order in which later layers cover earlier ones -----

  /** The distance in rings of a module from the middle of a pattern. */
  function Ring(dx: int, dy: int): nat {
    var a, b := if dx < 0 then -dx else dx, if dy < 0 then -dy else dy;
    if a > b then a else b
  }

  predicate InFinder(x: int, y: int, ox: int, oy: int) {
    ox <= x < ox + 7 && oy <= y < oy + 7
  }

  /** The finder pattern: a dark middle of 3 x 3, a light ring, a dark ring. */
  function Finder(dx: int, dy: int): bv8 {
    if Ring(dx, dy) == 2 then 0xc0 else 0xc1
  }

  function Finders(w: nat, x: int, y: int): bv8 {
    if InFinder(x, y, 0, w - 7) then Finder(x - 3, y - (w - 4))
    else if InFinder(x, y, w - 7, 0) then Finder(x - (w - 4), y - 3)
    else if InFinder(x, y, 0, 0) then Finder(x - 3, y - 3)
    else 0
  }

  predicate Separator(w: nat, x: int, y: int) {
    || (y < 7 && (x == 7 || x == w - 8)) || (w - 7 <= y && x == 7)
    || (y == 7 && (x < 8 || w - 8 <= x)) || (y == w - 8 && x < 8)
  }

  function Separated(w: nat, x: int, y: int): bv8 {
    if Separator(w, x, y) then 0xc0 else Finders(w, x, y)
  }

  predicate FormatArea(w: nat, x: int, y: int) {
    || (y == 8 && (x < 9 || w - 8 <= x)) || (x == 8 && (y < 8 || w - 7 <= y))
  }

  function Formatted(w: nat, x: int, y: int): bv8 {
    if FormatArea(w, x, y) then 0x84 else Separated(w, x, y)
  }

  /** The timing patterns, dark in even places. */
  function Timed(w: nat, x: int, y: int): bv8 {
    if x == 6 && 8 <= y < w - 8 then (if y % 2 == 0 then 0x91 else 0x90)
    else if y == 6 && 8 <= x < w - 8 then (if x % 2 == 0 then 0x91 else 0x90)
    else Formatted(w, x, y)
  }

  /** The place of x relative to the marker it is near. */
  function Offset(version: nat, x: int, k: nat): int {
    if k == 0 then 0
    else if Centre(version, k - 1) - 2 <= x < Centre(version, k - 1) + 3 then x - Centre(version, k - 1)
    else Offset(version, x, k - 1)
  }

  /** The alignment pattern: a dark module in the middle, a light ring, a dark ring. */
  function Marker(dx: int, dy: int): bv8 {
    if Ring(dx, dy) == 1 then 0xa0 else 0xa1
  }

  function Inner(version: nat): nat {
    if Markers(version) == 0 then 0 else Markers(version) - 1
  }

  function Marked(version: nat, x: int, y: int): bv8 {
    var n, k := Markers(version), Inner(version);
    if Near(version, x, n) && Near(version, y, n) then Marker(Offset(version, x, n), Offset(version, y, n))
    else if Near(version, x, k) && 4 <= y < 9 then Marker(Offset(version, x, k), y - 6)
    else if Near(version, y, k) && 4 <= x < 9 then Marker(x - 6, Offset(version, y, k))
    else Timed(Side(version), x, y)
  }

  /** QRspec_getVersionPattern */
  function VersionPattern(version: nat): nat {
    match version
    case 7 => 0x07c94 case 8 => 0x085bc case 9 => 0x09a99 case 10 => 0x0a4d3 case 11 => 0x0bbf6
    case 12 => 0x0c762 case 13 => 0x0d847 case 14 => 0x0e60d case 15 => 0x0f928 case 16 => 0x10b78
    case 17 => 0x1145d case 18 => 0x12a17 case 19 => 0x13532 case 20 => 0x149a6 case 21 => 0x15683
    case 22 => 0x168c9 case 23 => 0x177ec case 24 => 0x18ec4 case 25 => 0x191e1 case 26 => 0x1afab
    case 27 => 0x1b08e case 28 => 0x1cc1a case 29 => 0x1d33f case 30 => 0x1ed75 case 31 => 0x1f250
    case 32 => 0x209d5 case 33 => 0x216f0 case 34 => 0x228ba case 35 => 0x2379f case 36 => 0x24b0b
    case 37 => 0x2542e case 38 => 0x26a64 case 39 => 0x27541 case 40 => 0x28c69
    case _ => 0
  }

  /** v >> k */
  function Shifted(v: nat, k: nat): nat {
    if k == 0 then v else Shifted(v, k - 1) / 2
  }

  /** The module for bit k of the version information. */
  function VersionBit(version: nat, k: nat): bv8 {
    if Shifted(VersionPattern(version), k) % 2 == 1 then 0x89 else 0x88
  }

  function Versioned(version: nat, x: int, y: int): bv8 {
    var w := Side(version);
    if version >= 7 && w - 11 <= x < w - 8 && 0 <= y < 6 then VersionBit(version, 3 * y + (x - (w - 11)))
    else if version >= 7 && 0 <= x < 6 && w - 11 <= y < w - 8 then VersionBit(version, 3 * x + (y - (w - 11)))
    else Marked(version, x, y)
  }

  /** The frame of a version. */
  function Pattern(version: nat, x: int, y: int): bv8 {
    if x == 8 && y == Side(version) - 8 then 0x81 else Versioned(version, x, y)
  }

  // ----- every module that is drawn is marked as reserved, and no other -----

  predicate Kept(b: bv8) {
    b & 0x80 != 0
  }

  lemma TimedKept(w: nat, x: nat, y: nat)
    requires w >= 21 && x < w && y < w
    ensures Kept(Timed(w, x, y)) <==>
              (x < 9 && y < 9) || (w - 8 <= x && y < 9) || (x < 9 && w - 8 <= y && !(x == 8 && y == w - 8)) || x == 6 || y == 6
  {
  }

  lemma PatternKept(version: nat, x: nat, y: nat)
    requires 1 <= version <= VERSION_MAX && x < Side(version) && y < Side(version)
    ensures Kept(Pattern(version, x, y)) <==> Drawn(version, x, y)
  {
    hide Centre, Near, Timed, Offset, Markers, Shifted, VersionPattern, Ring;
    TimedKept(Side(version), x, y);
    NearInside(version, x);
    NearInside(version, y);
  }

  // ----- drawing -----

  function Pixel(frame: seq<bv8>, w: nat, x: nat, y: nat): bv8
    requires |frame| == Times(w, w) && x < w && y < w
  {
    CellBelow(x, y, w);
    frame[CellAt(x, y, w)]
  }

  lemma CellBelow(x: nat, y: nat, w: nat)
    requires x < w && y < w
    ensures CellAt(x, y, w) < Times(w, w)
  {
    Monotone(y + 1, w, w);
  }

  /** frame[width * y + x] = v */
  method Put(frame: array<bv8>, w: nat, x: nat, y: nat, v: bv8)
    requires frame.Length == Times(w, w) && x < w && y < w
    modifies frame
    ensures forall a: nat, b: nat {:trigger Pixel(frame[..], w, a, b)} :: a < w && b < w ==>
              Pixel(frame[..], w, a, b) == if a == x && b == y then v else Pixel(old(frame[..]), w, a, b)
  {
    CellBelow(x, y, w);
    frame[CellAt(x, y, w)] := v;
    forall a: nat, b: nat {:trigger Pixel(frame[..], w, a, b)} | a < w && b < w
      ensures Pixel(frame[..], w, a, b) == if a == x && b == y then v else Pixel(old(frame[..]), w, a, b)
    {
      CellBelow(a, b, w);
      if CellAt(a, b, w) == CellAt(x, y, w) {
        SameQuotient(b, a, y, x, w);
      }
    }
  }

  /** memset(frame + width * y + x0, v, n) */
  method FillRow(frame: array<bv8>, w: nat, x0: nat, y: nat, n: nat, v: bv8)
    requires frame.Length == Times(w, w) && x0 + n <= w && y < w
    modifies frame
    ensures forall a: nat, b: nat {:trigger Pixel(frame[..], w, a, b)} :: a < w && b < w ==>
              Pixel(frame[..], w, a, b) == if b == y && x0 <= a < x0 + n then v else Pixel(old(frame[..]), w, a, b)
  {
    hide Pixel, CellAt, Times;
    ghost var was := frame[..];
    for i := 0 to n
      invariant forall a: nat, b: nat {:trigger Pixel(frame[..], w, a, b)} :: a < w && b < w ==>
                  Pixel(frame[..], w, a, b) == if b == y && x0 <= a < x0 + i then v else Pixel(was, w, a, b)
    {
      Put(frame, w, x0 + i, y, v);
    }
  }

  /** The table of putFinderPattern, row by row. */
  const FINDER: seq<seq<bv8>> := [
    [0xc1, 0xc1, 0xc1, 0xc1, 0xc1, 0xc1, 0xc1],
    [0xc1, 0xc0, 0xc0, 0xc0, 0xc0, 0xc0, 0xc1],
    [0xc1, 0xc0, 0xc1, 0xc1, 0xc1, 0xc0, 0xc1],
    [0xc1, 0xc0, 0xc1, 0xc1, 0xc1, 0xc0, 0xc1],
    [0xc1, 0xc0, 0xc1, 0xc1, 0xc1, 0xc0, 0xc1],
    [0xc1, 0xc0, 0xc0, 0xc0, 0xc0, 0xc0, 0xc1],
    [0xc1, 0xc1, 0xc1, 0xc1, 0xc1, 0xc1, 0xc1]]

  lemma FinderIs(x: nat, y: nat)
    requires x < 7 && y < 7
    ensures |FINDER[y]| == 7 && FINDER[y][x] == Finder(x - 3, y - 3)
  {
    assert x == 0 || x == 1 || x == 2 || x == 3 || x == 4 || x == 5 || x == 6;
    assert y == 0 || y == 1 || y == 2 || y == 3 || y == 4 || y == 5 || y == 6;
  }

  /** putFinderPattern */
  method PutFinderPattern(frame: array<bv8>, w: nat, ox: nat, oy: nat)
    requires frame.Length == Times(w, w) && ox + 7 <= w && oy + 7 <= w
    modifies frame
    ensures forall a: nat, b: nat {:trigger Pixel(frame[..], w, a, b)} :: a < w && b < w ==>
              Pixel(frame[..], w, a, b) ==
              if InFinder(a, b, ox, oy) then Finder(a - ox - 3, b - oy - 3) else Pixel(old(frame[..]), w, a, b)
  {
    hide Pixel, CellAt, Times, Finder;
    ghost var was := frame[..];
    for y := 0 to 7
      invariant forall a: nat, b: nat {:trigger Pixel(frame[..], w, a, b)} :: a < w && b < w ==>
                  Pixel(frame[..], w, a, b) ==
                  if ox <= a < ox + 7 && oy <= b < oy + y then Finder(a - ox - 3, b - oy - 3) else Pixel(was, w, a, b)
    {
      for x := 0 to 7
        invariant forall a: nat, b: nat {:trigger Pixel(frame[..], w, a, b)} :: a < w && b < w ==>
                    Pixel(frame[..], w, a, b) ==
                    if (ox <= a < ox + 7 && oy <= b < oy + y) || (b == oy + y && ox <= a < ox + x)
                    then Finder(a - ox - 3, b - oy - 3) else Pixel(was, w, a, b)
      {
        FinderIs(x, y);
        Put(frame, w, ox + x, oy + y, FINDER[y][x]);
      }
    }
  }

  /** The three finder patterns and their separators. */
  method PutFinders(frame: array<bv8>, w: nat)
    requires w >= 21 && frame.Length == Times(w, w)
    requires forall a: nat, b: nat {:trigger Pixel(frame[..], w, a, b)} :: a < w && b < w ==> Pixel(frame[..], w, a, b) == 0
    modifies frame
    ensures forall a: nat, b: nat {:trigger Pixel(frame[..], w, a, b)} :: a < w && b < w ==>
              Pixel(frame[..], w, a, b) == Separated(w, a, b)
  {
    hide Pixel, CellAt, Times, Finder;
    PutFinderPattern(frame, w, 0, 0);
    PutFinderPattern(frame, w, w - 7, 0);
    PutFinderPattern(frame, w, 0, w - 7);
    for y := 0 to 7
      invariant forall a: nat, b: nat {:trigger Pixel(frame[..], w, a, b)} :: a < w && b < w ==>
                  Pixel(frame[..], w, a, b) ==
                  if (b < y && (a == 7 || a == w - 8)) || (a == 7 && w - 7 <= b < w - 7 + y) then 0xc0 else Finders(w, a, b)
    {
      Put(frame, w, 7, y, 0xc0);
      Put(frame, w, w - 8, y, 0xc0);
      Put(frame, w, 7, w - 7 + y, 0xc0);
    }
    FillRow(frame, w, 0, 7, 8, 0xc0);
    FillRow(frame, w, w - 8, 7, 8, 0xc0);
    FillRow(frame, w, 0, w - 8, 8, 0xc0);
  }

  /** The places of the format information. */
  method PutFormatArea(frame: array<bv8>, w: nat)
    requires w >= 21 && frame.Length == Times(w, w)
    requires forall a: nat, b: nat {:trigger Pixel(frame[..], w, a, b)} :: a < w && b < w ==>
               Pixel(frame[..], w, a, b) == Separated(w, a, b)
    modifies frame
    ensures forall a: nat, b: nat {:trigger Pixel(frame[..], w, a, b)} :: a < w && b < w ==>
              Pixel(frame[..], w, a, b) == Formatted(w, a, b)
  {
    hide Pixel, CellAt, Times, Separated;
    FillRow(frame, w, 0, 8, 9, 0x84);
    FillRow(frame, w, w - 8, 8, 8, 0x84);
    ghost var was := frame[..];
    for y := 0 to 8
      invariant forall a: nat, b: nat {:trigger Pixel(frame[..], w, a, b)} :: a < w && b < w ==>
                  Pixel(frame[..], w, a, b) == if a == 8 && b < y then 0x84 else Pixel(was, w, a, b)
    {
      Put(frame, w, 8, y, 0x84);
    }
    was := frame[..];
    for y := 0 to 7
      invariant forall a: nat, b: nat {:trigger Pixel(frame[..], w, a, b)} :: a < w && b < w ==>
                  Pixel(frame[..], w, a, b) == if a == 8 && w - 7 <= b < w - 7 + y then 0x84 else Pixel(was, w, a, b)
    {
      Put(frame, w, 8, w - 7 + y, 0x84);
    }
  }

  /** The timing patterns. */
  method PutTiming(frame: array<bv8>, w: nat)
    requires w >= 21 && frame.Length == Times(w, w)
    requires forall a: nat, b: nat {:trigger Pixel(frame[..], w, a, b)} :: a < w && b < w ==>
               Pixel(frame[..], w, a, b) == Formatted(w, a, b)
    modifies frame
    ensures forall a: nat, b: nat {:trigger Pixel(frame[..], w, a, b)} :: a < w && b < w ==>
              Pixel(frame[..], w, a, b) == Timed(w, a, b)
  {
    hide Pixel, CellAt, Times, Formatted;
    ghost var was := frame[..];
    for x: nat := 1 to w - 15
      invariant forall a: nat, b: nat {:trigger Pixel(frame[..], w, a, b)} :: a < w && b < w ==>
                  Pixel(frame[..], w, a, b) ==
                  if a == 6 && 8 <= b < 7 + x then (if b % 2 == 0 then 0x91 else 0x90)
                  else if b == 6 && 8 <= a < 7 + x then (if a % 2 == 0 then 0x91 else 0x90)
                  else Pixel(was, w, a, b)
    {
      var v := if x % 2 == 1 then 0x91 else 0x90;
      Put(frame, w, 7 + x, 6, v);
      Put(frame, w, 6, 7 + x, v);
    }
  }

  const MARKER: seq<seq<bv8>> := [
    [0xa1, 0xa1, 0xa1, 0xa1, 0xa1],
    [0xa1, 0xa0, 0xa0, 0xa0, 0xa1],
    [0xa1, 0xa0, 0xa1, 0xa0, 0xa1],
    [0xa1, 0xa0, 0xa0, 0xa0, 0xa1],
    [0xa1, 0xa1, 0xa1, 0xa1, 0xa1]]

  lemma MarkerIs(x: nat, y: nat)
    requires x < 5 && y < 5
    ensures |MARKER[y]| == 5 && MARKER[y][x] == Marker(x - 2, y - 2)
  {
    assert x == 0 || x == 1 || x == 2 || x == 3 || x == 4;
    assert y == 0 || y == 1 || y == 2 || y == 3 || y == 4;
  }

  predicate Within(a: int, c: int) {
    c - 2 <= a < c + 3
  }

  /** QRspec_putAlignmentMarker */
  method PutAlignmentMarker(frame: array<bv8>, w: nat, ox: nat, oy: nat)
    requires frame.Length == Times(w, w) && 2 <= ox < w - 2 && 2 <= oy < w - 2
    modifies frame
    ensures forall a: nat, b: nat {:trigger Pixel(frame[..], w, a, b)} :: a < w && b < w ==>
              Pixel(frame[..], w, a, b) ==
              if Within(a, ox) && Within(b, oy) then Marker(a - ox, b - oy) else Pixel(old(frame[..]), w, a, b)
  {
    hide Pixel, CellAt, Times, Marker;
    ghost var was := frame[..];
    for y := 0 to 5
      invariant forall a: nat, b: nat {:trigger Pixel(frame[..], w, a, b)} :: a < w && b < w ==>
                  Pixel(frame[..], w, a, b) ==
                  if Within(a, ox) && oy - 2 <= b < oy - 2 + y then Marker(a - ox, b - oy) else Pixel(was, w, a, b)
    {
      for x := 0 to 5
        invariant forall a: nat, b: nat {:trigger Pixel(frame[..], w, a, b)} :: a < w && b < w ==>
                    Pixel(frame[..], w, a, b) ==
                    if (Within(a, ox) && oy - 2 <= b < oy - 2 + y) || (b == oy - 2 + y && ox - 2 <= a < ox - 2 + x)
                    then Marker(a - ox, b - oy) else Pixel(was, w, a, b)
      {
        MarkerIs(x, y);
        Put(frame, w, ox - 2 + x, oy - 2 + y, MARKER[y][x]);
      }
    }
  }

  /** The markers on the timing patterns, k of them on each, over what was there. */
  function EdgeMarked(version: nat, k: nat, x: int, y: int, was: bv8): bv8 {
    if Near(version, y, k) && 4 <= x < 9 then Marker(x - 6, Offset(version, y, k))
    else if Near(version, x, k) && 4 <= y < 9 then Marker(Offset(version, x, k), y - 6)
    else was
  }

  /** The other markers: j whole rows of n, and i of the next row. */
  function GridMarked(version: nat, n: nat, j: nat, i: nat, x: int, y: int, was: bv8): bv8 {
    if Within(y, Centre(version, j)) && Near(version, x, i) then Marker(Offset(version, x, i), y - Centre(version, j))
    else if Near(version, x, n) && Near(version, y, j) then Marker(Offset(version, x, n), Offset(version, y, j))
    else was
  }

  /** The first loop of QRspec_putAlignmentPattern. */
  method PutEdgeMarkers(version: nat, frame: array<bv8>, w: nat)
    requires 2 <= version <= VERSION_MAX && w == Side(version) && frame.Length == Times(w, w) && Markers(version) >= 2
    modifies frame
    ensures forall a: nat, b: nat {:trigger Pixel(frame[..], w, a, b)} :: a < w && b < w ==>
              Pixel(frame[..], w, a, b) == EdgeMarked(version, Inner(version), a, b, Pixel(old(frame[..]), w, a, b))
  {
    hide Pixel, CellAt, Times, Marker, Markers, Centre, Side, Gap;
    ghost var was := frame[..];
    CentreFacts(version);
    var cx, d := Centre(version, 0), Gap(version);
    for x: nat := 0 to Markers(version) - 1
      invariant cx == Centre(version, x)
      invariant forall a: nat, b: nat {:trigger Pixel(frame[..], w, a, b)} :: a < w && b < w ==>
                  Pixel(frame[..], w, a, b) == EdgeMarked(version, x, a, b, Pixel(was, w, a, b))
    {
      PutAlignmentMarker(frame, w, 6, cx);
      PutAlignmentMarker(frame, w, cx, 6);
      NextCentre(version, x);
      cx := cx + d;
    }
  }

  /** One row of markers. */
  method PutMarkerRow(version: nat, frame: array<bv8>, w: nat, y: nat, cy: int, ghost was: seq<bv8>)
    requires 2 <= version <= VERSION_MAX && w == Side(version) && frame.Length == Times(w, w) == |was|
    requires y < Markers(version) && Markers(version) >= 2 && cy == Centre(version, y)
    requires forall a: nat, b: nat {:trigger Pixel(frame[..], w, a, b)} :: a < w && b < w ==>
               Pixel(frame[..], w, a, b) == GridMarked(version, Markers(version), y, 0, a, b, Pixel(was, w, a, b))
    modifies frame
    ensures forall a: nat, b: nat {:trigger Pixel(frame[..], w, a, b)} :: a < w && b < w ==>
              Pixel(frame[..], w, a, b) == GridMarked(version, Markers(version), y + 1, 0, a, b, Pixel(was, w, a, b))
  {
    hide Pixel, CellAt, Times, Marker, Markers, Centre, Side, Gap;
    CentreFacts(version);
    var n, cx, d := Markers(version), Centre(version, 0), Gap(version);
    for x: nat := 0 to n
      invariant cx == Centre(version, x)
      invariant forall a: nat, b: nat {:trigger Pixel(frame[..], w, a, b)} :: a < w && b < w ==>
                  Pixel(frame[..], w, a, b) == GridMarked(version, n, y, x, a, b, Pixel(was, w, a, b))
    {
      PutAlignmentMarker(frame, w, cx, cy);
      NextCentre(version, x);
      cx := cx + d;
    }
  }

  /** QRspec_putAlignmentPattern */
  method PutAlignmentPattern(version: nat, frame: array<bv8>, w: nat)
    requires 1 <= version <= VERSION_MAX && w == Side(version) && frame.Length == Times(w, w)
    modifies frame
    ensures
      var n, k := Markers(version), Inner(version);
      forall a: nat, b: nat {:trigger Pixel(frame[..], w, a, b)} :: a < w && b < w ==>
        Pixel(frame[..], w, a, b) ==
        GridMarked(version, n, n, 0, a, b, EdgeMarked(version, k, a, b, Pixel(old(frame[..]), w, a, b)))
  {
    hide Pixel, CellAt, Times, Marker, Markers, Centre, Side, Gap, Offset;
    if version < 2 {
      NoMarkers(version);
      return;
    }
    var n := Markers(version);
    MarkerFacts(version);
    CentreFacts(version);
    var d, first := Gap(version), Centre(version, 0);
    if n == 1 {
      PutAlignmentMarker(frame, w, first, first);
      OneMarker(version);
      return;
    }
    PutEdgeMarkers(version, frame, w);
    ghost var edged := frame[..];
    var cy := first;
    for y: nat := 0 to n
      invariant cy == Centre(version, y)
      invariant forall a: nat, b: nat {:trigger Pixel(frame[..], w, a, b)} :: a < w && b < w ==>
                  Pixel(frame[..], w, a, b) == GridMarked(version, n, y, 0, a, b, Pixel(edged, w, a, b))
    {
      PutMarkerRow(version, frame, w, y, cy, edged);
      NextCentre(version, y);
      cy := cy + d;
    }
  }

  lemma OneMarker(version: nat)
    ensures forall x: int, y: int, was: bv8 {:trigger GridMarked(version, 1, 1, 0, x, y, was)} ::
              GridMarked(version, 1, 1, 0, x, y, was) ==
              if Within(x, Centre(version, 0)) && Within(y, Centre(version, 0))
              then Marker(x - Centre(version, 0), y - Centre(version, 0)) else was
    ensures forall x: int, y: int, was: bv8 {:trigger EdgeMarked(version, 0, x, y, was)} :: EdgeMarked(version, 0, x, y, was) == was
  {
    hide Marker, Centre;
    forall x: int ensures Near(version, x, 1) == Within(x, Centre(version, 0))
                       && (Near(version, x, 1) ==> Offset(version, x, 1) == x - Centre(version, 0)) {
      assert !Near(version, x, 0);
    }
  }

  lemma NextCentre(version: nat, i: nat)
    requires 2 <= version <= VERSION_MAX && Markers(version) >= 2
    ensures Centre(version, i + 1) == Centre(version, i) + Gap(version)
  {
    MarkerFacts(version);
    hide Markers, Side, Alignment;
  }

  /** All markers lie inside the frame. */
  lemma CentreFacts(version: nat)
    requires 2 <= version <= VERSION_MAX
    ensures forall i: nat {:trigger Centre(version, i)} :: i < Markers(version) ==> 18 <= Centre(version, i) <= Side(version) - 7
  {
    hide Markers, Centre;
    forall i: nat {:trigger Centre(version, i)} | i < Markers(version)
      ensures 18 <= Centre(version, i) <= Side(version) - 7
    {
      CentreBetween(version, i);
    }
  }

  lemma {:induction false} CentreBetween(version: nat, i: nat)
    requires 2 <= version <= VERSION_MAX && i < Markers(version)
    ensures 18 <= Centre(version, i) <= Side(version) - 7
    decreases Markers(version) - i
  {
    hide Markers, Centre;
    NearRange(version, i + 1);
    if i + 1 < Markers(version) {
      CentreBetween(version, i + 1);
      CentreStep(version, i + 1);
    } else {
      MarkerFacts(version);
    }
  }

  /** The version information, twice. */
  method PutVersion(version: nat, frame: array<bv8>, w: nat)
    requires 7 <= version <= VERSION_MAX && w == Side(version) && frame.Length == Times(w, w)
    modifies frame
    ensures forall a: nat, b: nat {:trigger Pixel(frame[..], w, a, b)} :: a < w && b < w ==>
              Pixel(frame[..], w, a, b) ==
              if w - 11 <= a < w - 8 && b < 6 then VersionBit(version, 3 * b + (a - (w - 11)))
              else if a < 6 && w - 11 <= b < w - 8 then VersionBit(version, 3 * a + (b - (w - 11)))
              else Pixel(old(frame[..]), w, a, b)
  {
    hide Pixel, CellAt, Times, VersionPattern, Side;
    SideAtLeast(version);
    ghost var was := frame[..];
    var verinfo := VersionPattern(version);
    var v := verinfo;
    for x: nat := 0 to 6
      invariant v == Shifted(verinfo, 3 * x)
      invariant forall a: nat, b: nat {:trigger Pixel(frame[..], w, a, b)} :: a < w && b < w ==>
                  Pixel(frame[..], w, a, b) ==
                  if a < x && w - 11 <= b < w - 8 then VersionBit(version, 3 * a + (b - (w - 11))) else Pixel(was, w, a, b)
    {
      for y: nat := 0 to 3
        invariant v == Shifted(verinfo, 3 * x + y)
        invariant forall a: nat, b: nat {:trigger Pixel(frame[..], w, a, b)} :: a < w && b < w ==>
                    Pixel(frame[..], w, a, b) ==
                    if (a < x && w - 11 <= b < w - 8) || (a == x && w - 11 <= b < w - 11 + y)
                    then VersionBit(version, 3 * a + (b - (w - 11))) else Pixel(was, w, a, b)
      {
        Put(frame, w, x, w - 11 + y, if v % 2 == 1 then 0x89 else 0x88);
        v := v / 2;
      }
    }
    was := frame[..];
    v := verinfo;
    for y: nat := 0 to 6
      invariant v == Shifted(verinfo, 3 * y)
      invariant forall a: nat, b: nat {:trigger Pixel(frame[..], w, a, b)} :: a < w && b < w ==>
                  Pixel(frame[..], w, a, b) ==
                  if b < y && w - 11 <= a < w - 8 then VersionBit(version, 3 * b + (a - (w - 11))) else Pixel(was, w, a, b)
    {
      for x: nat := 0 to 3
        invariant v == Shifted(verinfo, 3 * y + x)
        invariant forall a: nat, b: nat {:trigger Pixel(frame[..], w, a, b)} :: a < w && b < w ==>
                    Pixel(frame[..], w, a, b) ==
                    if (b < y && w - 11 <= a < w - 8) || (b == y && w - 11 <= a < w - 11 + x)
                    then VersionBit(version, 3 * b + (a - (w - 11))) else Pixel(was, w, a, b)
      {
        Put(frame, w, w - 11 + x, y, if v % 2 == 1 then 0x89 else 0x88);
        v := v / 2;
      }
    }
  }

  lemma SideAtLeast(version: nat)
    requires version >= 1
    ensures Side(version) >= 21 && (version >= 7 ==> Side(version) >= 45)
  {
  }

  /** QRspec_createFrame: every module of the frame is that of the pattern, so exactly the
      modules that are drawn are reserved. */
  method CreateFrame(version: nat) returns (frame: array<bv8>)
    requires 1 <= version <= VERSION_MAX
    ensures fresh(frame) && frame.Length == Times(Side(version), Side(version))
    ensures forall a: nat, b: nat {:trigger Pixel(frame[..], Side(version), a, b)} ::
              a < Side(version) && b < Side(version) ==> Pixel(frame[..], Side(version), a, b) == Pattern(version, a, b)
  {
    hide CellAt, Times, Timed, Near, Offset, Markers, Centre, VersionBit, Side, Marker;
    SideAtLeast(version);
    var w := Side(version);
    frame := new bv8[Times(w, w)](i => 0);
    Zeros(frame[..], w);
    hide Pixel;
    PutFinders(frame, w);
    PutFormatArea(frame, w);
    PutTiming(frame, w);
    PutAlignmentPattern(version, frame, w);
    forall a: nat, b: nat {:trigger Pixel(frame[..], w, a, b)} | a < w && b < w
      ensures Pixel(frame[..], w, a, b) == Marked(version, a, b)
    {
      MarkedIs(version, a, b);
    }
    if version >= 7 {
      PutVersion(version, frame, w);
    }
    Put(frame, w, 8, w - 8, 0x81);
  }

  lemma Zeros(frame: seq<bv8>, w: nat)
    requires |frame| == Times(w, w) && forall i :: 0 <= i < |frame| ==> frame[i] == 0
    ensures forall a: nat, b: nat {:trigger Pixel(frame, w, a, b)} :: a < w && b < w ==> Pixel(frame, w, a, b) == 0
  {
    forall a: nat, b: nat {:trigger Pixel(frame, w, a, b)} | a < w && b < w ensures Pixel(frame, w, a, b) == 0 {
      CellBelow(a, b, w);
    }
  }

  /** The rows of markers on both timing patterns do not meet, and no other marker is on row n. */
  lemma MarkedIs(version: nat, x: nat, y: nat)
    requires 1 <= version <= VERSION_MAX && x < Side(version) && y < Side(version)
    ensures
      var n, k := Markers(version), Inner(version);
      GridMarked(version, n, n, 0, x, y, EdgeMarked(version, k, x, y, Timed(Side(version), x, y))) == Marked(version, x, y)
  {
    hide Markers, Centre, Side, Timed, Marker;
    NearInside(version, x);
    NearInside(version, y);
  }
}
