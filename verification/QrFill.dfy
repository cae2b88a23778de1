/** Placing the codewords in a symbol: FrameFiller_next and the placement loops of
    QRcode_encodeMask (qrcode/qrencode.c:266-351, 463-494). */
module QrFill {
  import opened Common
  import opened Products
  import opened QrPath

  /** Frames mark reserved modules with bit 7. */
  predicate Reserved(frame: seq<bv8>, i: nat) {
    i < |frame| && frame[i] & 0x80 != 0
  }

  /** Where the module in column x and row y is stored. */
  function CellAt(x: nat, y: nat, w: nat): nat {
    Times(y, w) + x
  }

  function Index(c: Cursor, w: nat): nat
    requires On(c, w)
  {
    CellAt(c.x, c.y, w)
  }

  /** The modules that are not reserved from c on, in the order of the path. */
  function Free(c: Cursor, w: nat, frame: seq<bv8>): seq<nat>
    requires Width(w) && On(c, w)
    decreases Right(c), RowsLeft(c, w), 1 - c.bit, 1
  {
    (if Reserved(frame, Index(c, w)) then [] else [Index(c, w)]) + Rest(c, w, frame)
  }

  /** The same after c. */
  function Rest(c: Cursor, w: nat, frame: seq<bv8>): seq<nat>
    requires Width(w) && On(c, w)
    decreases Right(c), RowsLeft(c, w), 1 - c.bit, 0
  {
    Follows(c, w);
    match Advance(c, w)
    case None => []
    case Some(d) =>
      Descends(c, w);
      Free(d, w, frame)
  }

  /** What successive calls of FrameFiller_next return: the first module in any case, then
      those that are not reserved. */
  function Cells(w: nat, frame: seq<bv8>): seq<nat>
    requires Width(w)
  {
    StartOnPath(w);
    [Index(Start(w), w)] + Rest(Start(w), w, frame)
  }

  lemma IndexOnce(c: Cursor, d: Cursor, w: nat)
    requires Width(w) && On(c, w) && On(d, w) && Index(c, w) == Index(d, w)
    ensures c == d
  {
    hide Upward, RightColumn;
    SameQuotient(c.y, c.x, d.y, d.x, w);
  }

  lemma SameQuotient(a: nat, b: nat, c: nat, d: nat, n: nat)
    requires b < n && d < n && Times(a, n) + b == Times(c, n) + d
    ensures a == c && b == d
  {
    Below(a, b, c, d, n);
    Below(c, d, a, b, n);
  }

  lemma Below(a: nat, b: nat, c: nat, d: nat, n: nat)
    requires b < n && d < n
    ensures a < c ==> Times(a, n) + b < Times(c, n) + d
  {
    if a < c {
      Monotone(a + 1, c, n);
    }
  }

  lemma {:induction false} FreeFrom(c: Cursor, w: nat, frame: seq<bv8>, v: nat)
    requires Width(w) && On(c, w) && v in Free(c, w, frame)
    ensures !Reserved(frame, v)
    ensures exists d :: On(d, w) && Rank(d, w) >= Rank(c, w) && Index(d, w) == v
    decreases Right(c), RowsLeft(c, w), 1 - c.bit
  {
    hide On, Rank, Advance, Right, RowsLeft, Index, Reserved;
    if v != Index(c, w) || Reserved(frame, v) {
      Follows(c, w);
      Descends(c, w);
      var d := Advance(c, w).value;
      FreeFrom(d, w, frame, v);
    }
  }

  lemma {:induction false} FreeDistinct(c: Cursor, w: nat, frame: seq<bv8>)
    requires Width(w) && On(c, w)
    ensures forall i, j :: 0 <= i < j < |Free(c, w, frame)| ==> Free(c, w, frame)[i] != Free(c, w, frame)[j]
    ensures Index(c, w) !in Rest(c, w, frame)
    ensures forall i, j :: 0 <= i < j < |Rest(c, w, frame)| ==> Rest(c, w, frame)[i] != Rest(c, w, frame)[j]
    decreases Right(c), RowsLeft(c, w), 1 - c.bit
  {
    hide On, Rank, Advance, Right, RowsLeft, Index, Reserved;
    Follows(c, w);
    if Advance(c, w).Some? {
      Descends(c, w);
      var d := Advance(c, w).value;
      FreeDistinct(d, w, frame);
      if Index(c, w) in Free(d, w, frame) {
        FreeFrom(d, w, frame, Index(c, w));
        var e :| On(e, w) && Rank(e, w) >= Rank(d, w) && Index(e, w) == Index(c, w);
        IndexOnce(c, e, w);
      }
    }
  }

  lemma {:induction false} WalkFree(c: Cursor, w: nat, frame: seq<bv8>, i: nat)
    requires Width(w) && On(c, w) && i < |Walk(c, w)|
    ensures On(Walk(c, w)[i], w)
    ensures
      var v := Index(Walk(c, w)[i], w);
      (Reserved(frame, v) || v in Free(c, w, frame)) && (i > 0 && !Reserved(frame, v) ==> v in Rest(c, w, frame))
    decreases i
  {
    hide On, Rank, Right, RowsLeft, Index, Reserved, Advance;
    Follows(c, w);
    if i > 0 {
      WalkFree(Advance(c, w).value, w, frame, i - 1);
    }
  }

  /** Every free module once, no reserved one. */
  predicate EachOnce(w: nat, frame: seq<bv8>)
    requires Width(w)
  {
    var cells := Cells(w, frame);
    && (forall i, j :: 0 <= i < j < |cells| ==> cells[i] != cells[j])
    && forall x: nat, y: nat {:trigger CellAt(x, y, w)} :: x < w && y < w ==> (CellAt(x, y, w) in cells <==> !Reserved(frame, CellAt(x, y, w)))
  }

  /** What the frame must reserve: column 6, columns 4 and 5 above row 9; the first module
      must be free. */
  predicate Suitable(w: nat, frame: seq<bv8>)
    requires Width(w)
  {
    && !Reserved(frame, CellAt(w - 1, w - 1, w))
    && forall x: nat, y: nat {:trigger CellAt(x, y, w)} :: x < w && y < w && !OnPath(x, y, w) ==> Reserved(frame, CellAt(x, y, w))
  }

  lemma CellOnPath(w: nat, frame: seq<bv8>, x: nat, y: nat)
    requires Width(w) && x < w && y < w && CellAt(x, y, w) in Cells(w, frame)
    ensures OnPath(x, y, w) && (Reserved(frame, CellAt(x, y, w)) ==> x == y == w - 1)
  {
    hide Rank, Upward, RightColumn, Reserved, Rest;
    var v := CellAt(x, y, w);
    StartOnPath(w);
    if v == Index(Start(w), w) {
      SameQuotient(y, x, w - 1, w - 1, w);
    } else {
      InFree(Start(w), w, frame, v);
      FreeFrom(Start(w), w, frame, v);
      var d :| On(d, w) && Rank(d, w) >= Rank(Start(w), w) && Index(d, w) == v;
      SameQuotient(y, x, d.y, d.x, w);
    }
  }

  lemma InFree(c: Cursor, w: nat, frame: seq<bv8>, v: nat)
    requires Width(w) && On(c, w) && v in Rest(c, w, frame)
    ensures v in Free(c, w, frame)
  {
    hide Rest;
  }

  lemma PathInCells(w: nat, frame: seq<bv8>, x: nat, y: nat)
    requires Width(w) && OnPath(x, y, w) && !Reserved(frame, CellAt(x, y, w))
    ensures CellAt(x, y, w) in Cells(w, frame)
  {
    hide Rank, Upward, RightColumn, Reserved, Walk, Rest;
    var c := At(x, y, w);
    Meets(c, w);
    StartOnPath(w);
    WalkFree(Start(w), w, frame, Rank(c, w));
    if Rank(c, w) == 0 {
      WalkHead(Start(w), w);
    }
  }

  /** FrameFiller_next visits every free module exactly once if and only if the frame
      reserves what the path leaves out. */
  lemma PlacementExact(w: nat, frame: seq<bv8>)
    requires Width(w)
    ensures EachOnce(w, frame) <==> Suitable(w, frame)
  {
    hide Reserved, Cells;
    StartOnPath(w);
    CellsDistinct(w, frame);
    StartInCells(w, frame);
    if EachOnce(w, frame) {
      forall x: nat, y: nat {:trigger CellAt(x, y, w)} | x < w && y < w && !OnPath(x, y, w) ensures Reserved(frame, CellAt(x, y, w)) {
        if CellAt(x, y, w) in Cells(w, frame) {
          CellOnPath(w, frame, x, y);
        }
      }
    }
    if Suitable(w, frame) {
      forall x: nat, y: nat {:trigger CellAt(x, y, w)} | x < w && y < w
        ensures CellAt(x, y, w) in Cells(w, frame) <==> !Reserved(frame, CellAt(x, y, w))
      {
        if CellAt(x, y, w) in Cells(w, frame) {
          CellOnPath(w, frame, x, y);
        } else if !Reserved(frame, CellAt(x, y, w)) {
          PathInCells(w, frame, x, y);
        }
      }
    }
  }

  lemma StartInCells(w: nat, frame: seq<bv8>)
    requires Width(w)
    ensures CellAt(w - 1, w - 1, w) in Cells(w, frame)
  {
    StartOnPath(w);
    hide Rest;
  }

  lemma CellsDistinct(w: nat, frame: seq<bv8>)
    requires Width(w)
    ensures forall i, j :: 0 <= i < j < |Cells(w, frame)| ==> Cells(w, frame)[i] != Cells(w, frame)[j]
  {
    hide Rest, Reserved;
    StartOnPath(w);
    FreeDistinct(Start(w), w, frame);
  }

  // ----- the order -----

  /** The right column of the pair that column x is in: pairs are counted from the right edge,
      and column 6 is in none. */
  function PairRight(x: nat): nat {
    if x > 6 then x + x % 2 else x + 1 - x % 2
  }

  /** Section 8.7.3 of ISO/IEC 18004: pairs of columns from right to left, the first upwards, the
      next downwards and so on; in each row the right module first. */
  predicate Before(x: nat, y: nat, u: nat, v: nat, w: nat) {
    var p, q := PairRight(x), PairRight(u);
    var pairsBefore := (if p > 6 then w - 1 - p else w - 2 - p) / 2;
    || p > q
    || (p == q && if y == v then x > u else if pairsBefore % 2 == 0 then y > v else y < v)
  }

  predicate Earlier(c: Cursor, d: Cursor, w: nat) {
    || Right(c) > Right(d)
    || (Right(c) == Right(d) && (RowsLeft(c, w) > RowsLeft(d, w) || (RowsLeft(c, w) == RowsLeft(d, w) && c.bit < d.bit)))
  }

  lemma EarlierStep(c: Cursor, d: Cursor, e: Cursor, w: nat)
    requires Width(w) && On(c, w) && Advance(c, w) == Some(d) && (d == e || Earlier(d, e, w))
    ensures Earlier(c, e, w)
  {
    Descends(c, w);
    hide Right, RowsLeft, Advance, On;
  }

  /** Whatever is still free lies further on. */
  lemma {:induction false} FreeLater(c: Cursor, w: nat, frame: seq<bv8>, j: nat) returns (d: Cursor)
    requires Width(w) && On(c, w) && j < |Free(c, w, frame)|
    ensures On(d, w) && Index(d, w) == Free(c, w, frame)[j] && (d == c || Earlier(c, d, w))
    decreases Right(c), RowsLeft(c, w), 1 - c.bit
  {
    hide On, Rank, Advance, Right, RowsLeft, Index, Reserved, Earlier;
    var here := if Reserved(frame, Index(c, w)) then 0 else 1;
    if j < here {
      d := c;
    } else {
      Follows(c, w);
      Descends(c, w);
      d := FreeLater(Advance(c, w).value, w, frame, j - here);
      EarlierStep(c, Advance(c, w).value, d, w);
    }
  }

  lemma {:induction false} FreeInOrder(c: Cursor, w: nat, frame: seq<bv8>, i: nat, j: nat) returns (d: Cursor, e: Cursor)
    requires Width(w) && On(c, w) && i < j < |Free(c, w, frame)|
    ensures On(d, w) && Index(d, w) == Free(c, w, frame)[i] && On(e, w) && Index(e, w) == Free(c, w, frame)[j]
    ensures Earlier(d, e, w)
    decreases Right(c), RowsLeft(c, w), 1 - c.bit
  {
    hide On, Rank, Advance, Right, RowsLeft, Index, Reserved, Earlier;
    var here := if Reserved(frame, Index(c, w)) then 0 else 1;
    Follows(c, w);
    Descends(c, w);
    if i < here {
      d := c;
      e := FreeLater(Advance(c, w).value, w, frame, j - here);
      EarlierStep(c, Advance(c, w).value, e, w);
    } else {
      d, e := FreeInOrder(Advance(c, w).value, w, frame, i - here, j - here);
    }
  }

  lemma EarlierBefore(c: Cursor, d: Cursor, w: nat)
    requires Width(w) && On(c, w) && On(d, w) && Earlier(c, d, w)
    ensures Before(c.x, c.y, d.x, d.y, w)
  {
    PairOfColumn(c.x, w);
    PairOfColumn(d.x, w);
    hide Pair, PairRight, RightColumn;
  }

  lemma PairOfColumn(x: nat, w: nat)
    requires Width(w) && x < w && x != 6
    ensures PairRight(x) == if RightColumn(x) then x else x + 1
    ensures Pair(x, w) == (if PairRight(x) > 6 then w - 1 - PairRight(x) else w - 2 - PairRight(x)) / 2
    ensures PairRight(x) > 6 <==> x > 6
  {
  }

  /** The filler goes through the modules in the standard's order. */
  lemma InOrder(w: nat, frame: seq<bv8>, i: nat, j: nat) returns (x: nat, y: nat, u: nat, v: nat)
    requires Width(w) && i < j < |Cells(w, frame)|
    ensures x < w && y < w && CellAt(x, y, w) == Cells(w, frame)[i]
    ensures u < w && v < w && CellAt(u, v, w) == Cells(w, frame)[j]
    ensures Before(x, y, u, v, w)
  {
    hide Rank, Right, RowsLeft, Reserved, Earlier, Before, Upward, RightColumn, Pair, CellAt;
    StartOnPath(w);
    var s := Start(w);
    var c, d := s, s;
    if i == 0 {
      RestLater(w, frame, j);
      Follows(s, w);
      d := FreeLater(Advance(s, w).value, w, frame, j - 1);
      EarlierStep(s, Advance(s, w).value, d, w);
    } else {
      RestLater(w, frame, j);
      Follows(s, w);
      c, d := FreeInOrder(Advance(s, w).value, w, frame, i - 1, j - 1);
    }
    EarlierBefore(c, d, w);
    x, y, u, v := c.x, c.y, d.x, d.y;
  }

  lemma RestLater(w: nat, frame: seq<bv8>, j: nat)
    requires Width(w) && 0 < j < |Cells(w, frame)|
    ensures On(Start(w), w) && Advance(Start(w), w).Some? && On(Advance(Start(w), w).value, w)
    ensures Cells(w, frame)[1..] == Free(Advance(Start(w), w).value, w, frame)
  {
    StartOnPath(w);
    Follows(Start(w), w);
    hide Rank, Free, On, Advance, Index;
  }

  // ----- the filler -----

  lemma {:induction false} SameReserved(c: Cursor, w: nat, f: seq<bv8>, g: seq<bv8>)
    requires Width(w) && On(c, w) && forall i :: Reserved(f, i) <==> Reserved(g, i)
    ensures Rest(c, w, f) == Rest(c, w, g)
    decreases Right(c), RowsLeft(c, w), 1 - c.bit
  {
    hide On, Advance, Right, RowsLeft, Index, Reserved;
    Follows(c, w);
    if Advance(c, w).Some? {
      Descends(c, w);
      SameReserved(Advance(c, w).value, w, f, g);
    }
  }

  lemma CellInside(c: Cursor, w: nat)
    requires On(c, w)
    ensures Index(c, w) < Times(w, w)
  {
    Monotone(c.y + 1, w, w);
  }

  /** FrameFiller of a full-size symbol. */
  class FrameFiller {
    const width: nat
    const frame: array<bv8>
    var x: int
    var y: int
    var dir: int
    var bit: int

    /** FrameFiller_set */
    constructor (width: nat, frame: array<bv8>)
      requires Width(width) && frame.Length == Times(width, width)
      ensures Valid() && this.width == width && this.frame == frame && bit == -1
      ensures Todo() == Cells(width, frame[..])
    {
      this.width, this.frame := width, frame;
      x, y, dir, bit := width - 1, width - 1, -1, -1;
    }

    ghost predicate Valid()
      reads this
    {
      && Width(width) && frame.Length == Times(width, width)
      && if bit == -1 then x == y == width - 1 && dir == -1 else On(Cursor(x, y, dir, bit), width)
    }

    /** The modules that the following calls return. */
    ghost function Todo(): seq<nat>
      requires Valid()
      reads this, frame
    {
      if bit == -1 then Cells(width, frame[..]) else Rest(Cursor(x, y, dir, bit), width, frame[..])
    }

    ghost function Remaining(): nat
      requires Valid()
      reads this
    {
      if bit == -1 then 0 else |Walk(Cursor(x, y, dir, bit), width)|
    }

    /** The part of FrameFiller_next that moves on; x and y are left to the caller. */
    method Move() returns (x': int, y': int)
      requires Valid() && bit != -1
      modifies `dir, `bit
      ensures Advance(old(Cursor(x, y, dir, bit)), width) ==
                if x' < 0 || y' < 0 then None else Some(Cursor(x', y', dir, bit))
    {
      hide Upward, RightColumn;
      x', y' := x, y;
      if bit == 0 {
        x' := x' - 1;
        bit := bit + 1;
      } else {
        x' := x' + 1;
        y' := y' + dir;
        bit := bit - 1;
      }
      if dir < 0 {
        if y' < 0 {
          y' := 0;
          x' := x' - 2;
          dir := 1;
          if x' == 6 {
            x' := x' - 1;
            y' := 9;
          }
        }
      } else if y' == width {
        y' := width - 1;
        x' := x' - 2;
        dir := -1;
        if x' == 6 {
          x' := x' - 1;
          y' := y' - 8;
        }
      }
    }

    /** FrameFiller_next: an index into the frame, or -1 for NULL. */
    method Next() returns (p: int)
      requires Valid()
      modifies this
      ensures old(Todo()) == [] ==> p == -1
      ensures old(Todo()) != [] ==>
                && Valid() && bit != -1 && p == old(Todo())[0] && Todo() == old(Todo())[1..]
                && 0 <= p < frame.Length && (old(bit) != -1 ==> !Reserved(frame[..], p))
      decreases Remaining()
    {
      hide Rank, Upward, RightColumn, Reserved, Rest, Walk, Advance, Offset, OnPath;
      StartOnPath(width);
      if bit == -1 {
        bit := 0;
        CellInside(Start(width), width);
        return Offset(x, y, width);
      }
      ghost var c := Cursor(x, y, dir, bit);
      Follows(c, width);
      NextRest(c, width, frame[..]);
      var x', y' := Move();
      if x' < 0 || y' < 0 {
        return -1;
      }
      x, y := x', y';
      CellInside(Cursor(x, y, dir, bit), width);
      p := Offset(x, y, width);
      IsReserved(frame[..], p);
      if frame[p] & 0x80 != 0 {
        p := Next();
      }
    }
  }

  /** The offset the source computes. */
  function Offset(x: nat, y: nat, w: nat): (r: nat)
    ensures r == CellAt(x, y, w)
  {
    TimesIs(y, w);
    y * w + x
  }

  lemma IsReserved(frame: seq<bv8>, i: nat)
    requires i < |frame|
    ensures Reserved(frame, i) <==> frame[i] & 0x80 != 0
  {
  }

  lemma NextRest(c: Cursor, w: nat, frame: seq<bv8>)
    requires Width(w) && On(c, w)
    ensures
      match Advance(c, w)
      case None => Rest(c, w, frame) == []
      case Some(d) =>
        && On(d, w) && d.bit != -1 && d.x >= 0 && d.y >= 0 && |Walk(c, w)| == |Walk(d, w)| + 1
        && Rest(c, w, frame) == (if Reserved(frame, Index(d, w)) then [] else [Index(d, w)]) + Rest(d, w, frame)
  {
    hide Reserved, Advance, Rank, Upward, RightColumn;
    Follows(c, w);
  }
}
