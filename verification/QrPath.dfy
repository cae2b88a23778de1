/** The path of FrameFiller_next (qrcode/qrencode.c:287-351) over a symbol of width 4k + 17:
    two columns at a time, up and down in turn from the right edge, column 6 left out. */
module QrPath {
  import opened Common

  /** The fields x, y, dir and bit of a FrameFiller after its first module. */
  datatype Cursor = Cursor(x: int, y: int, dir: int, bit: int)

  predicate Width(w: nat) {
    w >= 17 && w % 4 == 1
  }

  /** One step of FrameFiller_next before it asks whether the module is reserved; None
      where the source returns NULL. */
  function Advance(c: Cursor, w: nat): Option<Cursor> {
    var x := if c.bit == 0 then c.x - 1 else c.x + 1;
    var y := if c.bit == 0 then c.y else c.y + c.dir;
    var bit := if c.bit == 0 then 1 else c.bit - 1;
    var d :=
      if c.dir < 0 then
        if y < 0 then
          if x - 2 == 6 then Cursor(x - 3, 9, 1, bit) else Cursor(x - 2, 0, 1, bit)
        else Cursor(x, y, c.dir, bit)
      else if y == w then
        if x - 2 == 6 then Cursor(x - 3, w - 9, -1, bit) else Cursor(x - 2, w - 1, -1, bit)
      else Cursor(x, y, c.dir, bit);
    if d.x < 0 || d.y < 0 then None else Some(d)
  }

  // ----- where a cursor is -----

  /** The pair of columns x belongs to, counted from the right. */
  function Pair(x: int, w: nat): int {
    if x > 6 then (w - 1 - x) / 2 else (w - 2 - x) / 2
  }

  predicate Upward(x: int, w: nat) {
    Pair(x, w) % 2 == 0
  }

  predicate RightColumn(x: int) {
    if x > 6 then x % 2 == 0 else x % 2 == 1
  }

  /** The modules of columns 4 and 5 above row 9 are not on the path. */
  function Top(x: int): nat {
    if x == 4 || x == 5 then 9 else 0
  }

  predicate OnPath(x: int, y: int, w: nat) {
    0 <= x < w && x != 6 && Top(x) <= y < w
  }

  function At(x: int, y: int, w: nat): Cursor {
    Cursor(x, y, if Upward(x, w) then -1 else 1, if RightColumn(x) then 0 else 1)
  }

  predicate On(c: Cursor, w: nat) {
    OnPath(c.x, c.y, w) && c == At(c.x, c.y, w)
  }

  function Start(w: nat): Cursor {
    At(w - 1, w - 1, w)
  }

  /** How many modules of the path lie in front of the pair of column x. */
  function Base(x: int, w: nat): int {
    Pair(x, w) * (2 * w) - if x < 4 then 18 else 0
  }

  /** The position of a module on the path. */
  function Rank(c: Cursor, w: nat): int {
    Base(c.x, w) + 2 * (if Upward(c.x, w) then w - 1 - c.y else c.y - Top(c.x)) + if RightColumn(c.x) then 0 else 1
  }

  /** The number of modules on the path. */
  function Count(w: nat): int {
    w * (w - 1) - 18
  }

  /** The right column of the pair to the left of x's. */
  function NextColumn(x: int): int {
    if x == 8 then 5 else x - 2
  }

  /** Pairs alternate between up and down; the last one goes down. */
  lemma Pairs(x: int, w: nat)
    requires Width(w) && 0 <= x < w && x != 6 && RightColumn(x)
    ensures x >= 1 && Pair(x - 1, w) == Pair(x, w) && !RightColumn(x - 1)
    ensures Upward(x - 1, w) == Upward(x, w)
    ensures x > 1 ==> NextColumn(x) > 0 && RightColumn(NextColumn(x)) && Pair(NextColumn(x), w) == Pair(x, w) + 1
    ensures x > 1 ==> Upward(NextColumn(x), w) == !Upward(x, w)
    ensures x == 1 ==> !Upward(x, w)
    ensures x == 5 ==> !Upward(x, w)
    ensures x == 8 ==> Upward(x, w)
    ensures x == w - 1 ==> Upward(x, w) && Pair(x, w) == 0
    ensures x == 1 ==> 2 * Pair(x, w) == w - 3
  {
    var k, m := w / 4, x / 2;
    PairOf(x, w, k, m);
    if x > 1 {
      PairOf(NextColumn(x), w, k, NextColumn(x) / 2);
    }
    hide Pair;
    Alternates(Pair(x, w));
    Even(k, m);
  }

  lemma PairOf(x: int, w: nat, k: int, m: int)
    requires w == 4 * k + 1 && 0 <= x < w && x != 6 && RightColumn(x) && m == x / 2
    ensures x == if x > 6 then 2 * m else 2 * m + 1
    ensures Pair(x, w) == (if x > 6 then 2 * k - m else 2 * k - 1 - m)
    ensures Pair(x - 1, w) == Pair(x, w)
  {
    if x > 6 {
      assert w - 1 - x == 2 * (2 * k - m);
    } else {
      assert w - 2 - x == 2 * (2 * k - 1 - m);
    }
  }

  lemma Alternates(q: int)
    ensures ((q + 1) % 2 == 0) == (q % 2 != 0)
  {
  }

  lemma Even(k: int, m: int)
    ensures (2 * k - m) % 2 == m % 2
    ensures (2 * k - 1 - m) % 2 == (m + 1) % 2
  {
  }

  lemma Bases(x: int, w: nat)
    requires Width(w) && 0 <= x < w && x != 6 && RightColumn(x)
    ensures Base(x - 1, w) == Base(x, w)
    ensures x > 1 ==> Base(NextColumn(x), w) == Base(x, w) + 2 * w - if x == 5 then 18 else 0
    ensures x == 1 ==> Base(x, w) + 2 * w == Count(w)
    ensures x == w - 1 ==> Base(x, w) == 0
  {
    Pairs(x, w);
    hide Pair, RightColumn;
    if x > 1 {
      Grows(Pair(x, w), w);
    } else {
      Whole(Pair(x, w), w);
    }
  }

  lemma Grows(q: int, w: nat)
    ensures (q + 1) * (2 * w) == q * (2 * w) + 2 * w
  {
  }

  lemma Whole(q: int, w: nat)
    requires 2 * q == w - 3
    ensures q * (2 * w) + 2 * w == w * (w - 1)
  {
  }

  /** Every step goes to the next position; the last position is the last module. */
  lemma Follows(c: Cursor, w: nat)
    requires Width(w) && On(c, w)
    ensures
      match Advance(c, w)
      case Some(d) => On(d, w) && Rank(d, w) == Rank(c, w) + 1
      case None => Rank(c, w) == Count(w) - 1
  {
    hide Rank, Count;
    if RightColumn(c.x) {
      FollowsLeft(c, w);
    } else {
      FollowsRight(c, w);
    }
  }

  lemma FollowsLeft(c: Cursor, w: nat)
    requires Width(w) && On(c, w) && RightColumn(c.x)
    ensures Advance(c, w) == Some(At(c.x - 1, c.y, w)) && On(At(c.x - 1, c.y, w), w)
    ensures Rank(At(c.x - 1, c.y, w), w) == Rank(c, w) + 1
  {
    Pairs(c.x, w);
    Bases(c.x, w);
    hide Pair, Base, Upward, RightColumn, Count;
  }

  lemma FollowsRight(c: Cursor, w: nat)
    requires Width(w) && On(c, w) && !RightColumn(c.x)
    ensures
      match Advance(c, w)
      case Some(d) => On(d, w) && Rank(d, w) == Rank(c, w) + 1
      case None => Rank(c, w) == Count(w) - 1
  {
    var r := c.x + 1;
    Columns(c.x, w);
    Pairs(r, w);
    Bases(r, w);
    if r > 1 {
      Pairs(NextColumn(r), w);
    }
    hide Pair, Base, Upward, RightColumn, Count;
  }

  /** The step back. */
  function Previous(c: Cursor, w: nat): Cursor {
    if !RightColumn(c.x) then At(c.x + 1, c.y, w)
    else if Upward(c.x, w) then
      if c.y < w - 1 then At(c.x - 1, c.y + 1, w) else At(c.x + 1, w - 1, w)
    else if c.y > Top(c.x) then At(c.x - 1, c.y - 1, w)
    else At(if c.x == 5 then 7 else c.x + 1, 0, w)
  }

  /** Does the path enter the pair of columns at c? */
  predicate Enters(c: Cursor, w: nat) {
    RightColumn(c.x) && c.y == if Upward(c.x, w) then w - 1 else Top(c.x)
  }

  /** Every module of the path but the first is a step away from another. */
  lemma Precedes(c: Cursor, w: nat)
    requires Width(w) && On(c, w) && c != Start(w)
    ensures On(Previous(c, w), w) && Advance(Previous(c, w), w) == Some(c)
  {
    hide On, Previous, Advance, Pair;
    if Enters(c, w) {
      PrecedesColumn(c, w);
    } else {
      PrecedesInside(c, w);
    }
  }

  lemma PrecedesInside(c: Cursor, w: nat)
    requires Width(w) && On(c, w) && !Enters(c, w)
    ensures On(Previous(c, w), w) && Advance(Previous(c, w), w) == Some(c)
  {
    if RightColumn(c.x) {
      Pairs(c.x, w);
    } else {
      Columns(c.x, w);
      Pairs(c.x + 1, w);
    }
    hide Pair, Upward, RightColumn;
  }

  lemma PrecedesColumn(c: Cursor, w: nat)
    requires Width(w) && On(c, w) && Enters(c, w) && c != Start(w)
    ensures On(Previous(c, w), w) && Advance(Previous(c, w), w) == Some(c)
  {
    Pairs(c.x, w);
    if c.x < w - 1 {
      PrecedingColumn(c.x, w);
      Pairs(if c.x == 5 then 8 else c.x + 2, w);
    }
    hide Pair, Upward, RightColumn;
  }

  lemma PrecedingColumn(x: int, w: nat)
    requires Width(w) && 0 <= x < w - 1 && x != 6 && RightColumn(x)
    ensures var p := if x == 5 then 8 else x + 2; p < w && p != 6 && RightColumn(p) && NextColumn(p) == x
  {
  }

  lemma Columns(x: int, w: nat)
    requires Width(w) && 0 <= x < w && x != 6 && !RightColumn(x)
    ensures x + 1 < w && x + 1 != 6 && RightColumn(x + 1)
  {
  }

  // ----- the whole path -----

  /** The right column of the cursor's pair. */
  function Right(c: Cursor): int {
    if RightColumn(c.x) then c.x else c.x + 1
  }

  function RowsLeft(c: Cursor, w: nat): int {
    if Upward(c.x, w) then c.y else w - 1 - c.y
  }

  lemma Descends(c: Cursor, w: nat)
    requires Width(w) && On(c, w) && Advance(c, w).Some?
    ensures
      var d := Advance(c, w).value;
      Right(d) < Right(c) || (Right(d) == Right(c) && RowsLeft(d, w) < RowsLeft(c, w))
      || (Right(d) == Right(c) && RowsLeft(d, w) == RowsLeft(c, w) && d.bit > c.bit)
    ensures Right(c) >= 0 && RowsLeft(c, w) >= 0 && 0 <= c.bit <= 1
  {
    if RightColumn(c.x) {
      FollowsLeft(c, w);
      Pairs(c.x, w);
    } else {
      Columns(c.x, w);
      Pairs(c.x + 1, w);
    }
    hide Pair, Upward, RightColumn;
  }

  /** The modules from c to the end of the path. */
  function Walk(c: Cursor, w: nat): seq<Cursor>
    requires Width(w) && On(c, w)
    decreases Right(c), RowsLeft(c, w), 1 - c.bit
  {
    Follows(c, w);
    match Advance(c, w)
    case None => [c]
    case Some(d) =>
      Descends(c, w);
      [c] + Walk(d, w)
  }

  /** The i-th module of a walk is i positions further on. */
  lemma {:induction false} Positions(c: Cursor, w: nat, i: nat)
    requires Width(w) && On(c, w)
    ensures |Walk(c, w)| == Count(w) - Rank(c, w)
    ensures i < |Walk(c, w)| ==> On(Walk(c, w)[i], w) && Rank(Walk(c, w)[i], w) == Rank(c, w) + i
    decreases Right(c), RowsLeft(c, w), 1 - c.bit
  {
    hide On, Rank, Advance, Count, Right, RowsLeft;
    Follows(c, w);
    match Advance(c, w)
    case None =>
    case Some(d) =>
      Descends(c, w);
      Positions(d, w, if i > 0 then i - 1 else 0);
  }

  lemma {:induction false} WalkSteps(c: Cursor, w: nat, i: nat)
    requires Width(w) && On(c, w) && i < |Walk(c, w)|
    ensures
      match Advance(Walk(c, w)[i], w)
      case None => i + 1 == |Walk(c, w)|
      case Some(d) => i + 1 < |Walk(c, w)| && Walk(c, w)[i + 1] == d
    decreases i
  {
    hide On, Rank, Count, Right, RowsLeft;
    Follows(c, w);
    match Advance(c, w)
    case None =>
    case Some(d) =>
      hide Advance;
      if i > 0 {
        WalkSteps(d, w, i - 1);
      }
  }

  lemma RankNotNegative(c: Cursor, w: nat)
    requires Width(w) && On(c, w)
    ensures Rank(c, w) >= 0
  {
    assert c.x < 4 ==> w - 2 - c.x >= 12;
    assert Pair(c.x, w) >= 0 && (c.x < 4 ==> Pair(c.x, w) > 0);
    NotNegative(Pair(c.x, w), w);
    hide Pair, Upward;
  }

  lemma NotNegative(q: int, w: nat)
    requires q >= 0 && w >= 17
    ensures q * (2 * w) >= 0 && (q > 0 ==> q * (2 * w) >= 34)
  {
  }

  lemma StartOnPath(w: nat)
    requires Width(w)
    ensures On(Start(w), w) && Rank(Start(w), w) == 0 && Start(w) == Cursor(w - 1, w - 1, -1, 0)
  {
    hide Pair, Base, Upward, RightColumn;
    Corner(w);
    Pairs(w - 1, w);
    Bases(w - 1, w);
  }

  lemma Corner(w: nat)
    requires Width(w)
    ensures RightColumn(w - 1)
  {
    var k := w / 4;
    assert w - 1 == 2 * (2 * k);
  }

  /** The walk from the lower right corner meets every module of the path, at its rank. */
  lemma {:induction false} Meets(c: Cursor, w: nat)
    requires Width(w) && On(c, w)
    ensures On(Start(w), w) && 0 <= Rank(c, w) < |Walk(Start(w), w)| && Walk(Start(w), w)[Rank(c, w)] == c
    decreases Rank(c, w)
  {
    hide On, Rank, Advance, Count, Previous, Start;
    StartOnPath(w);
    RankNotNegative(c, w);
    if c != Start(w) {
      var b := Previous(c, w);
      Precedes(c, w);
      Follows(b, w);
      RankNotNegative(b, w);
      Meets(b, w);
      WalkSteps(Start(w), w, Rank(b, w));
    } else {
      Positions(c, w, 0);
      WalkHead(c, w);
    }
  }

  lemma WalkHead(c: Cursor, w: nat)
    requires Width(w) && On(c, w)
    ensures |Walk(c, w)| > 0 && Walk(c, w)[0] == c
  {
    hide On, Rank, Advance, Count;
    Follows(c, w);
  }
}
