/** The demerits of a row or a column, module by module: what is added up for its runs is what
    section 8.8.2 of ISO/IEC 18004 asks of the line itself. */
module QrDemerits {
  import opened QrRuns

  // ----- the demerits of a line, without runs -----

  /** Where the modules of one colour that begin at a end. */
  function RunEnd(line: seq<bool>, a: nat): (b: nat)
    requires a < |line|
    ensures a < b <= |line|
    decreases |line| - a
  {
    if a + 1 < |line| && line[a + 1] == line[a] then RunEnd(line, a + 1) else a + 1
  }

  predicate Begins(line: seq<bool>, a: nat)
    requires a < |line|
  {
    a == 0 || line[a - 1] != line[a]
  }

  /** Three for five adjacent modules of one colour, and one for each further one. */
  function RunCost(line: seq<bool>, a: nat): nat
    requires a < |line|
  {
    if Begins(line, a) && RunEnd(line, a) - a >= 5 then 3 + (RunEnd(line, a) - a - 5) else 0
  }

  /** No dark module from one place up to another, as far as the line goes. */
  predicate Light(line: seq<bool>, from: int, to: int) {
    forall k :: 0 <= k < |line| && from <= k < to ==> !line[k]
  }

  /** Adjacent modules of one colour each, of these widths, from b on. */
  predicate Widths(line: seq<bool>, b: nat, ws: seq<nat>)
    decreases |ws|
  {
    |ws| == 0 || (b < |line| && RunEnd(line, b) == b + ws[0] && Widths(line, b + ws[0], ws[1..]))
  }

  /** 1:1:3:1:1 */
  function Finder(f: nat): seq<nat> {
    [f, f, 3 * f, f, f]
  }

  /** What looks like a finder pattern, with four light units on one side or up to the edge. */
  predicate FinderOf(line: seq<bool>, a: nat, f: nat)
    requires a < |line|
  {
    Begins(line, a) && line[a] && Widths(line, a, Finder(f)) && (Light(line, a - 4 * f, a) || Light(line, a + 7 * f, a + 11 * f))
  }

  predicate FinderAt(line: seq<bool>, a: nat)
    requires a < |line|
  {
    FinderOf(line, a, RunEnd(line, a) - a)
  }

  function PlaceCost(line: seq<bool>, a: nat): nat
    requires a < |line|
  {
    RunCost(line, a) + if FinderAt(line, a) then 40 else 0
  }

  function LineCost(line: seq<bool>, n: nat): nat
    requires n <= |line|
  {
    if n == 0 then 0 else LineCost(line, n - 1) + PlaceCost(line, n - 1)
  }

  // ----- where the runs stand -----

  /** Where run i begins. */
  function Place(runs: seq<int>, i: nat): nat
    requires i <= |runs|
  {
    if i == 0 then 0 else Place(runs, i - 1) + if runs[i - 1] > 0 then runs[i - 1] else 0
  }

  lemma {:induction false} StretchAt(dark: bool, k: int)
    ensures |Stretch(dark, k)| == if k > 0 then k else 0
    ensures forall i :: 0 <= i < |Stretch(dark, k)| ==> Stretch(dark, k)[i] == dark
    decreases k
  {
    if k > 0 {
      StretchAt(dark, k - 1);
    }
  }

  lemma {:induction false} PlaceIs(runs: seq<int>, i: nat)
    requires i <= |runs|
    ensures Place(runs, i) == |Colours(runs[..i])|
    decreases i
  {
    hide Stretch;
    if i > 0 {
      PlaceIs(runs, i - 1);
      assert runs[..i][..i - 1] == runs[..i - 1];
      StretchAt(i % 2 == 0, runs[i - 1]);
    }
  }

  lemma {:induction false} PlacesRise(runs: seq<int>, i: nat, j: nat)
    requires i <= j <= |runs|
    ensures Place(runs, i) <= Place(runs, j)
    decreases j
  {
    if i < j {
      PlacesRise(runs, i, j - 1);
    }
  }

  /** The modules of run i: dark if i is odd. */
  lemma {:induction false} ColourAt(runs: seq<int>, i: nat, k: nat)
    requires i < |runs| && Place(runs, i) <= k < Place(runs, i + 1)
    ensures k < |Colours(runs)| && (Colours(runs)[k] <==> i % 2 == 1)
    decreases |runs|
  {
    hide Stretch, Place;
    var n := |runs| - 1;
    PlaceIs(runs, n);
    PlaceIs(runs, n + 1);
    assert runs[..n + 1] == runs;
    StretchAt(|runs| % 2 == 0, runs[n]);
    ColoursStep(runs);
    if i < n {
      PlaceSame(runs, runs[..n], i);
      PlaceSame(runs, runs[..n], i + 1);
      ColourAt(runs[..n], i, k);
    }
  }

  lemma {:induction false} PlaceSame(runs: seq<int>, fewer: seq<int>, i: nat)
    requires i <= |fewer| <= |runs| && fewer == runs[..|fewer|]
    ensures Place(runs, i) == Place(fewer, i)
    decreases i
  {
    if i > 0 {
      PlaceSame(runs, fewer, i - 1);
    }
  }

  lemma {:induction false} RunEndIs(line: seq<bool>, a: nat, b: nat)
    requires a < b <= |line| && (forall k :: a <= k < b ==> line[k] == line[a]) && (b < |line| ==> line[b] != line[a])
    ensures RunEnd(line, a) == b
    decreases b - a
  {
    if a + 1 < b {
      RunEndIs(line, a + 1, b);
    }
  }

  /** The runs of a line, and the line. */
  predicate Laid(runs: seq<int>, line: seq<bool>) {
    Alternating(runs) && Colours(runs) == line
  }

  lemma LastPlace(runs: seq<int>, line: seq<bool>)
    requires Laid(runs, line)
    ensures Place(runs, |runs|) == |line|
  {
    hide Alternating;
    PlaceIs(runs, |runs|);
    assert runs[..|runs|] == runs;
  }

  predicate Real(runs: seq<int>, i: nat) {
    i < |runs| && runs[i] >= 1
  }

  lemma RealRuns(runs: seq<int>, i: nat)
    requires Alternating(runs) && 1 <= i < |runs|
    ensures Real(runs, i)
  {
  }

  lemma RunColour(runs: seq<int>, line: seq<bool>, i: nat)
    requires Laid(runs, line) && i < |runs|
    ensures Place(runs, i + 1) <= |line|
    ensures forall k :: Place(runs, i) <= k < Place(runs, i + 1) ==> (line[k] <==> i % 2 == 1)
  {
    LastPlace(runs, line);
    PlacesRise(runs, i + 1, |runs|);
    hide Place, Colours;
    forall k | Place(runs, i) <= k < Place(runs, i + 1) ensures line[k] <==> i % 2 == 1 {
      ColourAt(runs, i, k);
    }
  }

  /** A run begins at its place and ends where the next one begins. */
  lemma RunAt(runs: seq<int>, line: seq<bool>, i: nat)
    requires Laid(runs, line) && Real(runs, i)
    ensures Place(runs, i + 1) == Place(runs, i) + runs[i] <= |line|
    ensures line[Place(runs, i)] <==> i % 2 == 1
    ensures Begins(line, Place(runs, i)) && RunEnd(line, Place(runs, i)) == Place(runs, i + 1)
  {
    var a, b := Place(runs, i), Place(runs, i + 1);
    LastPlace(runs, line);
    PlaceStep(runs, i);
    RunColour(runs, line, i);
    if i + 1 < |runs| {
      RealRuns(runs, i + 1);
      PlaceStep(runs, i + 1);
      RunColour(runs, line, i + 1);
    }
    if a > 0 {
      PlaceBefore(runs, i);
      PlaceStep(runs, i - 1);
      RunColour(runs, line, i - 1);
    }
    hide Place, Colours, Alternating;
    RunEndIs(line, a, b);
  }

  lemma NoneBegins(runs: seq<int>, line: seq<bool>, i: nat)
    requires Laid(runs, line) && Real(runs, i)
    ensures Place(runs, i + 1) <= |line| && forall k :: Place(runs, i) < k < Place(runs, i + 1) ==> !Begins(line, k)
  {
    RunColour(runs, line, i);
    hide Place, Laid;
  }

  lemma PlaceStep(runs: seq<int>, i: nat)
    requires Real(runs, i)
    ensures Place(runs, i + 1) == Place(runs, i) + runs[i]
  {
  }

  lemma PlaceBefore(runs: seq<int>, i: nat)
    requires Alternating(runs) && i < |runs| && Place(runs, i) > 0
    ensures i > 0 && Real(runs, i - 1) && Place(runs, i - 1) + runs[i - 1] == Place(runs, i)
  {
    if i == 1 {
      assert Place(runs, 0) == 0;
    }
  }

  // ----- finder patterns -----

  /** Run i + 1 begins where run i ends, unless the line does. */
  lemma NextRun(runs: seq<int>, line: seq<bool>, i: nat)
    requires Laid(runs, line) && Real(runs, i)
    ensures i + 1 < |runs| <==> Place(runs, i + 1) < |line|
    ensures i + 1 < |runs| ==> Real(runs, i + 1)
  {
    LastPlace(runs, line);
    RunAt(runs, line, i);
    hide Place;
    if i + 1 < |runs| {
      RealRuns(runs, i + 1);
      RunAt(runs, line, i + 1);
    }
  }

  /** The widths of five runs, from run i on. */
  predicate FiveRuns(runs: seq<int>, i: nat) {
    && i + 4 < |runs| && runs[i + 1] == runs[i] && runs[i + 2] == 3 * runs[i] && runs[i + 3] == runs[i] && runs[i + 4] == runs[i]
  }

  /** From one run to the next. */
  lemma Follow(runs: seq<int>, line: seq<bool>, i: nat)
    requires Laid(runs, line) && Real(runs, i)
    ensures Place(runs, i + 1) == Place(runs, i) + runs[i] <= |line| && Place(runs, i) < |line|
    ensures RunEnd(line, Place(runs, i)) == Place(runs, i) + runs[i]
    ensures Place(runs, i + 1) < |line| <==> i + 1 < |runs|
    ensures i + 1 < |runs| ==> Real(runs, i + 1)
  {
    RunAt(runs, line, i);
    NextRun(runs, line, i);
  }

  lemma {:induction false} WidthsRuns(runs: seq<int>, line: seq<bool>, i: nat, ws: seq<nat>)
    requires Laid(runs, line) && i <= |runs| && (i < |runs| ==> Real(runs, i)) && (Place(runs, i) < |line| <==> i < |runs|)
    ensures Widths(line, Place(runs, i), ws) <==> i + |ws| <= |runs| && forall k :: 0 <= k < |ws| ==> runs[i + k] == ws[k]
    decreases |ws|
  {
    hide Place, RunEnd, Laid;
    if |ws| > 0 && i < |runs| {
      Follow(runs, line, i);
      if runs[i] == ws[0] {
        WidthsRuns(runs, line, i + 1, ws[1..]);
        assert forall k :: 0 <= k < |ws| - 1 ==> ws[1..][k] == ws[k + 1];
        if i + |ws| <= |runs| && forall k :: 0 <= k < |ws[1..]| ==> runs[i + 1 + k] == ws[1..][k] {
          forall k | 0 <= k < |ws| ensures runs[i + k] == ws[k] {
            if k > 0 {
              assert runs[i + 1 + (k - 1)] == ws[1..][k - 1];
            }
          }
        } else if i + |ws| <= |runs| {
          var k :| 0 <= k < |ws[1..]| && runs[i + 1 + k] != ws[1..][k];
          assert runs[i + (k + 1)] != ws[k + 1];
        }
      }
    }
  }

  lemma WidthsAre(runs: seq<int>, line: seq<bool>, i: nat)
    requires Laid(runs, line) && Real(runs, i)
    ensures Widths(line, Place(runs, i), Finder(runs[i])) <==> FiveRuns(runs, i)
  {
    var ws := Finder(runs[i]);
    Follow(runs, line, i);
    WidthsRuns(runs, line, i, ws);
    hide Place, Widths, Laid;
    assert ws[0] == runs[i] && ws[1] == runs[i] && ws[2] == 3 * runs[i] && ws[3] == runs[i] && ws[4] == runs[i] && |ws| == 5;
    hide Finder;
    if i + 4 < |runs| && forall k :: 0 <= k < |ws| ==> runs[i + k] == ws[k] {
      assert runs[i + 1] == ws[1] && runs[i + 2] == ws[2] && runs[i + 3] == ws[3] && runs[i + 4] == ws[4];
    }
  }

  lemma DarkWithin(line: seq<bool>, from: int, to: int, k: nat)
    requires k < |line| && from <= k < to && line[k]
    ensures !Light(line, from, to)
  {
  }

  lemma LightRun(runs: seq<int>, line: seq<bool>, j: nat, from: int, to: int)
    requires Laid(runs, line) && j < |runs| && j % 2 == 0 && (Place(runs, j) <= from || Place(runs, j) == 0) && to <= Place(runs, j + 1)
    ensures Light(line, from, to)
  {
    RunColour(runs, line, j);
    hide Place, Laid;
  }

  lemma LaidRuns(runs: seq<int>, line: seq<bool>)
    requires Laid(runs, line)
    ensures forall i :: 1 <= i < |runs| ==> runs[i] >= 1
    ensures Place(runs, 0) == 0
  {
  }

  lemma DarkBefore(runs: seq<int>, line: seq<bool>, i: nat, m: nat)
    requires Laid(runs, line) && 3 <= i < |runs| && i % 2 == 1 && runs[i - 1] < m
    ensures !Light(line, Place(runs, i) - m, Place(runs, i))
  {
    LaidRuns(runs, line);
    PlaceStep(runs, i - 1);
    PlaceStep(runs, i - 2);
    hide Light, Place, Laid;
    RunColour(runs, line, i - 2);
    RunColour(runs, line, i - 1);
    DarkWithin(line, Place(runs, i) - m, Place(runs, i), Place(runs, i - 1) - 1);
  }

  /** The light run before dark run i: so wide, or up to the edge. */
  lemma MarginBefore(runs: seq<int>, line: seq<bool>, i: nat, m: nat)
    requires Laid(runs, line) && Real(runs, i) && i % 2 == 1
    ensures Light(line, Place(runs, i) - m, Place(runs, i)) <==> i == 1 || runs[i - 1] >= m
  {
    LaidRuns(runs, line);
    hide Light, Place, Laid;
    if i == 1 {
      LightRun(runs, line, 0, Place(runs, 1) - m, Place(runs, 1));
    } else if runs[i - 1] >= m {
      PlaceStep(runs, i - 1);
      LightRun(runs, line, i - 1, Place(runs, i) - m, Place(runs, i));
    } else {
      DarkBefore(runs, line, i, m);
    }
  }

  /** And the one after run i. */
  lemma MarginAfter(runs: seq<int>, line: seq<bool>, i: nat, m: nat)
    requires Laid(runs, line) && Real(runs, i) && i % 2 == 1
    ensures Light(line, Place(runs, i + 1), Place(runs, i + 1) + m) <==> i + 2 >= |runs| || runs[i + 1] >= m
  {
    LastPlace(runs, line);
    var b := Place(runs, i + 1);
    hide Light, Place, Laid;
    if i + 1 == |runs| {
      NothingLeft(line, b, b + m);
    } else {
      NextRun(runs, line, i);
      PlaceStep(runs, i + 1);
      if runs[i + 1] >= m {
        LightRun(runs, line, i + 1, b, b + m);
      } else if i + 2 == |runs| {
        LightRun(runs, line, i + 1, b, |line|);
        UpToEnd(line, b, b + m);
      } else {
        NextRun(runs, line, i + 1);
        RunAt(runs, line, i + 2);
        DarkWithin(line, b, b + m, Place(runs, i + 2));
      }
    }
  }

  lemma NothingLeft(line: seq<bool>, from: int, to: int)
    requires from >= |line|
    ensures Light(line, from, to)
  {
  }

  lemma UpToEnd(line: seq<bool>, from: int, to: int)
    requires Light(line, from, |line|)
    ensures Light(line, from, to)
  {
  }

  /** What is known about a dark run that may be the first of a finder pattern. */
  lemma FinderFrom(runs: seq<int>, line: seq<bool>, i: nat)
    requires Laid(runs, line) && Real(runs, i) && i % 2 == 1
    ensures Place(runs, i) < |line|
    ensures FinderOf(line, Place(runs, i), runs[i]) <==>
              FiveRuns(runs, i) && (i == 1 || runs[i - 1] >= 4 * runs[i] || i + 6 >= |runs| || runs[i + 5] >= 4 * runs[i])
  {
    hide Place, Laid, Widths, Begins, Light, RunEnd, Finder;
    LaidRuns(runs, line);
    RunAt(runs, line, i);
    WidthsAre(runs, line, i);
    MarginBefore(runs, line, i, 4 * runs[i]);
    if FiveRuns(runs, i) {
      FifthPlace(runs, line, i);
      MarginAfter(runs, line, i + 4, 4 * runs[i]);
      assert Place(runs, i) + 11 * runs[i] == Place(runs, i + 5) + 4 * runs[i];
    }
  }

  lemma FinderIs(runs: seq<int>, line: seq<bool>, i: nat)
    requires Laid(runs, line) && Real(runs, i)
    ensures Place(runs, i) < |line|
    ensures FinderAt(line, Place(runs, i)) <==> i + 2 < |runs| && FinderLike(runs, i + 2)
  {
    RunAt(runs, line, i);
    if i % 2 == 1 {
      hide FinderLike, FinderOf;
      FinderFrom(runs, line, i);
      CentreRun(runs, i);
    }
    hide Place, Laid, Widths, Begins, Light, FiveRuns, Finder, RunEnd;
  }

  lemma CentreRun(runs: seq<int>, i: nat)
    requires Real(runs, i) && i % 2 == 1
    ensures i + 2 < |runs| ==> (FinderLike(runs, i + 2) <==>
              FiveRuns(runs, i) && (i == 1 || runs[i - 1] >= 4 * runs[i] || i + 6 >= |runs| || runs[i + 5] >= 4 * runs[i]))
    ensures FiveRuns(runs, i) ==> i + 2 < |runs|
  {
  }

  lemma FifthPlace(runs: seq<int>, line: seq<bool>, i: nat)
    requires Laid(runs, line) && Real(runs, i) && FiveRuns(runs, i)
    ensures Place(runs, i + 5) == Place(runs, i) + 7 * runs[i]
  {
    PlaceStep(runs, i);
    PlaceStep(runs, i + 1);
    PlaceStep(runs, i + 2);
    PlaceStep(runs, i + 3);
    PlaceStep(runs, i + 4);
  }

  // ----- the sums -----

  function LongCost(runs: seq<int>, n: nat): nat
    requires n <= |runs|
  {
    if n == 0 then 0 else LongCost(runs, n - 1) + if runs[n - 1] >= 5 then 3 + (runs[n - 1] - 5) else 0
  }

  function FinderCost(runs: seq<int>, n: nat): nat
    requires n <= |runs|
  {
    if n == 0 then 0 else FinderCost(runs, n - 1) + if FinderLike(runs, n - 1) then 40 else 0
  }

  lemma {:induction false} TwoSums(runs: seq<int>, n: nat)
    requires n <= |runs|
    ensures RunDemerits(runs, n) == LongCost(runs, n) + FinderCost(runs, n)
    decreases n
  {
    hide FinderLike;
    if n > 0 {
      TwoSums(runs, n - 1);
    }
  }

  lemma {:induction false} NoBegins(line: seq<bool>, a: nat, b: nat)
    requires a <= b <= |line| && forall k :: a <= k < b ==> !Begins(line, k)
    ensures LineCost(line, b) == LineCost(line, a)
    decreases b
  {
    hide Widths, Light, RunEnd;
    if a < b {
      NoBegins(line, a, b - 1);
      assert !Begins(line, b - 1);
    }
  }

  lemma OneRun(runs: seq<int>, line: seq<bool>, i: nat)
    requires Laid(runs, line) && Real(runs, i)
    ensures Place(runs, i) < Place(runs, i + 1) <= |line|
    ensures LineCost(line, Place(runs, i + 1)) ==
              LineCost(line, Place(runs, i)) + (if runs[i] >= 5 then 3 + (runs[i] - 5) else 0)
              + (if i + 2 < |runs| && FinderLike(runs, i + 2) then 40 else 0)
  {
    RunAt(runs, line, i);
    NoneBegins(runs, line, i);
    FinderIs(runs, line, i);
    hide Place, Laid, FinderAt, FinderLike, Begins;
    NoBegins(line, Place(runs, i) + 1, Place(runs, i + 1));
    hide RunEnd;
  }

  /** No run before the third is the middle of a finder pattern. */
  lemma EarlyFinders(runs: seq<int>, n: nat)
    requires n <= 2 && n <= |runs|
    ensures FinderCost(runs, n) == 0
  {
  }

  /** The last two runs are not either. */
  lemma FinderAhead(runs: seq<int>, i: nat)
    requires i < |runs|
    ensures
      var m, n := if i + 2 < |runs| then i + 2 else |runs|, if i + 3 < |runs| then i + 3 else |runs|;
      FinderCost(runs, n) == FinderCost(runs, m) + if i + 2 < |runs| && FinderLike(runs, i + 2) then 40 else 0
  {
  }

  lemma {:induction false} UpToRun(runs: seq<int>, line: seq<bool>, i: nat)
    requires Laid(runs, line) && i <= |runs|
    ensures Place(runs, i) <= |line|
    ensures LineCost(line, Place(runs, i)) == LongCost(runs, i) + FinderCost(runs, if i + 2 < |runs| then i + 2 else |runs|)
    decreases i
  {
    hide FinderLike, PlaceCost, Colours;
    if i == 0 {
      EarlyFinders(runs, if 2 < |runs| then 2 else |runs|);
    } else {
      UpToRun(runs, line, i - 1);
      FinderAhead(runs, i - 1);
      if i == 1 && runs[0] < 1 {
        NoFirstFinder(runs);
      } else {
        if i > 1 { RealRuns(runs, i - 1); }
        OneRun(runs, line, i - 1);
      }
      hide LineCost, FinderCost;
    }
  }

  lemma NoFirstFinder(runs: seq<int>)
    ensures 2 < |runs| ==> !FinderLike(runs, 2)
  {
  }

  /** What CalcN1N3 adds up for the runs of a line are the demerits of its modules. */
  lemma DemeritsExact(line: seq<bool>)
    requires |line| > 0
    ensures RunDemerits(Runs(line), |Runs(line)|) == LineCost(line, |line|)
  {
    var runs := Runs(line);
    RunsExact(line);
    hide Runs, Colours, Alternating, RunDemerits, LineCost, Place;
    LastPlace(runs, line);
    UpToRun(runs, line, |runs|);
    TwoSums(runs, |runs|);
  }
}
