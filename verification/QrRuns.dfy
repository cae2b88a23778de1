/** The runs of one colour in a row or a column, and the demerits for them
    (qrcode/mask.c:188-219, 244-298). */
module QrRuns {
  import opened Products
  import opened QrDraw
  import opened QrMask

  // ----- a row or a column -----

  function LinePixel(s: seq<bv8>, w: nat, z: nat, across: bool, i: nat): bv8
    requires |s| == Times(w, w) && z < w && i < w
  {
    if across then Pixel(s, w, i, z) else Pixel(s, w, z, i)
  }

  /** Which modules of row z, or of column z, are dark. */
  function Line(s: seq<bv8>, w: nat, z: nat, across: bool): (line: seq<bool>)
    requires |s| == Times(w, w) && z < w
    ensures |line| == w
  {
    seq(w, i requires 0 <= i < w => Dark(LinePixel(s, w, z, across, i)))
  }

  lemma LineAt(s: seq<bv8>, w: nat, z: nat, across: bool, i: nat)
    requires |s| == Times(w, w) && z < w && i < w
    ensures Line(s, w, z, across)[i] == Dark(LinePixel(s, w, z, across, i))
  {
    hide LinePixel, Dark, Times;
  }

  // ----- runs -----

  /** The lengths of the runs, first of light modules, then of dark ones and so on. A line that
      begins with a dark module has -1 for the light run it lacks. */
  function Runs(line: seq<bool>): (runs: seq<int>)
    requires |line| > 0
    ensures 0 < |runs| <= |line| + 1 && runs[|runs| - 1] >= 1
  {
    var n := |line| - 1;
    if n == 0 then if line[0] then [-1, 1] else [1]
    else
      var runs := Runs(line[..n]);
      if line[n] == line[n - 1] then runs[|runs| - 1 := runs[|runs| - 1] + 1] else runs + [1]
  }

  function Stretch(dark: bool, k: int): seq<bool> {
    if k <= 0 then [] else Stretch(dark, k - 1) + [dark]
  }

  /** The line with these runs. */
  function Colours(runs: seq<int>): seq<bool> {
    if |runs| == 0 then [] else Colours(runs[..|runs| - 1]) + Stretch(|runs| % 2 == 0, runs[|runs| - 1])
  }

  predicate Alternating(runs: seq<int>) {
    |runs| > 0 && (forall i :: 1 <= i < |runs| ==> runs[i] >= 1) && (runs[0] >= 1 || (runs[0] == -1 && |runs| > 1))
  }

  lemma LastColour(runs: seq<int>)
    requires |runs| > 0 && runs[|runs| - 1] >= 1
    ensures |Colours(runs)| > 0 && (Colours(runs)[|Colours(runs)| - 1] <==> |runs| % 2 == 0)
  {
  }

  lemma LongerRun(runs: seq<int>)
    requires |runs| > 0 && runs[|runs| - 1] >= 0
    ensures Colours(runs[|runs| - 1 := runs[|runs| - 1] + 1]) == Colours(runs) + [|runs| % 2 == 0]
  {
    var n := |runs| - 1;
    assert runs[n := runs[n] + 1][..n] == runs[..n];
    hide Colours;
    assert Colours(runs[n := runs[n] + 1]) == Colours(runs[..n]) + (Stretch(|runs| % 2 == 0, runs[n]) + [|runs| % 2 == 0]) by {
      ColoursStep(runs[n := runs[n] + 1]);
    }
    ColoursStep(runs);
  }

  lemma ColoursStep(runs: seq<int>)
    requires |runs| > 0
    ensures Colours(runs) == Colours(runs[..|runs| - 1]) + Stretch(|runs| % 2 == 0, runs[|runs| - 1])
  {
  }

  lemma OneStretch(dark: bool)
    ensures Stretch(dark, 1) == [dark] && Stretch(dark, 0) == []
  {
  }

  lemma NewRun(runs: seq<int>)
    ensures Colours(runs + [1]) == Colours(runs) + [|runs| % 2 == 1]
  {
    hide Colours, Stretch;
    var more, dark := runs + [1], |runs| % 2 == 1;
    assert more[..|more| - 1] == runs && more[|more| - 1] == 1;
    assert (|more| % 2 == 0) == dark;
    ColoursStep(more);
    OneStretch(dark);
  }

  lemma AlternatingMore(runs: seq<int>)
    requires Alternating(runs)
    ensures |runs| > 0 && Alternating(runs[|runs| - 1 := runs[|runs| - 1] + 1]) && Alternating(runs + [1])
  {
  }

  lemma AlternatingFirst()
    ensures Alternating([1]) && Alternating([-1, 1])
  {
  }

  /** The runs are those of the line: laid side by side they are the line again. */
  lemma {:induction false} RunsExact(line: seq<bool>)
    requires |line| > 0
    ensures Alternating(Runs(line)) && Colours(Runs(line)) == line
    decreases |line|
  {
    hide Colours, Runs, Stretch, Alternating;
    var n := |line| - 1;
    if n == 0 {
      AlternatingFirst();
      ShortRuns();
      FirstRun(line, line[0]);
      assert line == [line[0]];
    } else {
      var runs := Runs(line[..n]);
      RunsExact(line[..n]);
      AlternatingMore(runs);
      LastColour(runs);
      RunsMore(line[..n], line);
      assert line == line[..n] + [line[n]];
      if line[n] == line[n - 1] {
        LongerRun(runs);
      } else {
        NewRun(runs);
      }
    }
  }

  lemma ShortRuns()
    ensures Colours([-1, 1]) == [true] && Colours([1]) == [false] && Colours([-1]) == []
  {
    var none: seq<int> := [];
    assert none + [1] == [1] && [-1] + [1] == [-1, 1];
    NewRun(none);
    ColoursStep([-1]);
    NewRun([-1]);
  }

  /** And no other list of runs gives the line. */
  lemma {:induction false} RunsUnique(runs: seq<int>)
    requires Alternating(runs)
    ensures |Colours(runs)| > 0 && Runs(Colours(runs)) == runs
    decreases |runs|, runs[|runs| - 1]
  {
    hide Colours, Runs, Stretch;
    var n := |runs| - 1;
    if runs[n] > 1 {
      var shorter := runs[n := runs[n] - 1];
      assert runs == shorter[n := shorter[n] + 1];
      RunsUnique(shorter);
      LastColour(shorter);
      LongerRun(shorter);
      RunsMore(Colours(shorter), Colours(runs));
    } else if n == 0 {
      ShortRuns();
      FirstRun([false], false);
      assert runs == [1];
    } else if n == 1 && runs[0] == -1 {
      ShortRuns();
      FirstRun([true], true);
      assert runs == [-1, 1];
    } else {
      var fewer := runs[..n];
      assert runs == fewer + [1];
      RunsUnique(fewer);
      LastColour(fewer);
      NewRun(fewer);
      RunsMore(Colours(fewer), Colours(runs));
    }
  }

  lemma RunsMore(line: seq<bool>, longer: seq<bool>)
    requires |line| > 0 && |longer| == |line| + 1 && longer[..|line|] == line
    ensures
      var runs := Runs(line);
      Runs(longer) == if longer[|line|] == line[|line| - 1] then runs[|runs| - 1 := runs[|runs| - 1] + 1] else runs + [1]
  {
    assert longer[|line| - 1] == longer[..|line|][|line| - 1];
  }

  lemma RunsAt(line: seq<bool>, i: nat)
    requires 1 <= i < |line|
    ensures
      var runs := Runs(line[..i]);
      Runs(line[..i + 1]) == if line[i] == line[i - 1] then runs[|runs| - 1 := runs[|runs| - 1] + 1] else runs + [1]
  {
    hide Runs;
    RunsMore(line[..i], line[..i + 1]);
  }

  predicate Differs(m: bv8, prev: bv8) {
    (m ^ prev) & 1 != 0
  }

  lemma ColourBits(m: bv8, prev: bv8)
    ensures Differs(m, prev) <==> Dark(m) != Dark(prev)
  {
  }

  /** One more module, of the other colour or of the same. */
  method CountModule(runLength: array<int>, head: nat, other: bool) returns (next: nat)
    requires head + 1 < runLength.Length
    modifies runLength
    ensures next == if other then head + 1 else head
    ensures
      var was := old(runLength[..head + 1]);
      runLength[..next + 1] == if other then was + [1] else was[head := was[head] + 1]
  {
    ghost var was := runLength[..head + 1];
    if other {
      next := head + 1;
      runLength[next] := 1;
      assert runLength[..next + 1] == was + [1];
    } else {
      next := head;
      runLength[next] := runLength[next] + 1;
      assert runLength[..next + 1] == was[head := was[head] + 1];
    }
  }

  /** Mask_calcRunLengthH for a row, Mask_calcRunLengthV for a column */
  method CalcRunLength(w: nat, frame: array<bv8>, z: nat, across: bool, runLength: array<int>) returns (length: nat)
    requires z < w && frame.Length == Times(w, w) && runLength.Length > w && frame as object != runLength
    modifies runLength
    ensures 0 < length <= w + 1 && runLength[..length] == Runs(Line(frame[..], w, z, across))
  {
    hide Dark, Differs, Line, LinePixel, Times, Runs;
    ghost var was := frame[..];
    ghost var line := Line(was, w, z, across);
    LineAt(was, w, z, across, 0);
    var prev := LineModule(frame, w, z, across, 0);
    FirstRun(line[..1], Dark(prev));
    var head := 0;
    if Dark(prev) {
      runLength[0] := -1;
      head := 1;
    }
    runLength[head] := 1;
    assert runLength[..head + 1] == if Dark(prev) then [-1, 1] else [1];
    for i: nat := 1 to w
      invariant frame[..] == was && head <= i && Dark(prev) == line[i - 1]
      invariant runLength[..head + 1] == Runs(line[..i])
    {
      var m := LineModule(frame, w, z, across, i);
      LineAt(was, w, z, across, i);
      ColourBits(m, prev);
      RunsAt(line, i);
      var other := Differs(m, prev);
      head := CountModule(runLength, head, other);
      if other {
        prev := m;
      }
    }
    assert line[..w] == line;
    length := head + 1;
  }

  lemma FirstRun(line: seq<bool>, dark: bool)
    requires |line| == 1 && line[0] == dark
    ensures Runs(line) == if dark then [-1, 1] else [1]
  {
  }

  /** frame[width * z + i] or frame[width * i + z] */
  method LineModule(frame: array<bv8>, w: nat, z: nat, across: bool, i: nat) returns (m: bv8)
    requires frame.Length == Times(w, w) && z < w && i < w
    ensures m == LinePixel(frame[..], w, z, across, i)
  {
    m := if across then Pixel(frame[..], w, i, z) else Pixel(frame[..], w, z, i);
  }

  // ----- demerits for runs -----

  /** Runs of the widths 1:1:3:1:1 around run i, which is dark, and beside them a light run four
      times as wide as the narrow ones, or the edge of the symbol. */
  predicate FinderLike(runs: seq<int>, i: nat)
    requires i < |runs|
  {
    && i % 2 == 1 && 3 <= i < |runs| - 2 && runs[i] % 3 == 0
    && var fact := runs[i] / 3;
       && runs[i - 2] == fact && runs[i - 1] == fact && runs[i + 1] == fact && runs[i + 2] == fact
       && (i == 3 || runs[i - 3] >= 4 * fact || i + 4 >= |runs| || runs[i + 3] >= 4 * fact)
  }

  /** Section 8.8.2 of ISO/IEC 18004: 3 and one more for each module after the fifth of a run,
      40 for what looks like a finder pattern. */
  function RunDemerit(runs: seq<int>, i: nat): nat
    requires i < |runs|
  {
    (if runs[i] >= 5 then 3 + (runs[i] - 5) else 0) + if FinderLike(runs, i) then 40 else 0
  }

  function RunDemerits(runs: seq<int>, n: nat): nat
    requires n <= |runs|
  {
    if n == 0 then 0 else RunDemerits(runs, n - 1) + RunDemerit(runs, n - 1)
  }

  /** Mask_calcN1N3 */
  method CalcN1N3(length: nat, runLength: array<int>) returns (demerit: nat)
    requires length <= runLength.Length
    ensures demerit == RunDemerits(runLength[..length], length)
  {
    demerit := 0;
    for i: nat := 0 to length
      invariant demerit == RunDemerits(runLength[..length], i)
    {
      if runLength[i] >= 5 {
        demerit := demerit + 3 + (runLength[i] - 5);
      }
      if i % 2 == 1 {
        if i >= 3 && i < length - 2 && runLength[i] % 3 == 0 {
          var fact := runLength[i] / 3;
          if runLength[i - 2] == fact && runLength[i - 1] == fact && runLength[i + 1] == fact && runLength[i + 2] == fact {
            if i == 3 || runLength[i - 3] >= 4 * fact {
              demerit := demerit + 40;
            } else if i + 4 >= length || runLength[i + 3] >= 4 * fact {
              demerit := demerit + 40;
            }
          }
        }
      }
    }
  }

  lemma {:induction false} RunsBound(line: seq<bool>, i: nat)
    requires |line| > 0 && i < |Runs(line)|
    ensures Runs(line)[i] <= |line|
    decreases |line|
  {
    var n := |line| - 1;
    if n > 0 {
      RunsAt(line, n);
      assert line[..n + 1] == line;
      if i < |Runs(line[..n])| {
        RunsBound(line[..n], i);
      }
    }
  }

  lemma {:induction false} RunDemeritsBound(line: seq<bool>, n: nat)
    requires 0 < |line| <= 177 && n <= |Runs(line)|
    ensures RunDemerits(Runs(line), n) <= 215 * n
    decreases n
  {
    hide Runs;
    if n > 0 {
      RunDemeritsBound(line, n - 1);
      RunsBound(line, n - 1);
    }
  }
}
