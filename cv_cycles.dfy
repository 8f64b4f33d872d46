/**
  Cycle segmentation of a cyclic-voltammetry potential trace: the
  direction-change scan, the four-strategy cascade that proposes cycle
  start indices (return to the start potential, periodicity of the
  direction changes, recurrence of the extremum, fixed segments), the
  pass that drops starts closer than 10 points to the previous one, and
  the slicing of the last cycle with the +0.903 V / x(-1000) transform.

  Each strategy is a specification function; the methods that carry the
  loops of the program are proved to compute them.
 */
module CvCycles {
  import opened Common

  /** Traces shorter than this have no cycles. */
  const MinPoints: nat := 10
  /** Kept starts are at least this far apart. */
  const MinDistance: int := 10

  // ----- Direction changes -----------------------------------------------

  /** The direction of the step that ends at i: 1 up, -1 down, 0 flat. */
  function Dir(p: seq<real>, i: nat): int
    requires 1 <= i < |p|
  {
    if p[i] > p[i - 1] then 1 else if p[i] < p[i - 1] then -1 else 0
  }

  /** The direction changes from step i on, given the last non-flat
      direction `prev` (0 before the first one). A change is recorded at the
      index before the step that reverses; flat steps neither count nor
      reset the direction. */
  function TurnsFrom(p: seq<real>, i: nat, prev: int): (r: seq<int>)
    requires 1 <= i <= |p|
    ensures forall k :: 0 <= k < |r| ==> i - 1 <= r[k] < |p| - 1
    ensures StrictlyIncreasing(r)
    decreases |p| - i
  {
    if i == |p| then []
    else
      var d := Dir(p, i);
      var rest := TurnsFrom(p, i + 1, if d != 0 then d else prev);
      if d != 0 && d != prev && prev != 0 then [i - 1] + rest else rest
  }

  function DirectionChanges(p: seq<real>): (r: seq<int>)
    ensures StrictlyIncreasing(r) && InRange(r, |p| - 1)
  {
    if p == [] then [] else TurnsFrom(p, 1, 0)
  }

  /** Without a recorded change, all non-flat steps from i on go the same way,
      and the way of `prev` when there is one. */
  lemma {:induction false} NoTurnMonotone(p: seq<real>, i: nat, prev: int)
    requires 1 <= i <= |p|
    requires TurnsFrom(p, i, prev) == []
    ensures forall a, b :: i <= a < b < |p| && Dir(p, a) != 0 && Dir(p, b) != 0 ==> Dir(p, a) == Dir(p, b)
    ensures prev != 0 ==> forall a :: i <= a < |p| && Dir(p, a) != 0 ==> Dir(p, a) == prev
    decreases |p| - i
  {
    if i < |p| {
      var d := Dir(p, i);
      NoTurnMonotone(p, i + 1, if d != 0 then d else prev);
    }
  }

  /** Conversely, steps that never go both ways record no change. */
  lemma {:induction false} MonotoneNoTurn(p: seq<real>, i: nat, prev: int)
    requires 1 <= i <= |p|
    requires forall a, b :: i <= a < b < |p| && Dir(p, a) != 0 && Dir(p, b) != 0 ==> Dir(p, a) == Dir(p, b)
    requires prev != 0 ==> forall a :: i <= a < |p| && Dir(p, a) != 0 ==> Dir(p, a) == prev
    ensures TurnsFrom(p, i, prev) == []
    decreases |p| - i
  {
    if i < |p| {
      var d := Dir(p, i);
      MonotoneNoTurn(p, i + 1, if d != 0 then d else prev);
    }
  }

  /** No direction change is detected exactly when the trace never rises at
      one step and falls at a later one, or the other way round. */
  lemma NoDirectionChangeIff(p: seq<real>)
    requires |p| >= 1
    ensures DirectionChanges(p) == [] <==>
      forall a, b :: 1 <= a < b < |p| && Dir(p, a) != 0 && Dir(p, b) != 0 ==> Dir(p, a) == Dir(p, b)
  {
    if DirectionChanges(p) == [] {
      NoTurnMonotone(p, 1, 0);
    }
    if forall a, b :: 1 <= a < b < |p| && Dir(p, a) != 0 && Dir(p, b) != 0 ==> Dir(p, a) == Dir(p, b) {
      MonotoneNoTurn(p, 1, 0);
    }
  }

  method DetectDirectionChanges(p: seq<real>) returns (dc: seq<int>)
    ensures dc == DirectionChanges(p)
  {
    dc := [];
    if p == [] {
      return;
    }
    var prev := 0;
    var i := 1;
    while i < |p|
      invariant 1 <= i <= |p|
      invariant dc + TurnsFrom(p, i, prev) == DirectionChanges(p)
      decreases |p| - i
    {
      var direction := if p[i] > p[i - 1] then 1 else if p[i] < p[i - 1] then -1 else 0;
      assert direction == Dir(p, i);
      if direction != 0 && direction != prev && prev != 0 {
        dc := dc + [i - 1];
      }
      if direction != 0 {
        prev := direction;
      }
      i := i + 1;
    }
  }

  // ----- Points near a potential -----------------------------------------

  /** The indices from i on whose potential lies strictly within tol of v. */
  function NearFrom(p: seq<real>, v: real, tol: real, i: nat): (r: seq<int>)
    requires i <= |p|
    ensures forall k :: 0 <= k < |r| ==> i <= r[k] < |p| && Abs(p[r[k]] - v) < tol
    ensures StrictlyIncreasing(r)
    decreases |p| - i
  {
    if i == |p| then []
    else if Abs(p[i] - v) < tol then [i] + NearFrom(p, v, tol, i + 1)
    else NearFrom(p, v, tol, i + 1)
  }

  /** An index is listed exactly when it is at least i and its potential is
      within tolerance. */
  lemma {:induction false} NearFromMembers(p: seq<real>, v: real, tol: real, i: nat, j: int)
    requires i <= |p|
    ensures j in NearFrom(p, v, tol, i) <==> i <= j < |p| && Abs(p[j] - v) < tol
    decreases |p| - i
  {
    if i < |p| {
      NearFromMembers(p, v, tol, i + 1, j);
    }
  }

  method CollectNear(p: seq<real>, v: real, tol: real, from: nat) returns (r: seq<int>)
    requires from <= |p|
    ensures r == NearFrom(p, v, tol, from)
  {
    r := [];
    var i := from;
    while i < |p|
      invariant from <= i <= |p|
      invariant r + NearFrom(p, v, tol, i) == NearFrom(p, v, tol, from)
    {
      if Abs(p[i] - v) < tol {
        r := r + [i];
      }
      i := i + 1;
    }
  }

  // ----- Strategy 2: periodic direction changes --------------------------

  /** The distances between every other direction change. */
  function Intervals(dc: seq<int>): (r: seq<int>)
    requires |dc| >= 2
    ensures |r| == |dc| - 2
  {
    seq(|dc| - 2, k requires 0 <= k < |dc| - 2 => dc[k + 2] - dc[k])
  }

  /** Each interval is at least 2 and at most the span of the changes, so is
      their floor average; half of it is a positive step and the probe index
      dc[0] + avg/2 does not pass the last change. */
  lemma PeriodicBounds(dc: seq<int>)
    requires |dc| >= 4 && StrictlyIncreasing(dc)
    ensures var avg := Sum(Intervals(dc)) / (|dc| - 2);
      2 <= avg <= dc[|dc| - 1] - dc[0] && 1 <= avg / 2 && dc[0] + avg / 2 <= dc[|dc| - 1]
  {
    var iv := Intervals(dc);
    var span := dc[|dc| - 1] - dc[0];
    forall k | 0 <= k < |iv|
      ensures 2 <= iv[k] <= span
    {
      assert dc[k] < dc[k + 1] < dc[k + 2];
      assert dc[0] <= dc[k] && dc[k + 2] <= dc[|dc| - 1];
    }
    SumBounds(iv, 2, span);
    AverageBounds(Sum(iv), |iv|, 2, span);
  }

  /** The indices i = start, start+step, ... with at least 10 points after i
      whose potential is within tol of the probe. */
  function StepNear(p: seq<real>, v: real, tol: real, i: int, step: int): seq<int>
    requires 0 <= i && step >= 1
    decreases |p| - i
  {
    if i >= |p| then []
    else if i + 10 < |p| && Abs(p[i] - v) < tol then [i] + StepNear(p, v, tol, i + step, step)
    else StepNear(p, v, tol, i + step, step)
  }

  /** Every index of r is at least i, more than 10 points before the end,
      and within tol of v. */
  predicate NearAfter(r: seq<int>, p: seq<real>, v: real, tol: real, i: nat)
  {
    forall k :: 0 <= k < |r| ==> i <= r[k] && r[k] + 10 < |p| && Abs(p[r[k]] - v) < tol
  }

  /** The probed points are at least i, more than 10 points before the end,
      and within tol of the probe potential. */
  lemma {:induction false} StepNearBounds(p: seq<real>, v: real, tol: real, i: int, step: int)
    requires 0 <= i && step >= 1
    ensures NearAfter(StepNear(p, v, tol, i, step), p, v, tol, i)
    decreases |p| - i
  {
    if i < |p| {
      StepNearBounds(p, v, tol, i + step, step);
      var rest := StepNear(p, v, tol, i + step, step);
      if i + 10 < |p| && Abs(p[i] - v) < tol {
        var r := [i] + rest;
        assert StepNear(p, v, tol, i, step) == r;
        forall k | 1 <= k < |r|
          ensures i <= r[k] && r[k] + 10 < |p| && Abs(p[r[k]] - v) < tol
        {
          assert r[k] == rest[k - 1];
        }
      }
    }
  }

  /** The probed points are strictly increasing. */
  lemma {:induction false} StepNearIncreasing(p: seq<real>, v: real, tol: real, i: int, step: int)
    requires 0 <= i && step >= 1
    ensures StrictlyIncreasing(StepNear(p, v, tol, i, step))
    decreases |p| - i
  {
    if i < |p| {
      StepNearIncreasing(p, v, tol, i + step, step);
      var rest := StepNear(p, v, tol, i + step, step);
      if i + 10 < |p| && Abs(p[i] - v) < tol {
        StepNearBounds(p, v, tol, i + step, step);
        var r := [i] + rest;
        assert StepNear(p, v, tol, i, step) == r;
        forall a, b | 0 <= a < b < |r|
          ensures r[a] < r[b]
        {
          assert r[b] == rest[b - 1];
          if a > 0 {
            assert r[a] == rest[a - 1];
          }
        }
      }
    }
  }

  /** Strategy 2: step through the trace by half the average period from the
      first change, keeping the points at the potential found half a period
      after the first change. */
  function PeriodicTurns(p: seq<real>, dc: seq<int>, tol: real): (r: seq<int>)
    requires |dc| >= 4 && StrictlyIncreasing(dc) && InRange(dc, |p|)
    ensures InRange(r, |p|)
  {
    PeriodicBounds(dc);
    var avg := Sum(Intervals(dc)) / (|dc| - 2);
    var probe := p[dc[0] + avg / 2];
    StepNearBounds(p, probe, tol, dc[0], avg / 2);
    var r := StepNear(p, probe, tol, dc[0], avg / 2);
    assert 0 <= dc[0];
    r
  }

  method IntervalsScan(dc: seq<int>) returns (intervals: seq<int>)
    requires |dc| >= 2
    ensures intervals == Intervals(dc)
  {
    intervals := [];
    var i := 2;
    while i < |dc|
      invariant 2 <= i <= |dc|
      invariant intervals == Intervals(dc[..i])
    {
      assert Intervals(dc[..i + 1]) == Intervals(dc[..i]) + [dc[i] - dc[i - 2]];
      intervals := intervals + [dc[i] - dc[i - 2]];
      i := i + 1;
    }
    assert dc[..i] == dc;
  }

  method StepNearScan(p: seq<real>, v: real, tol: real, start: int, step: int) returns (r: seq<int>)
    requires 0 <= start && step >= 1
    ensures r == StepNear(p, v, tol, start, step)
  {
    r := [];
    var j := start;
    while j < |p|
      invariant start <= j
      invariant r + StepNear(p, v, tol, j, step) == StepNear(p, v, tol, start, step)
      decreases |p| - j
    {
      ghost var rest := StepNear(p, v, tol, j + step, step);
      if j + 10 < |p| && Abs(p[j] - v) < tol {
        assert r + [j] + rest == r + ([j] + rest);
        r := r + [j];
      }
      j := j + step;
    }
    assert r + [] == r;
  }

  method PeriodicTurnsScan(p: seq<real>, dc: seq<int>, tol: real) returns (r: seq<int>)
    requires |dc| >= 4 && StrictlyIncreasing(dc) && InRange(dc, |p|)
    ensures r == PeriodicTurns(p, dc, tol)
  {
    var intervals := IntervalsScan(dc);
    PeriodicBounds(dc);
    var avg := Sum(intervals) / |intervals|;
    var probe := p[dc[0] + avg / 2];
    r := StepNearScan(p, probe, tol, dc[0], avg / 2);
  }

  // ----- Strategy 3: recurrence of the extremum --------------------------

  function Diffs(s: seq<int>): (r: seq<int>)
    requires |s| >= 1
    ensures |r| == |s| - 1
  {
    seq(|s| - 1, k requires 0 <= k < |s| - 1 => s[k + 1] - s[k])
  }

  /** The extremum the start is closer to (the minimum on a tie). */
  function Reference(p: seq<real>): real
    requires |p| > 0
  {
    var mn := SeqMin(p);
    var mx := SeqMax(p);
    if Abs(p[0] - mx) < Abs(p[0] - mn) then mx else mn
  }

  /** Strategy 3: from every point near the reference extremum, step back a
      quarter of the average distance between such points, not below 0. */
  function ExtremumRecurrence(p: seq<real>, tol: real): (r: seq<int>)
    requires |p| > 0
    ensures InRange(r, |p|)
  {
    var pts := NearFrom(p, Reference(p), tol, 0);
    if |pts| < 2 then []
    else
      var avg := Sum(Diffs(pts)) / (|pts| - 1);
      assert avg >= 1 by { RecurrenceAverage(pts); }
      BackProject(pts, avg / 4)
  }

  /** Each index moved back by q, not below 0. */
  function BackProject(pts: seq<int>, q: nat): (r: seq<int>)
    ensures |r| == |pts|
    ensures forall k :: 0 <= k < |pts| ==> r[k] == MaxInt(0, pts[k] - q)
  {
    seq(|pts|, k requires 0 <= k < |pts| => MaxInt(0, pts[k] - q))
  }

  lemma RecurrenceAverage(pts: seq<int>)
    requires |pts| >= 2 && StrictlyIncreasing(pts)
    ensures Sum(Diffs(pts)) / (|pts| - 1) >= 1
  {
    var d := Diffs(pts);
    var hi := pts[|pts| - 1] - pts[0];
    forall k | 0 <= k < |d|
      ensures 1 <= d[k] <= hi
    {
      assert pts[0] <= pts[k] < pts[k + 1] <= pts[|pts| - 1];
    }
    SumBounds(d, 1, hi);
    AverageBounds(Sum(d), |d|, 1, hi);
  }

  method ExtremumRecurrenceScan(p: seq<real>, tol: real) returns (r: seq<int>)
    requires |p| > 0
    ensures r == ExtremumRecurrence(p, tol)
  {
    var reference := Reference(p);
    var pts := CollectNear(p, reference, tol, 0);
    r := [];
    if |pts| >= 2 {
      var intervals := Diffs(pts);
      var avg := Sum(intervals) / |intervals|;
      RecurrenceAverage(pts);
      r := StepBack(pts, avg / 4);
    }
  }

  /** The loop appending max(0, q' - q) for each point q'. */
  method StepBack(pts: seq<int>, q: nat) returns (r: seq<int>)
    ensures r == BackProject(pts, q)
  {
    r := [];
    var i := 0;
    while i < |pts|
      invariant 0 <= i <= |pts|
      invariant |r| == i && forall k :: 0 <= k < i ==> r[k] == MaxInt(0, pts[k] - q)
    {
      r := r + [MaxInt(0, pts[i] - q)];
      i := i + 1;
    }
  }

  // ----- Strategy 4: fixed segments --------------------------------------

  /** The first i in [from, hi) whose potential returns within tol of p[0], or 0. */
  function FirstReturn(p: seq<real>, tol: real, from: nat, hi: nat): (r: nat)
    requires 1 <= from && hi <= |p|
    ensures r == 0 || (from <= r < hi && Abs(p[r] - p[0]) < tol)
    ensures forall j :: from <= j < hi && (r == 0 || j < r) ==> Abs(p[j] - p[0]) >= tol
    decreases hi - from
  {
    if from >= hi then 0
    else if Abs(p[from] - p[0]) < tol then from
    else FirstReturn(p, tol, from + 1, hi)
  }

  /** Every index i, i+seg, ... below |p| returns within tol of p[0]. */
  predicate AllReturn(p: seq<real>, tol: real, i: nat, seg: nat)
    requires |p| > 0 && seg >= 1
    decreases |p| - i
  {
    i >= |p| || (Abs(p[i] - p[0]) < tol && AllReturn(p, tol, i + seg, seg))
  }

  /** Python's list(range(i, n, step)). */
  function RangeStep(i: nat, n: nat, step: nat): (r: seq<int>)
    requires step >= 1
    ensures forall k :: 0 <= k < |r| ==> r[k] == i + k * step && r[k] < n
    ensures i + |r| * step >= n
    decreases n - i
  {
    if i >= n then [] else [i] + RangeStep(i + step, n, step)
  }

  function SegmentLength(p: seq<real>, tol: real): nat
    requires |p| > 0
  {
    FirstReturn(p, tol, 1, if |p| < 500 then |p| else 500)
  }

  /** Strategy 4: if the trace first returns to its start after more than 10
      points, at seg, and returns at every multiple of seg, the starts are
      0, seg, 2 seg, ... */
  function FixedSegments(p: seq<real>, tol: real): (r: seq<int>)
    requires |p| > 0
    ensures InRange(r, |p|)
  {
    var seg := SegmentLength(p, tol);
    if seg > 10 && AllReturn(p, tol, seg, seg) then RangeStep(0, |p|, seg) else []
  }

  /** Index j is a point of the trace back within tol of its start. */
  predicate ReturnsAt(p: seq<real>, tol: real, j: int)
    requires |p| > 0
  {
    0 <= j < |p| && Abs(p[j] - p[0]) < tol
  }

  /** AllReturn holds when every index of range(i, |p|, seg) is back at the
      start potential. */
  lemma {:induction false} AllReturnMeaning(p: seq<real>, tol: real, i: nat, seg: nat)
    requires |p| > 0 && seg >= 1
    ensures AllReturn(p, tol, i, seg) <==> forall j :: j in RangeStep(i, |p|, seg) ==> ReturnsAt(p, tol, j)
    decreases |p| - i
  {
    if i < |p| {
      AllReturnMeaning(p, tol, i + seg, seg);
      assert AllReturn(p, tol, i, seg) == (ReturnsAt(p, tol, i) && AllReturn(p, tol, i + seg, seg));
      var rest := RangeStep(i + seg, |p|, seg);
      assert RangeStep(i, |p|, seg) == [i] + rest;
      assert forall j :: j in [i] + rest <==> j == i || j in rest;
    } else {
      assert RangeStep(i, |p|, seg) == [];
    }
  }

  /** The fixed-segment fallback yields something iff the first return to
      the start comes after more than 10 points, at seg, and the trace is
      back at its start potential at every multiple of seg. */
  lemma FixedSegmentsWhen(p: seq<real>, tol: real)
    requires |p| > 0
    ensures var seg := SegmentLength(p, tol);
      FixedSegments(p, tol) != [] <==>
        seg > 10 && forall j :: j in RangeStep(seg, |p|, seg) ==> ReturnsAt(p, tol, j)
  {
    var seg := SegmentLength(p, tol);
    if seg > 10 {
      AllReturnMeaning(p, tol, seg, seg);
      assert RangeStep(0, |p|, seg)[0] == 0;
    }
  }

  /** What the fallback yields is the multiples 0, seg, 2 seg, ... */
  lemma FixedSegmentsShape(p: seq<real>, tol: real)
    requires |p| > 0
    ensures var seg := SegmentLength(p, tol);
      var r := FixedSegments(p, tol);
      r != [] ==> seg > 10 && forall k :: 0 <= k < |r| ==> r[k] == k * seg
  {
  }

  /** The first return to the start potential within the first 500 points. */
  method FirstReturnScan(p: seq<real>, tol: real) returns (segmentLength: nat)
    requires |p| > 0
    ensures segmentLength == SegmentLength(p, tol)
  {
    var hi := if |p| < 500 then |p| else 500;
    segmentLength := 0;
    var i := 1;
    while i < hi
      invariant 1 <= i <= hi || (i == 1 && hi < 1)
      invariant FirstReturn(p, tol, i, hi) == SegmentLength(p, tol)
      decreases hi - i
    {
      if Abs(p[i] - p[0]) < tol {
        segmentLength := i;
        break;
      }
      i := i + 1;
    }
  }

  /** Whether the trace is back at its start at every multiple of seg. */
  method AllReturnScan(p: seq<real>, tol: real, seg: nat) returns (distinct: bool)
    requires |p| > 0 && seg >= 1
    ensures distinct == AllReturn(p, tol, seg, seg)
  {
    distinct := true;
    var j := seg;
    while j < |p|
      invariant seg <= j
      invariant AllReturn(p, tol, j, seg) == AllReturn(p, tol, seg, seg)
      decreases |p| - j
    {
      if Abs(p[j] - p[0]) >= tol {
        distinct := false;
        break;
      }
      j := j + seg;
    }
  }

  method FixedSegmentsScan(p: seq<real>, tol: real) returns (r: seq<int>)
    requires |p| > 0
    ensures r == FixedSegments(p, tol)
  {
    var segmentLength := FirstReturnScan(p, tol);
    r := [];
    if segmentLength > 10 {
      var distinct := AllReturnScan(p, tol, segmentLength);
      if distinct {
        r := RangeStep(0, |p|, segmentLength);
      }
    }
  }

  // ----- The cascade and the de-duplication ------------------------------

  predicate StartsAtExtreme(p: seq<real>, tol: real)
    requires |p| > 0
  {
    Abs(p[0] - SeqMin(p)) < tol || Abs(p[0] - SeqMax(p)) < tol
  }

  /** Strategy 1, return to the start potential after 10 points, unless the
      trace starts at an extremum. */
  function ReturnStage(p: seq<real>, tol: real): (r: seq<int>)
    requires |p| >= MinPoints
    ensures InRange(r, |p|)
  {
    if !StartsAtExtreme(p, tol) then NearFrom(p, p[0], tol, 10) else []
  }

  /** Strategy 2 is added when at most one candidate was found so far and
      there are at least four direction changes. */
  function PeriodicStage(p: seq<real>, tol: real, dc: seq<int>, c: seq<int>): (r: seq<int>)
    requires StrictlyIncreasing(dc) && InRange(dc, |p|) && InRange(c, |p|)
    ensures InRange(r, |p|)
  {
    if |c| <= 1 && |dc| >= 4 then
      InRangeAppend(c, PeriodicTurns(p, dc, tol), |p|);
      c + PeriodicTurns(p, dc, tol)
    else c
  }

  /** Strategy 3 is added when at most one candidate was found so far. */
  function RecurrenceStage(p: seq<real>, tol: real, c: seq<int>): (r: seq<int>)
    requires |p| > 0 && InRange(c, |p|)
    ensures InRange(r, |p|)
  {
    if |c| <= 1 then
      InRangeAppend(c, ExtremumRecurrence(p, tol), |p|);
      c + ExtremumRecurrence(p, tol)
    else c
  }

  /** The candidate starts, strategy by strategy: return-to-start unless the
      trace starts at an extremum; then, with at most one candidate so far,
      the periodic changes (given at least four changes); then, still with at
      most one, the extremum recurrence; and fixed segments only if nothing
      was found. */
  function Candidates(p: seq<real>, tol: real, dc: seq<int>): (r: seq<int>)
    requires |p| >= MinPoints && StrictlyIncreasing(dc) && InRange(dc, |p|)
    ensures InRange(r, |p|)
  {
    var c3 := RecurrenceStage(p, tol, PeriodicStage(p, tol, dc, ReturnStage(p, tol)));
    if c3 == [] then FixedSegments(p, tol) else c3
  }

  /** Consecutive elements are at least MinDistance apart. */
  predicate WellSpaced(s: seq<int>)
  {
    forall k :: 0 <= k < |s| - 1 ==> s[k + 1] - s[k] >= MinDistance
  }

  lemma {:induction false} WellSpacedIncreasing(s: seq<int>)
    requires WellSpaced(s)
    ensures StrictlyIncreasing(s)
  {
    if |s| > 1 {
      WellSpacedIncreasing(s[1..]);
      assert forall k :: 1 <= k < |s| ==> s[k] == s[1..][k - 1];
      assert s[0] < s[1];
    }
  }

  /** The candidates after `last` that are kept: each one at least
      MinDistance beyond the previously kept one. */
  function KeepFrom(last: int, rest: seq<int>): (r: seq<int>)
    ensures r != [] ==> r[0] - last >= MinDistance
    ensures WellSpaced(r)
    decreases |rest|
  {
    if rest == [] then []
    else if rest[0] - last >= MinDistance then [rest[0]] + KeepFrom(rest[0], rest[1..])
    else KeepFrom(last, rest[1..])
  }

  function Dedup(c: seq<int>): (r: seq<int>)
    ensures WellSpaced(r)
    ensures c != [] ==> r != [] && r[0] == c[0]
    ensures c == [] ==> r == []
  {
    if c == [] then [] else [c[0]] + KeepFrom(c[0], c[1..])
  }

  lemma {:induction false} KeepFromSubsequence(last: int, rest: seq<int>)
    ensures IsSubsequence(KeepFrom(last, rest), rest)
    decreases |rest|
  {
    if rest != [] {
      KeepFromSubsequence(rest[0], rest[1..]);
      KeepFromSubsequence(last, rest[1..]);
      var r := KeepFrom(last, rest);
      if rest[0] - last >= MinDistance {
        assert r[0] == rest[0] && r[1..] == KeepFrom(rest[0], rest[1..]);
      } else {
        assert rest == [rest[0]] + rest[1..];
        SubsequenceCons(r, rest[0], rest[1..]);
      }
    }
  }

  /** The de-duplicated starts are a subsequence of the candidates: the pass
      only drops, never reorders or invents. */
  lemma DedupSubsequence(c: seq<int>)
    ensures IsSubsequence(Dedup(c), c)
  {
    if c != [] {
      KeepFromSubsequence(c[0], c[1..]);
      var r := Dedup(c);
      assert r[0] == c[0] && r[1..] == KeepFrom(c[0], c[1..]);
    }
  }

  /** The whole detection. */
  function CycleStarts(p: seq<real>, tol: real): seq<int>
  {
    if |p| < MinPoints then []
    else
      var dc := DirectionChanges(p);
      if dc == [] then [] else Dedup(Candidates(p, tol, dc))
  }

  /** The starts are in range, strictly increasing and at least 10 apart; they
      are a subsequence of the candidates and begin with the first one. */
  lemma CycleStartsProperties(p: seq<real>, tol: real)
    ensures var r := CycleStarts(p, tol);
      InRange(r, |p|) && WellSpaced(r) && StrictlyIncreasing(r)
    ensures |p| >= MinPoints && DirectionChanges(p) != [] ==>
      var c := Candidates(p, tol, DirectionChanges(p));
      IsSubsequence(CycleStarts(p, tol), c) && (c != [] ==> CycleStarts(p, tol)[0] == c[0])
  {
    if |p| >= MinPoints && DirectionChanges(p) != [] {
      var c := Candidates(p, tol, DirectionChanges(p));
      assert CycleStarts(p, tol) == Dedup(c);
      DedupInRange(c, |p|);
    }
  }

  /** The filter keeps candidates in range, drops without reordering, and
      its result is increasing and well spaced. */
  lemma DedupInRange(c: seq<int>, n: int)
    requires InRange(c, n)
    ensures var r := Dedup(c);
      InRange(r, n) && WellSpaced(r) && StrictlyIncreasing(r) && IsSubsequence(r, c)
  {
    var r := Dedup(c);
    WellSpacedIncreasing(r);
    DedupSubsequence(c);
    SubsequenceMembers(r, c);
    forall i | 0 <= i < |r|
      ensures 0 <= r[i] < n
    {
      assert r[i] in c;
    }
  }

  /** No cycle is found in a trace shorter than ten points, nor in one whose
      non-flat steps all go the same way. */
  lemma CycleStartsEmpty(p: seq<real>, tol: real)
    ensures |p| < MinPoints ==> CycleStarts(p, tol) == []
    ensures |p| >= 1 &&
      (forall a, b :: 1 <= a < b < |p| && Dir(p, a) != 0 && Dir(p, b) != 0 ==> Dir(p, a) == Dir(p, b))
      ==> CycleStarts(p, tol) == []
  {
    if |p| >= 1 {
      NoDirectionChangeIff(p);
    }
  }

  /** The nine-point triangle wave 0,1,2,1,0,1,2,1,0 has no detected cycle:
      it is below the ten-point minimum. */
  lemma NinePointTrace(tol: real)
    ensures CycleStarts([0.0, 1.0, 2.0, 1.0, 0.0, 1.0, 2.0, 1.0, 0.0], tol) == []
  {
  }

  method RemoveCloseStarts(c: seq<int>) returns (r: seq<int>)
    ensures r == Dedup(c)
  {
    if c == [] {
      return [];
    }
    r := [c[0]];
    var i := 1;
    while i < |c|
      invariant 1 <= i <= |c|
      invariant r != [] && r + KeepFrom(r[|r| - 1], c[i..]) == Dedup(c)
    {
      assert c[i..][1..] == c[i + 1..];
      if c[i] - r[|r| - 1] >= MinDistance {
        r := r + [c[i]];
      }
      i := i + 1;
    }
  }

  /** find_cycle_start_indices. */
  method FindCycleStartIndices(p: seq<real>, tol: real) returns (starts: seq<int>)
    ensures starts == CycleStarts(p, tol)
    ensures |p| < MinPoints ==> starts == []
    ensures InRange(starts, |p|) && StrictlyIncreasing(starts) && WellSpaced(starts)
  {
    CycleStartsProperties(p, tol);
    if |p| < MinPoints {
      return [];
    }
    var dc := DetectDirectionChanges(p);
    if dc == [] {
      return [];
    }
    var candidates := CollectCandidates(p, tol, dc);
    starts := RemoveCloseStarts(candidates);
  }

  /** The strategy cascade, run in the program's order. */
  method CollectCandidates(p: seq<real>, tol: real, dc: seq<int>) returns (candidates: seq<int>)
    requires |p| >= MinPoints && StrictlyIncreasing(dc) && InRange(dc, |p|)
    ensures candidates == Candidates(p, tol, dc)
  {
    ghost var c1 := ReturnStage(p, tol);
    ghost var c2 := PeriodicStage(p, tol, dc, c1);
    candidates := [];
    if !StartsAtExtreme(p, tol) {
      candidates := CollectNear(p, p[0], tol, 10);
    }
    assert candidates == c1;
    if |candidates| <= 1 && |dc| >= 4 {
      var more := PeriodicTurnsScan(p, dc, tol);
      candidates := candidates + more;
    }
    assert candidates == c2;
    if |candidates| <= 1 {
      var more := ExtremumRecurrenceScan(p, tol);
      candidates := candidates + more;
    }
    assert candidates == RecurrenceStage(p, tol, c2);
    if candidates == [] {
      candidates := FixedSegmentsScan(p, tol);
    }
  }

  // ----- The last cycle --------------------------------------------------

  /** The [start, end) window of the last cycle: the whole trace without
      starts; otherwise from the last start for one average cycle length,
      capped at the end of the trace. */
  function LastCycleWindow(n: nat, starts: seq<int>): (w: (int, int))
    requires InRange(starts, n) && StrictlyIncreasing(starts)
    ensures 0 <= w.0 <= w.1 <= n
  {
    if starts == [] then (0, n)
    else
      var last := starts[|starts| - 1];
      if |starts| >= 2 then
        var avg := Sum(Diffs(starts)) / (|starts| - 1);
        assert avg >= 1 by { RecurrenceAverage(starts); }
        if last + avg < n then (last, last + avg) else (last, n)
      else (last, n)
  }

  /** The differences of consecutive starts telescope to last - first. */
  lemma {:induction false} DiffsTelescope(s: seq<int>)
    requires |s| >= 1
    ensures Sum(Diffs(s)) == s[|s| - 1] - s[0]
  {
    if |s| > 1 {
      DiffsTelescope(s[1..]);
      assert Diffs(s) == [s[1] - s[0]] + Diffs(s[1..]);
      assert Diffs(s)[1..] == Diffs(s[1..]);
    }
  }

  /** The window's length is the floor of (last - first) / (k - 1). */
  lemma LastCycleWindowMeaning(n: nat, starts: seq<int>)
    requires InRange(starts, n) && StrictlyIncreasing(starts)
    ensures starts == [] ==> LastCycleWindow(n, starts) == (0, n)
    ensures |starts| == 1 ==> LastCycleWindow(n, starts) == (starts[0], n)
    ensures |starts| >= 2 ==>
      var k := |starts|;
      var last := starts[k - 1];
      var est := last + (last - starts[0]) / (k - 1);
      LastCycleWindow(n, starts) == (last, if est < n then est else n)
  {
    if |starts| >= 2 {
      DiffsTelescope(starts);
    }
  }

  const PotentialOffset: real := 0.903
  const CurrentScale: real := -1000.0

  /** The potentials shifted by +0.903 V. */
  function Shifted(p: seq<real>): (r: seq<real>)
    ensures |r| == |p| && forall k :: 0 <= k < |p| ==> r[k] == p[k] + PotentialOffset
  {
    seq(|p|, k requires 0 <= k < |p| => p[k] + PotentialOffset)
  }

  /** The currents multiplied by -1000. */
  function Scaled(c: seq<real>): (r: seq<real>)
    ensures |r| == |c| && forall k :: 0 <= k < |c| ==> r[k] == c[k] * CurrentScale
  {
    seq(|c|, k requires 0 <= k < |c| => c[k] * CurrentScale)
  }

  /** The transformed samples of the last cycle. */
  function LastCycle(p: seq<real>, c: seq<real>, starts: seq<int>): (r: (seq<real>, seq<real>))
    requires |p| == |c| && InRange(starts, |p|) && StrictlyIncreasing(starts)
    ensures |r.0| == |r.1|
    ensures var w := LastCycleWindow(|p|, starts);
      |r.0| == w.1 - w.0 &&
      forall k :: 0 <= k < |r.0| ==> r.0[k] == p[w.0 + k] + PotentialOffset && r.1[k] == c[w.0 + k] * CurrentScale
  {
    var w := LastCycleWindow(|p|, starts);
    (Shifted(p[w.0..w.1]), Scaled(c[w.0..w.1]))
  }
}
