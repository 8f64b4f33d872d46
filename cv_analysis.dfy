/**
  The double-layer capacitance analysis built on the cyclic-voltammetry
  parser and cycle detector: the forward and reverse currents at the
  midpoint potential of each file's last cycle, their difference Δj, the
  files assembled and stably sorted by scan rate, and the guarded linear
  fit of Δj against scan rate whose slope gives Cdl.
 */
module CvAnalysis {
  import opened Common
  import opened CvParse
  import opened CvCycles

  // ----- Midpoint currents -----------------------------------------------

  /** The default midpoint potential (-0.150 V before the +0.903 V shift)
      and its tolerance. */
  const MidpointPotential: real := 0.753
  const MidpointTolerance: real := 0.001

  /** The tolerance the cycle detector is called with. */
  const CycleTolerance: real := 0.001

  predicate TargetPresent(p: seq<real>, v: real, tol: real)
  {
    exists k :: 0 <= k < |p| && Abs(p[k] - v) < tol
  }

  /** The target and tolerance the match search uses: the requested ones
      when some potential is near the target, otherwise the middle of the
      potential range with a widened tolerance. */
  function EffectiveTarget(p: seq<real>, v: real, tol: real): (r: (real, real))
    requires |p| > 0
    ensures TargetPresent(p, v, tol) ==> r == (v, tol)
    ensures !TargetPresent(p, v, tol) ==>
      SeqMin(p) <= r.0 <= SeqMax(p) && r.0 - SeqMin(p) == SeqMax(p) - r.0 &&
      r.1 >= 2.0 * tol && r.1 >= (SeqMax(p) - SeqMin(p)) / 50.0 &&
      (r.1 == 2.0 * tol || r.1 == (SeqMax(p) - SeqMin(p)) / 50.0)
  {
    if TargetPresent(p, v, tol) then (v, tol)
    else
      var lo := SeqMin(p);
      var hi := SeqMax(p);
      ((lo + hi) / 2.0, MaxReal(tol * 2.0, (hi - lo) / 50.0))
  }

  /** The scan is falling into sample j (its step from j - 1 is negative,
      numpy's signbit of the difference). */
  predicate Falling(p: seq<real>, j: int)
    requires 1 <= j < |p|
  {
    p[j] - p[j - 1] < 0.0
  }

  /** The first j >= from at which the sign of the step changes between
      the step into j and the step out of it. */
  function SignChangeFrom(p: seq<real>, from: nat): (r: Option<nat>)
    requires from >= 1
    ensures r.Some? ==> from <= r.value && r.value + 1 < |p| && Falling(p, r.value) != Falling(p, r.value + 1)
    ensures r.Some? ==> forall j :: from <= j < r.value ==> Falling(p, j) == Falling(p, j + 1)
    ensures r.None? ==> forall j :: from <= j && j + 1 < |p| ==> Falling(p, j) == Falling(p, j + 1)
    decreases |p| - from
  {
    if from + 1 >= |p| then None
    else if Falling(p, from) != Falling(p, from + 1) then Some(from)
    else SignChangeFrom(p, from + 1)
  }

  /** The matches before the pivot, in order. */
  function Below(m: seq<int>, pivot: int): (r: seq<int>)
    ensures forall x :: x in r <==> x in m && x < pivot
  {
    if m == [] then [] else (if m[0] < pivot then [m[0]] else []) + Below(m[1..], pivot)
  }

  /** The matches at or after the pivot, in order. */
  function AtOrAbove(m: seq<int>, pivot: int): (r: seq<int>)
    ensures forall x :: x in r <==> x in m && x >= pivot
  {
    if m == [] then []
    else AtOrAbove(m[..|m| - 1], pivot) + (if m[|m| - 1] >= pivot then [m[|m| - 1]] else [])
  }

  /** The forward and reverse match: the first match before the pivot and
      the last one at or after it, or the first and last match when one
      side is empty. */
  function PickPair(m: seq<int>, pivot: int): (r: (int, int))
    requires |m| >= 1
    ensures r.0 in m && r.1 in m
  {
    var fwd := Below(m, pivot);
    var rev := AtOrAbove(m, pivot);
    if fwd != [] && rev != [] then (fwd[0], rev[|rev| - 1]) else (m[0], m[|m| - 1])
  }

  /** Where the forward sweep is taken to end: the first change of sweep
      direction, or the middle sample when the direction never changes. */
  function Pivot(p: seq<real>): (r: nat)
    ensures SignChangeFrom(p, 1).None? ==> r == |p| / 2
    ensures SignChangeFrom(p, 1).Some? ==> r == SignChangeFrom(p, 1).value
  {
    match SignChangeFrom(p, 1) case None => |p| / 2 case Some(d) => d
  }

  /** For increasing matches every branch picks the first and the last match. */
  lemma PickPairFirstLast(m: seq<int>, pivot: int)
    requires |m| >= 1 && StrictlyIncreasing(m)
    ensures PickPair(m, pivot) == (m[0], m[|m| - 1])
  {
    var fwd := Below(m, pivot);
    var rev := AtOrAbove(m, pivot);
    if fwd != [] && rev != [] {
      assert fwd[0] in m && fwd[0] < pivot;
      assert m[0] < pivot;
      assert fwd[0] == m[0];
      assert rev[|rev| - 1] in m && rev[|rev| - 1] >= pivot;
      assert m[|m| - 1] >= pivot;
      assert rev[|rev| - 1] == m[|m| - 1];
    }
  }

  /** The matching indices of find_midpoint_values. */
  function Matches(p: seq<real>, v: real, tol: real): (m: seq<int>)
    requires |p| > 0
  {
    var t := EffectiveTarget(p, v, tol);
    NearFrom(p, t.0, t.1, 0)
  }

  /** The indices of the forward and reverse current, when at least two
      potentials match. */
  function MidpointIndices(p: seq<real>, v: real, tol: real): (r: Option<(int, int)>)
    ensures r.Some? ==> 0 <= r.value.0 < |p| && 0 <= r.value.1 < |p|
  {
    if p == [] then None
    else
      var m := Matches(p, v, tol);
      if |m| < 2 then None
      else
        Some(PickPair(m, Pivot(p)))
  }

  /** find_midpoint_values: the forward and reverse current at the
      midpoint potential, or neither. */
  function MidpointValues(p: seq<real>, c: seq<real>, v: real, tol: real): (r: (Option<real>, Option<real>))
    requires |p| == |c|
    ensures r.0.Some? <==> r.1.Some?
  {
    match MidpointIndices(p, v, tol)
    case None => (None, None)
    case Some(ix) => (Some(c[ix.0]), Some(c[ix.1]))
  }

  /** Whatever the direction analysis finds, the forward current is the one
      at the first matching potential and the reverse current the one at
      the last; with no data or fewer than two matches there is neither. */
  lemma MidpointFirstLast(p: seq<real>, c: seq<real>, v: real, tol: real)
    requires |p| == |c|
    ensures p == [] ==> MidpointValues(p, c, v, tol) == (None, None)
    ensures p != [] ==>
      var m := Matches(p, v, tol);
      MidpointValues(p, c, v, tol) ==
        if |m| < 2 then (None, None) else (Some(c[m[0]]), Some(c[m[|m| - 1]]))
  {
    if p != [] {
      MidpointIndicesFirstLast(p, v, tol);
    }
  }

  /** The indices picked are the first and the last match. */
  lemma MidpointIndicesFirstLast(p: seq<real>, v: real, tol: real)
    requires p != []
    ensures var m := Matches(p, v, tol);
      MidpointIndices(p, v, tol) == if |m| < 2 then None else Some((m[0], m[|m| - 1]))
  {
    var m := Matches(p, v, tol);
    if |m| >= 2 {
      PickPairFirstLast(m, Pivot(p));
    }
  }

  /** Every match lies within the tolerance in use of the target in use,
      and every such potential is matched. */
  lemma MatchesMeaning(p: seq<real>, v: real, tol: real, j: int)
    requires |p| > 0
    ensures var t := EffectiveTarget(p, v, tol);
      j in Matches(p, v, tol) <==> 0 <= j < |p| && Abs(p[j] - t.0) < t.1
  {
    var t := EffectiveTarget(p, v, tol);
    NearFromMembers(p, t.0, t.1, 0, j);
  }

  method FindMidpointValues(p: seq<real>, c: seq<real>, v: real, tol: real)
    returns (forward: Option<real>, reverse: Option<real>)
    requires |p| == |c|
    ensures (forward, reverse) == MidpointValues(p, c, v, tol)
  {
    if p == [] {
      return None, None;
    }
    var target, tolerance := FindTarget(p, v, tol);
    var m := CollectNear(p, target, tolerance, 0);
    assert m == Matches(p, v, tol);
    if |m| < 2 {
      return None, None;
    }
    var ix := PickPair(m, Pivot(p));
    forward, reverse := Some(c[ix.0]), Some(c[ix.1]);
  }

  /** The search for the requested potential, and the fallback target. */
  method FindTarget(p: seq<real>, v: real, tol: real) returns (target: real, tolerance: real)
    requires |p| > 0
    ensures (target, tolerance) == EffectiveTarget(p, v, tol)
  {
    var found := false;
    var i := 0;
    while i < |p|
      invariant 0 <= i <= |p|
      invariant found <==> exists k :: 0 <= k < i && Abs(p[k] - v) < tol
    {
      if Abs(p[i] - v) < tol {
        found := true;
        break;
      }
      i := i + 1;
    }
    target, tolerance := v, tol;
    if !found {
      var lo, hi := SeqMin(p), SeqMax(p);
      target := (lo + hi) / 2.0;
      tolerance := MaxReal(tol * 2.0, (hi - lo) / 50.0);
    }
  }

  // ----- The linear fit --------------------------------------------------

  function RealSum(s: seq<real>): real
  {
    if s == [] then 0.0 else s[0] + RealSum(s[1..])
  }

  lemma {:induction false} RealSumNonNegative(s: seq<real>)
    requires forall k :: 0 <= k < |s| ==> s[k] >= 0.0
    ensures RealSum(s) >= 0.0
  {
    if s != [] {
      RealSumNonNegative(s[1..]);
    }
  }

  lemma {:induction false} RealSumZero(s: seq<real>)
    requires forall k :: 0 <= k < |s| ==> s[k] == 0.0
    ensures RealSum(s) == 0.0
  {
    if s != [] {
      RealSumZero(s[1..]);
    }
  }

  /** The (scan rate, Δj) pairs whose Δj is defined, in order; zip stops at
      the shorter list. */
  function ValidPairs(rates: seq<int>, dj: seq<Option<real>>): seq<(int, real)>
  {
    if rates == [] || dj == [] then []
    else (if dj[0].Some? then [(rates[0], dj[0].value)] else []) + ValidPairs(rates[1..], dj[1..])
  }

  /** A pair is kept exactly when it is zipped from a defined Δj. */
  lemma {:induction false} ValidPairsMembers(rates: seq<int>, dj: seq<Option<real>>, x: int, y: real)
    ensures (x, y) in ValidPairs(rates, dj) <==>
      exists i :: 0 <= i < |rates| && i < |dj| && rates[i] == x && dj[i] == Some(y)
  {
    if rates != [] && dj != [] {
      ValidPairsMembers(rates[1..], dj[1..], x, y);
      if (x, y) in ValidPairs(rates[1..], dj[1..]) {
        var i :| 0 <= i < |rates[1..]| && i < |dj[1..]| && rates[1..][i] == x && dj[1..][i] == Some(y);
        assert rates[i + 1] == x && dj[i + 1] == Some(y);
      }
      if exists i :: 0 <= i < |rates| && i < |dj| && rates[i] == x && dj[i] == Some(y) {
        var i :| 0 <= i < |rates| && i < |dj| && rates[i] == x && dj[i] == Some(y);
        if i > 0 {
          assert rates[1..][i - 1] == x && dj[1..][i - 1] == Some(y);
        }
      }
    }
  }

  function Xs(pairs: seq<(int, real)>): (r: seq<real>)
    ensures |r| == |pairs| && forall k :: 0 <= k < |pairs| ==> r[k] == pairs[k].0 as real
  {
    seq(|pairs|, k requires 0 <= k < |pairs| => pairs[k].0 as real)
  }

  /** The second components of a sequence of pairs: the Δj values of the
      fit, the currents of a file's samples. */
  function SecondsOf<T>(pairs: seq<(T, real)>): (r: seq<real>)
    ensures |r| == |pairs| && forall k :: 0 <= k < |pairs| ==> r[k] == pairs[k].1
  {
    seq(|pairs|, k requires 0 <= k < |pairs| => pairs[k].1)
  }

  function Square(x: real): (r: real)
    ensures r >= 0.0
    ensures x == 0.0 ==> r == 0.0
  {
    if x >= 0.0 then x * x else (-x) * (-x)
  }

  function SquaredDeviations(ys: seq<real>, mean: real): (r: seq<real>)
    ensures |r| == |ys| && forall k :: 0 <= k < |ys| ==> r[k] == Square(ys[k] - mean)
  {
    seq(|ys|, k requires 0 <= k < |ys| => Square(ys[k] - mean))
  }

  /** The vertical distance of (x, y) from the line. */
  function Residual(x: real, y: real, slope: real, intercept: real): real
  {
    y - (slope * x + intercept)
  }

  function SquaredResiduals(xs: seq<real>, ys: seq<real>, slope: real, intercept: real): (r: seq<real>)
    requires |xs| == |ys|
    ensures |r| == |ys| && forall k :: 0 <= k < |ys| ==> r[k] == Square(Residual(xs[k], ys[k], slope, intercept))
  {
    seq(|ys|, k requires 0 <= k < |ys| => Square(Residual(xs[k], ys[k], slope, intercept)))
  }

  /** Slope, intercept and R² of a degree-1 fit; R² is absent when the Δj
      values are all equal (the total sum of squares is zero). */
  datatype Fit = Fit(slope: real, intercept: real, rSquared: Option<real>)

  /** The total and the residual sum of squares of ys about the line. */
  function SumsOfSquares(xs: seq<real>, ys: seq<real>, line: (real, real)): (r: (real, real))
    requires |xs| == |ys| > 0
    ensures r.0 >= 0.0 && r.1 >= 0.0
  {
    var total := SquaredDeviations(ys, RealSum(ys) / |ys| as real);
    var residual := SquaredResiduals(xs, ys, line.0, line.1);
    RealSumNonNegative(total);
    RealSumNonNegative(residual);
    (RealSum(total), RealSum(residual))
  }

  /** R² = 1 - residual / total, absent when the total is zero. */
  function RSquared(ss: (real, real)): (r: Option<real>)
    requires ss.0 >= 0.0 && ss.1 >= 0.0
    ensures r.None? <==> ss.0 == 0.0
    ensures r.Some? ==> r.value <= 1.0
    ensures r.Some? ==> (r.value == 1.0 <==> ss.1 == 0.0)
  {
    if ss.0 == 0.0 then None
    else
      assert ss.1 / ss.0 >= 0.0;
      assert ss.1 / ss.0 == 0.0 <==> ss.1 == 0.0;
      Some(1.0 - ss.1 / ss.0)
  }

  /** calculate_linear_fit. */
  function LinearFit(env: Env, rates: seq<int>, dj: seq<Option<real>>): (r: Option<Fit>)
    ensures r.None? <==> |ValidPairs(rates, dj)| < 2
    ensures r.Some? ==> var pairs := ValidPairs(rates, dj);
      var line := env.polyfit(Xs(pairs), SecondsOf(pairs));
      r.value == Fit(line.0, line.1, RSquared(SumsOfSquares(Xs(pairs), SecondsOf(pairs), line)))
  {
    var pairs := ValidPairs(rates, dj);
    if |pairs| < 2 then None
    else
      var line := env.polyfit(Xs(pairs), SecondsOf(pairs));
      Some(Fit(line.0, line.1, RSquared(SumsOfSquares(Xs(pairs), SecondsOf(pairs), line))))
  }

  /** When the line passes through every point and the values are not all
      equal, R² is exactly 1. */
  lemma PerfectFit(xs: seq<real>, ys: seq<real>, line: (real, real))
    requires |xs| == |ys| > 0
    requires forall k :: 0 <= k < |xs| ==> ys[k] == line.0 * xs[k] + line.1
    requires SumsOfSquares(xs, ys, line).0 != 0.0
    ensures RSquared(SumsOfSquares(xs, ys, line)) == Some(1.0)
  {
    var residual := SquaredResiduals(xs, ys, line.0, line.1);
    forall k | 0 <= k < |xs|
      ensures residual[k] == 0.0
    {
      assert Residual(xs[k], ys[k], line.0, line.1) == 0.0;
    }
    RealSumZero(residual);
  }

  // ----- One file --------------------------------------------------------

  function PotentialsOf(s: seq<(real, real)>): (r: seq<real>)
    ensures |r| == |s| && forall k :: 0 <= k < |s| ==> r[k] == s[k].0
  {
    seq(|s|, k requires 0 <= k < |s| => s[k].0)
  }

  /** The transformed last cycle of one file and its scan rate in mV/s. */
  datatype CycleData = CycleData(potentials: seq<real>, currents: seq<real>, rate: Option<int>)

  /** The last cycle of a file's samples: the window after the last cycle
      start of the potentials, shifted and scaled. */
  function SamplesCycle(s: seq<(real, real)>): (seq<real>, seq<real>)
  {
    var p := PotentialsOf(s);
    CycleStartsProperties(p, CycleTolerance);
    LastCycle(p, SecondsOf(s), CycleStarts(p, CycleTolerance))
  }

  /** A file's last cycle is the window of its samples after the last cycle
      start, each potential shifted and each current scaled. */
  lemma SamplesCycleWindow(s: seq<(real, real)>)
    ensures var starts := CycleStarts(PotentialsOf(s), CycleTolerance);
      InRange(starts, |s|) && StrictlyIncreasing(starts) &&
      CycleWindow(s, starts, SamplesCycle(s))
  {
    var p := PotentialsOf(s);
    CycleStartsProperties(p, CycleTolerance);
    WindowOfSamples(s, CycleStarts(p, CycleTolerance));
  }

  /** r is the window of s that LastCycleWindow gives for the starts,
      potentials shifted and currents scaled. */
  predicate CycleWindow(s: seq<(real, real)>, starts: seq<int>, r: (seq<real>, seq<real>))
    requires InRange(starts, |s|) && StrictlyIncreasing(starts)
  {
    var w := LastCycleWindow(|s|, starts);
    |r.0| == |r.1| == w.1 - w.0 &&
    forall k :: 0 <= k < |r.0| ==>
      r.0[k] == s[w.0 + k].0 + PotentialOffset && r.1[k] == s[w.0 + k].1 * CurrentScale
  }

  lemma WindowOfSamples(s: seq<(real, real)>, starts: seq<int>)
    requires InRange(starts, |s|) && StrictlyIncreasing(starts)
    ensures CycleWindow(s, starts, LastCycle(PotentialsOf(s), SecondsOf(s), starts))
  {
    var p := PotentialsOf(s);
    var c := SecondsOf(s);
    var w := LastCycleWindow(|s|, starts);
    var r := LastCycle(p, c, starts);
    forall k | 0 <= k < |r.0|
      ensures r.0[k] == s[w.0 + k].0 + PotentialOffset && r.1[k] == s[w.0 + k].1 * CurrentScale
    {
      assert p[w.0 + k] == s[w.0 + k].0 && c[w.0 + k] == s[w.0 + k].1;
    }
  }

  /** extract_last_cycle on a file's content (None: the file could not be
      read). It fails when float() rejects the scan rate or no sample is
      found. */
  function LastCycleOf(env: Env, content: Option<string>): (r: Option<CycleData>)
    ensures r.Some? <==> (content.Some? && ExtractScanRate(env, content.value) != RateError
      && Samples(env, content.value) != [])
    ensures r.Some? ==> (r.value.potentials, r.value.currents) == SamplesCycle(Samples(env, content.value))
    ensures r.Some? ==> |r.value.potentials| == |r.value.currents| <= |Samples(env, content.value)|
    ensures r.Some? ==> r.value.rate == match ExtractScanRate(env, content.value)
      case Rate(x) => Some(x) case _ => None
  {
    if content.None? then None
    else
      var rate := ExtractScanRate(env, content.value);
      var s := Samples(env, content.value);
      if rate == RateError || s == [] then None
      else
        var cycle := SamplesCycle(s);
        Some(CycleData(cycle.0, cycle.1, if rate.Rate? then Some(rate.mvPerS) else None))
  }

  method ExtractLastCycle(env: Env, content: Option<string>) returns (r: Option<CycleData>)
    ensures r == LastCycleOf(env, content)
  {
    if content.None? {
      return None;
    }
    var rate := ExtractScanRate(env, content.value);
    if rate == RateError {
      return None;
    }
    var p, c := ExtractPotentialCurrentData(env, content.value);
    if p == [] || c == [] {
      return None;
    }
    var s := Samples(env, content.value);
    assert p == PotentialsOf(s) && c == SecondsOf(s);
    var starts := FindCycleStartIndices(p, CycleTolerance);
    var cycle := LastCycle(p, c, starts);
    r := Some(CycleData(cycle.0, cycle.1, if rate.Rate? then Some(rate.mvPerS) else None));
  }

  /** Δj = |reverse - forward|, defined when both currents are. */
  function DeltaJ(forward: Option<real>, reverse: Option<real>): (d: Option<real>)
    ensures d.Some? <==> forward.Some? && reverse.Some?
    ensures d.Some? ==> (d.value >= 0.0 &&
      (d.value == reverse.value - forward.value || d.value == forward.value - reverse.value))
  {
    if forward.Some? && reverse.Some? then Some(Abs(reverse.value - forward.value)) else None
  }

  /** One row of the analysis: the last cycle, the scan rate and the
      midpoint currents with their difference. */
  datatype Record = Record(potentials: seq<real>, currents: seq<real>, rate: int,
                           forward: Option<real>, reverse: Option<real>, deltaJ: Option<real>)

  /** The row a file contributes; a file that fails or has no scan rate
      contributes none. */
  function FileRecord(env: Env, content: Option<string>): (r: Option<Record>)
    ensures r.Some? <==> LastCycleOf(env, content).Some? && LastCycleOf(env, content).value.rate.Some?
    ensures r.Some? ==> var d := LastCycleOf(env, content).value;
      r.value.potentials == d.potentials && r.value.currents == d.currents && r.value.rate == d.rate.value
      && (r.value.forward, r.value.reverse) == MidpointValues(d.potentials, d.currents, MidpointPotential, MidpointTolerance)
      && r.value.deltaJ == DeltaJ(r.value.forward, r.value.reverse)
  {
    match LastCycleOf(env, content)
    case None => None
    case Some(d) =>
      if d.rate.None? then None
      else
        var mid := MidpointValues(d.potentials, d.currents, MidpointPotential, MidpointTolerance);
        Some(Record(d.potentials, d.currents, d.rate.value, mid.0, mid.1, DeltaJ(mid.0, mid.1)))
  }

  function RecordOf(env: Env): Option<string> -> Option<Record>
  {
    content => FileRecord(env, content)
  }

  // ----- Stable sort by scan rate ------------------------------------------

  function RecordRate(r: Record): int
  {
    r.rate
  }

  predicate SortedBy<T>(key: T -> int, s: seq<T>)
  {
    forall i, j :: 0 <= i < j < |s| ==> key(s[i]) <= key(s[j])
  }

  /** Inserts x after every element whose key is at most x's. */
  function InsertBy<T>(key: T -> int, x: T, s: seq<T>): seq<T>
  {
    if s == [] then [x]
    else if key(x) < key(s[0]) then [x] + s
    else [s[0]] + InsertBy(key, x, s[1..])
  }

  /** The insertion keeps the elements, adding x once. */
  lemma {:induction false} InsertByElements<T>(key: T -> int, x: T, s: seq<T>)
    ensures multiset(InsertBy(key, x, s)) == multiset(s) + multiset{x}
  {
    if s != [] && key(x) >= key(s[0]) {
      InsertByElements(key, x, s[1..]);
      assert s == [s[0]] + s[1..];
    }
  }

  /** Inserting into a sorted list gives a sorted list. */
  lemma {:induction false} InsertBySorted<T>(key: T -> int, x: T, s: seq<T>)
    requires SortedBy(key, s)
    ensures SortedBy(key, InsertBy(key, x, s))
  {
    if s != [] && key(x) >= key(s[0]) {
      var t := InsertBy(key, x, s[1..]);
      SortedTail(key, s);
      InsertBySorted(key, x, s[1..]);
      assert forall i :: 0 <= i < |s[1..]| ==> key(s[0]) <= key(s[1..][i]);
      InsertByLowerBound(key, x, s[1..], key(s[0]));
      SortedCons(key, s[0], t);
    }
  }

  /** A bound below every key of the list and x's bounds every key of the insertion. */
  lemma {:induction false} InsertByLowerBound<T>(key: T -> int, x: T, s: seq<T>, lo: int)
    requires lo <= key(x) && forall i :: 0 <= i < |s| ==> lo <= key(s[i])
    ensures forall i :: 0 <= i < |InsertBy(key, x, s)| ==> lo <= key(InsertBy(key, x, s)[i])
  {
    if s != [] && key(x) >= key(s[0]) {
      var t := InsertBy(key, x, s[1..]);
      assert forall i :: 0 <= i < |s[1..]| ==> s[1..][i] == s[i + 1];
      InsertByLowerBound(key, x, s[1..], lo);
      var r := [s[0]] + t;
      assert forall i :: 0 < i < |r| ==> r[i] == t[i - 1];
    } else if s != [] {
      var r := [x] + s;
      assert forall i :: 0 < i < |r| ==> r[i] == s[i - 1];
    }
  }

  lemma SortedCons<T>(key: T -> int, y: T, t: seq<T>)
    requires SortedBy(key, t) && forall i :: 0 <= i < |t| ==> key(y) <= key(t[i])
    ensures SortedBy(key, [y] + t)
  {
    var r := [y] + t;
    assert forall j :: 0 < j < |r| ==> r[j] == t[j - 1];
  }

  /** list.sort(key=...): an insertion sort taking the elements in order, so
      elements with equal keys keep their relative order. */
  function SortBy<T>(key: T -> int, s: seq<T>): (r: seq<T>)
    ensures SortedBy(key, r)
    ensures multiset(r) == multiset(s)
  {
    if s == [] then []
    else
      var init, x := s[..|s| - 1], s[|s| - 1];
      assert s == init + [x];
      var sorted := SortBy(key, init);
      InsertBySorted(key, x, sorted);
      InsertByElements(key, x, sorted);
      InsertBy(key, x, sorted)
  }

  /** The element as a one-element list when its key is k. */
  function OneWithKey<T>(key: T -> int, x: T, k: int): seq<T>
  {
    if key(x) == k then [x] else []
  }

  /** The elements with key k, in order. */
  function WithKey<T>(key: T -> int, s: seq<T>, k: int): seq<T>
  {
    if s == [] then [] else OneWithKey(key, s[0], k) + WithKey(key, s[1..], k)
  }

  lemma WithKeyCons<T>(key: T -> int, x: T, s: seq<T>, k: int)
    ensures WithKey(key, [x] + s, k) == OneWithKey(key, x, k) + WithKey(key, s, k)
  {
    assert ([x] + s)[1..] == s;
  }

  lemma {:induction false} WithKeyAppend<T>(key: T -> int, a: seq<T>, b: seq<T>, k: int)
    ensures WithKey(key, a + b, k) == WithKey(key, a, k) + WithKey(key, b, k)
  {
    if a == [] {
      assert a + b == b;
    } else {
      assert a + b == [a[0]] + (a[1..] + b);
      WithKeyCons(key, a[0], a[1..] + b, k);
      WithKeyAppend(key, a[1..], b, k);
    }
  }

  lemma {:induction false} WithKeyNone<T>(key: T -> int, s: seq<T>, k: int)
    requires forall i :: 0 <= i < |s| ==> key(s[i]) != k
    ensures WithKey(key, s, k) == []
  {
    if s != [] {
      WithKeyNone(key, s[1..], k);
    }
  }

  lemma {:induction false} InsertStable<T>(key: T -> int, x: T, s: seq<T>, k: int)
    requires SortedBy(key, s)
    ensures WithKey(key, InsertBy(key, x, s), k) == WithKey(key, s, k) + OneWithKey(key, x, k)
    decreases |s|, 1
  {
    if s == [] {
      WithKeyCons(key, x, [], k);
    } else if key(x) < key(s[0]) {
      InsertFrontStable(key, x, s, k);
    } else {
      InsertLaterStable(key, x, s, k);
    }
  }

  /** An element that goes after the head keeps its place among its equals
      in the tail. */
  lemma {:induction false} InsertLaterStable<T>(key: T -> int, x: T, s: seq<T>, k: int)
    requires SortedBy(key, s) && s != [] && key(x) >= key(s[0])
    ensures WithKey(key, InsertBy(key, x, s), k) == WithKey(key, s, k) + OneWithKey(key, x, k)
    decreases |s|, 0
  {
    var t := InsertBy(key, x, s[1..]);
    var a, b, c := OneWithKey(key, s[0], k), WithKey(key, s[1..], k), OneWithKey(key, x, k);
    assert InsertBy(key, x, s) == [s[0]] + t;
    WithKeyCons(key, s[0], t, k);
    SortedTail(key, s);
    InsertStable(key, x, s[1..], k);
    assert a + (b + c) == (a + b) + c;
    assert WithKey(key, s, k) == a + b;
  }

  lemma SortedTail<T>(key: T -> int, s: seq<T>)
    requires SortedBy(key, s) && s != []
    ensures SortedBy(key, s[1..])
  {
    assert forall i :: 0 <= i < |s[1..]| ==> s[1..][i] == s[i + 1];
  }

  /** An element placed in front of a sorted list whose keys all exceed its
      own comes, among its equals, after all of them (there are none). */
  lemma InsertFrontStable<T>(key: T -> int, x: T, s: seq<T>, k: int)
    requires SortedBy(key, s) && s != [] && key(x) < key(s[0])
    ensures WithKey(key, InsertBy(key, x, s), k) == WithKey(key, s, k) + OneWithKey(key, x, k)
  {
    assert InsertBy(key, x, s) == [x] + s;
    WithKeyCons(key, x, s, k);
    if key(x) == k {
      assert forall i :: 0 <= i < |s| ==> key(s[i]) >= key(s[0]);
      WithKeyNone(key, s, k);
    }
  }

  /** The sort is stable: for every key, the elements with that key appear
      in the sorted list in their original order. */
  lemma {:induction false} SortStable<T>(key: T -> int, s: seq<T>, k: int)
    ensures WithKey(key, SortBy(key, s), k) == WithKey(key, s, k)
  {
    if s != [] {
      var init := s[..|s| - 1];
      var x := s[|s| - 1];
      assert s == init + [x];
      SortStable(key, init, k);
      InsertStable(key, x, SortBy(key, init), k);
      WithKeyAppend(key, init, [x], k);
      WithKeyCons(key, x, [], k);
    }
  }

  // ----- The whole batch -------------------------------------------------

  function Rates(s: seq<Record>): (r: seq<int>)
    ensures |r| == |s| && forall k :: 0 <= k < |s| ==> r[k] == s[k].rate
  {
    seq(|s|, k requires 0 <= k < |s| => s[k].rate)
  }

  function DeltaJs(s: seq<Record>): (r: seq<Option<real>>)
    ensures |r| == |s| && forall k :: 0 <= k < |s| ==> r[k] == s[k].deltaJ
  {
    seq(|s|, k requires 0 <= k < |s| => s[k].deltaJ)
  }

  /** The analysis of a folder: rows sorted by scan rate, the fit of Δj
      against scan rate and Cdl = 1000 × slope. */
  datatype CvSummary = CvSummary(records: seq<Record>, fit: Option<Fit>, cdl: Option<real>)

  /** The rows, stably sorted by scan rate, with the fit of Δj against scan
      rate and Cdl; None when there is no row. */
  function Summarize(env: Env, rows: seq<Record>): (r: Option<CvSummary>)
    ensures r.None? <==> rows == []
    ensures r.Some? ==> (SortedBy(RecordRate, r.value.records)
      && multiset(r.value.records) == multiset(rows))
    ensures r.Some? ==> r.value.fit == LinearFit(env, Rates(r.value.records), DeltaJs(r.value.records))
    ensures r.Some? ==> (r.value.cdl.Some? <==> r.value.fit.Some?)
    ensures r.Some? && r.value.fit.Some? ==> r.value.cdl.value == r.value.fit.value.slope * 1000.0
  {
    if rows == [] then None
    else
      var sorted := SortBy(RecordRate, rows);
      var fit := LinearFit(env, Rates(sorted), DeltaJs(sorted));
      Some(CvSummary(sorted, fit, if fit.Some? then Some(fit.value.slope * 1000.0) else None))
  }

  /** process_all_files_from_paths on the files' contents, in order. */
  function CvSummaryOf(env: Env, contents: seq<Option<string>>): Option<CvSummary>
  {
    Summarize(env, Collect(RecordOf(env), contents))
  }

  /** Rows with equal scan rates keep the order of their files. */
  lemma SummaryStable(env: Env, rows: seq<Record>, k: int)
    requires rows != []
    ensures WithKey(RecordRate, Summarize(env, rows).value.records, k) == WithKey(RecordRate, rows, k)
  {
    SortStable(RecordRate, rows, k);
  }

  /** A row belongs to the analysis exactly when some file produces it: a
      file that fails, or has no scan rate, is skipped. */
  lemma RowsComeFromFiles(env: Env, contents: seq<Option<string>>, row: Record)
    requires CvSummaryOf(env, contents).Some?
    ensures row in CvSummaryOf(env, contents).value.records <==>
      exists j :: 0 <= j < |contents| && FileRecord(env, contents[j]) == Some(row)
  {
    var rows := Collect(RecordOf(env), contents);
    CollectMembers(RecordOf(env), contents, row);
    assert row in CvSummaryOf(env, contents).value.records <==> row in multiset(rows);
  }

  /** The row of one file, computed by the program's own steps. */
  method ProcessFile(env: Env, content: Option<string>) returns (r: Option<Record>)
    ensures r == FileRecord(env, content)
  {
    var d := ExtractLastCycle(env, content);
    if d.None? || d.value.rate.None? {
      return None;
    }
    var forward, reverse := FindMidpointValues(d.value.potentials, d.value.currents, MidpointPotential, MidpointTolerance);
    r := Some(Record(d.value.potentials, d.value.currents, d.value.rate.value, forward, reverse, DeltaJ(forward, reverse)));
  }

  /** The loop over the files: failed files and files without a scan rate
      are skipped. */
  method CollectRows(env: Env, contents: seq<Option<string>>) returns (rows: seq<Record>)
    ensures rows == Collect(RecordOf(env), contents)
  {
    rows := [];
    var i := 0;
    while i < |contents|
      invariant 0 <= i <= |contents|
      invariant rows == Collect(RecordOf(env), contents[..i])
    {
      var row := ProcessFile(env, contents[i]);
      rows := CollectStep(RecordOf(env), contents, i, rows, row);
      i := i + 1;
    }
    assert contents[..i] == contents;
  }

  method ProcessCvFiles(env: Env, contents: seq<Option<string>>) returns (r: Option<CvSummary>)
    ensures r == CvSummaryOf(env, contents)
  {
    var rows := CollectRows(env, contents);
    r := Summarize(env, rows);
  }
}
