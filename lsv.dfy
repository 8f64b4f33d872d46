/**
  Linear sweep voltammetry: the file identifier taken from the `File:`
  label, the (shared) potential/current parser, the nearest-current
  search, the overpotentials at 10, 100 and 200 mA cm^-2, the column
  layout of the report, and the keyword test that finds LSV files.
 */
module Lsv {
  import opened Common
  import opened Text
  import opened FileUtils
  import opened CvParse
  import opened CvCycles
  import opened CvAnalysis

  // ----- The file identifier ---------------------------------------------

  const FileLabel: string := "File:"

  predicate IsBreak(c: char) { c == '\r' || c == '\n' }

  /** The class `[^\r\n,]` of the identifier group. */
  predicate InIdGroup(c: char) { !IsBreak(c) && c != ',' }

  /** The last position in [i, w) that is not a line break. */
  function LastNonBreak(s: string, i: nat, w: nat): (r: Option<nat>)
    requires i <= w <= |s|
    ensures r.Some? ==> i <= r.value < w && !IsBreak(s[r.value])
    ensures r.Some? ==> forall j :: r.value < j < w ==> IsBreak(s[j])
    ensures r.None? ==> forall j :: i <= j < w ==> IsBreak(s[j])
    decreases w - i
  {
    if w == i then None
    else if !IsBreak(s[w - 1]) then Some(w - 1)
    else LastNonBreak(s, i, w - 1)
  }

  /** A group of `File:\s*([^\r\n,]+)` can start at a for a match at p:
      the label, whitespace up to a, and a group character at a. */
  predicate GroupStart(s: string, p: nat, a: nat)
  {
    OccursAt(s, FileLabel, p) && p + |FileLabel| <= a < |s| &&
    (forall k :: p + |FileLabel| <= k < a ==> IsSpace(s[k])) && InIdGroup(s[a])
  }

  /** The group of `File:\s*([^\r\n,]+)` for a match starting at p, as a
      pair of positions. The `\s*` first takes the whole whitespace run; if
      no group character follows, it gives characters back one at a time,
      and the group is then the last given-back character that is not a
      line break (a single blank). So the group starts at the last possible
      start, and there is a match at p exactly when some start exists. */
  function FileIdAt(s: string, p: nat): (g: Option<(nat, nat)>)
    ensures g.Some? ==> IdMatch(s, p, g.value.0, g.value.1)
    ensures g.Some? ==> forall a :: g.value.0 < a ==> !GroupStart(s, p, a)
    ensures g.None? <==> forall a :: !GroupStart(s, p, a)
  {
    if !OccursAt(s, FileLabel, p) then None
    else
      var i := p + |FileLabel|;
      var w := RunEnd(s, i, IsSpace);
      NoStartPastRun(s, p, w);
      if w < |s| && InIdGroup(s[w]) then
        assert GroupStart(s, p, w);
        Some((w, RunEnd(s, w, InIdGroup)))
      else match LastNonBreak(s, i, w)
        case Some(j) =>
          NoStartInBreaks(s, p, j + 1, w);
          assert GroupStart(s, p, j);
          Some((j, j + 1))
        case None =>
          NoStartInBreaks(s, p, i, w);
          None
  }

  /** No group starts after the end w of the whitespace run. */
  lemma NoStartPastRun(s: string, p: nat, w: nat)
    requires OccursAt(s, FileLabel, p) && w == RunEnd(s, p + |FileLabel|, IsSpace)
    ensures forall a :: w < a ==> !GroupStart(s, p, a)
  {
    forall a | w < a && GroupStart(s, p, a)
      ensures false
    {
    }
  }

  /** No group starts in a stretch [j, w) of line breaks that ends at a
      character that cannot start one. */
  lemma NoStartInBreaks(s: string, p: nat, j: nat, w: nat)
    requires j <= w <= |s|
    requires forall k :: j <= k < w ==> IsBreak(s[k])
    requires w == |s| || !InIdGroup(s[w])
    ensures forall a :: j <= a <= w ==> !GroupStart(s, p, a)
  {
  }

  /** A match of `File:\s*([^\r\n,]+)` at p whose group spans [a, b): the
      label, blanks up to a, then a maximal run of group characters. */
  predicate IdMatch(s: string, p: nat, a: nat, b: nat)
  {
    OccursAt(s, FileLabel, p) && p + |FileLabel| <= a < b <= |s| &&
    (forall k :: p + |FileLabel| <= k < a ==> IsSpace(s[k])) &&
    (forall k :: a <= k < b ==> InIdGroup(s[k])) &&
    (b == |s| || !InIdGroup(s[b]))
  }

  /** The match re.search reports: the pattern matches at no earlier
      position, the `\s*` leaves no later start of the group, and the group
      is a maximal run. */
  predicate SearchMatch(s: string, p: nat, a: nat, b: nat)
  {
    IdMatch(s, p, a, b) &&
    (forall q: nat, c: nat :: q < p && c < |s| ==> !GroupStart(s, q, c)) &&
    (forall c: nat :: a < c < |s| ==> !GroupStart(s, p, c))
  }

  /** There is at most one such match. */
  lemma SearchMatchUnique(s: string, p: nat, a: nat, b: nat, p': nat, a': nat, b': nat)
    requires SearchMatch(s, p, a, b) && SearchMatch(s, p', a', b')
    ensures p == p' && a == a' && b == b'
  {
    assert GroupStart(s, p, a) && GroupStart(s, p', a');
  }

  /** re.search: the leftmost position at which the pattern matches. */
  function FirstIdMatch(s: string, i: nat): (r: Option<nat>)
    requires i <= |s|
    ensures r.Some? ==> i <= r.value <= |s| && FileIdAt(s, r.value).Some?
    decreases |s| - i
  {
    if FileIdAt(s, i).Some? then Some(i)
    else if i == |s| then None
    else FirstIdMatch(s, i + 1)
  }

  /** No match starts before the one found, and none at all when none is found. */
  lemma {:induction false} FirstIdMatchLeftmost(s: string, i: nat, q: nat)
    requires i <= q <= |s|
    requires FirstIdMatch(s, i).None? || q < FirstIdMatch(s, i).value
    ensures FileIdAt(s, q).None?
    decreases q - i
  {
    if i < q {
      FirstIdMatchLeftmost(s, i + 1, q);
    }
  }

  /** The identifier after `File:`: None exactly when the pattern matches
      nowhere; otherwise the stripped group of the match re.search reports,
      which holds no line break and no comma. */
  function LabelledId(s: string): (r: Option<string>)
    ensures r.None? <==> forall p: nat, a: nat :: !GroupStart(s, p, a)
    ensures r.Some? ==> exists p: nat, a: nat, b: nat :: SearchMatch(s, p, a, b) && r.value == Strip(s[a..b])
    ensures r.Some? ==> forall k :: 0 <= k < |r.value| ==> InIdGroup(r.value[k])
  {
    match FirstIdMatch(s, 0)
    case Some(p) =>
      var g := FileIdAt(s, p).value;
      GroupChars(s, p, g.0, g.1);
      forall q: nat, c: nat | q < p
        ensures !GroupStart(s, q, c)
      {
        FirstIdMatchLeftmost(s, 0, q);
      }
      assert SearchMatch(s, p, g.0, g.1);
      assert GroupStart(s, p, g.0);
      Some(Strip(s[g.0..g.1]))
    case None =>
      forall q: nat, c: nat
        ensures !GroupStart(s, q, c)
      {
        if q <= |s| {
          FirstIdMatchLeftmost(s, 0, q);
        }
      }
      None
  }

  const GreedyText: string := "File: \n abc"

  /** `\s*` takes a line break and the blank after it: the group of
      "File: \n abc" is "abc". */
  lemma GreedyGroup()
    ensures FileIdAt(GreedyText, 0) == Some((8, 11))
  {
    var s := GreedyText;
    assert s[0..5] == FileLabel;
    assert IsSpace(s[5]) && IsSpace(s[6]) && IsSpace(s[7]) && !IsSpace(s[8]);
    assert RunEnd(s, 5, IsSpace) == 8 by {
      assert RunEnd(s, 8, IsSpace) == 8;
      assert RunEnd(s, 7, IsSpace) == 8;
      assert RunEnd(s, 6, IsSpace) == 8;
    }
    assert InIdGroup(s[8]) && InIdGroup(s[9]) && InIdGroup(s[10]);
    assert RunEnd(s, 8, InIdGroup) == 11 by {
      assert RunEnd(s, 11, InIdGroup) == 11;
      assert RunEnd(s, 10, InIdGroup) == 11;
      assert RunEnd(s, 9, InIdGroup) == 11;
    }
  }

  /** The identifier of "File: \n abc" is "abc". */
  lemma LabelledIdGreedy()
    ensures LabelledId(GreedyText) == Some("abc")
  {
    GreedyGroup();
    assert FirstIdMatch(GreedyText, 0) == Some(0);
    assert GreedyText[8..11] == "abc";
    StripWord();
  }

  lemma StripWord()
    ensures Strip("abc") == "abc"
  {
    assert TrimLeft("abc") == "abc";
    assert TrimRight("abc") == "abc";
  }

  /** file_id: the labelled identifier, or the file name without extension. */
  function FileId(path: string, s: string): string
  {
    match LabelledId(s)
    case Some(t) => t
    case None => Stem(path)
  }

  /** Stripping keeps a string free of line breaks and commas. */
  lemma StripGroup(x: string)
    requires forall k :: 0 <= k < |x| ==> InIdGroup(x[k])
    ensures forall k :: 0 <= k < |Strip(x)| ==> InIdGroup(Strip(x)[k])
  {
    var l := TrimLeft(x);
    forall k | 0 <= k < |l|
      ensures InIdGroup(l[k])
    {
      assert l[k] == x[|x| - |l| + k];
    }
    var r := TrimRight(l);
    forall k | 0 <= k < |r|
      ensures InIdGroup(r[k])
    {
      assert r[k] == l[k];
    }
  }

  /** Without a `File:` label the identifier is the file stem. */
  lemma FileIdFallback(path: string, s: string)
    requires forall p :: 0 <= p <= |s| ==> !OccursAt(s, FileLabel, p)
    ensures FileId(path, s) == Stem(path)
  {
  }

  /** The stripped group of a match holds no line break and no comma. */
  lemma GroupChars(s: string, p: nat, a: nat, b: nat)
    requires IdMatch(s, p, a, b)
    ensures forall k :: 0 <= k < |Strip(s[a..b])| ==> InIdGroup(Strip(s[a..b])[k])
  {
    var x := s[a..b];
    forall k | 0 <= k < |x|
      ensures InIdGroup(x[k])
    {
      assert x[k] == s[a + k];
    }
    StripGroup(x);
  }

  /** extract_lsv_data: the samples of the shared parser and the file
      identifier; nothing, and no identifier, when the file cannot be read. */
  method ExtractLsvData(env: Env, path: string, content: Option<string>)
    returns (potentials: seq<real>, currents: seq<real>, fileId: Option<string>)
    ensures content.None? ==> potentials == [] && currents == [] && fileId.None?
    ensures content.Some? ==> fileId == Some(FileId(path, content.value))
    ensures content.Some? ==> (|potentials| == |currents| == |Samples(env, content.value)| &&
      forall k :: 0 <= k < |potentials| ==> (potentials[k], currents[k]) == Samples(env, content.value)[k])
  {
    if content.None? {
      return [], [], None;
    }
    fileId := Some(FileId(path, content.value));
    potentials, currents := ExtractPotentialCurrentData(env, content.value);
  }

  // ----- Nearest values --------------------------------------------------

  /** np.argmin(|v - t|) over the first n values: the first index of the
      smallest distance. */
  function ClosestIn(v: seq<real>, t: real, n: nat): (r: nat)
    requires 0 < n <= |v|
    ensures r < n
    ensures forall j :: 0 <= j < n ==> Abs(v[r] - t) <= Abs(v[j] - t)
    ensures forall j :: 0 <= j < r ==> Abs(v[r] - t) < Abs(v[j] - t)
  {
    if n == 1 then 0
    else
      var b := ClosestIn(v, t, n - 1);
      if Abs(v[n - 1] - t) < Abs(v[b] - t) then n - 1 else b
  }

  /** v[i] is at least as close to t as every value and strictly closer
      than every earlier one: i is the first index of least distance. */
  predicate Nearest(v: seq<real>, t: real, i: nat)
  {
    i < |v| &&
    (forall j :: 0 <= j < |v| ==> Abs(v[i] - t) <= Abs(v[j] - t)) &&
    (forall j :: 0 <= j < i ==> Abs(v[i] - t) < Abs(v[j] - t))
  }

  /** The nearest index is the only one that is at least as close as every
      other and strictly closer than every earlier one. */
  lemma ClosestUnique(v: seq<real>, t: real, i: nat)
    requires Nearest(v, t, i)
    ensures i == ClosestIn(v, t, |v|)
  {
  }

  /** find_closest_values: one nearest index per target, in target order;
      nothing when either list is empty. */
  function ClosestIndices(values: seq<real>, targets: seq<real>): (r: seq<nat>)
    ensures values == [] || targets == [] ==> r == []
    ensures values != [] && targets != [] ==> |r| == |targets|
    ensures forall k :: 0 <= k < |r| ==> Nearest(values, targets[k], r[k])
  {
    if values == [] || targets == [] then []
    else seq(|targets|, k requires 0 <= k < |targets| => ClosestIn(values, targets[k], |values|))
  }

  method ArgMinDistance(values: seq<real>, t: real) returns (idx: nat)
    requires values != []
    ensures idx == ClosestIn(values, t, |values|)
  {
    idx := 0;
    var i := 1;
    while i < |values|
      invariant 1 <= i <= |values|
      invariant idx == ClosestIn(values, t, i)
    {
      if Abs(values[i] - t) < Abs(values[idx] - t) {
        idx := i;
      }
      i := i + 1;
    }
  }

  method FindClosestValues(values: seq<real>, targets: seq<real>) returns (indices: seq<nat>)
    ensures indices == ClosestIndices(values, targets)
  {
    if values == [] || targets == [] {
      return [];
    }
    indices := [];
    var k := 0;
    while k < |targets|
      invariant 0 <= k <= |targets|
      invariant |indices| == k
      invariant forall m :: 0 <= m < k ==> indices[m] == ClosestIn(values, targets[m], |values|)
    {
      var idx := ArgMinDistance(values, targets[k]);
      indices := indices + [idx];
      k := k + 1;
    }
  }

  // ----- Overpotentials --------------------------------------------------

  /** The current densities (mA cm^-2) the overpotential is read at. */
  const Targets: seq<real> := [10.0, 100.0, 200.0]

  /** The equilibrium potential of oxygen evolution, in V. */
  const EquilibriumPotential: real := 1.23

  /** The overpotential in mV of a potential in V. */
  function Overpotential(p: real): real
  {
    (p - EquilibriumPotential) * 1000.0
  }

  /** A kept file: its identifier and its transformed curve. */
  datatype Curve = Curve(fileId: string, potentials: seq<real>, currents: seq<real>)

  /** One row of the analysis table; None stands for "N/A". */
  datatype Analysis = Analysis(fileId: string, at10: Option<real>, at100: Option<real>, at200: Option<real>)

  /** The overpotential at the k-th nearest index, unless that index is
      missing or out of range (the IndexError branch). */
  function OverpotentialAt(c: Curve, ix: seq<nat>, k: nat): Option<real>
  {
    if k < |ix| && ix[k] < |c.potentials| then Some(Overpotential(c.potentials[ix[k]])) else None
  }

  function AnalyzeCurve(c: Curve): (r: Analysis)
    ensures r.fileId == c.fileId
    ensures c.currents == [] ==> r.at10.None? && r.at100.None? && r.at200.None?
  {
    if c.currents == [] then Analysis(c.fileId, None, None, None)
    else
      var ix := ClosestIndices(c.currents, Targets);
      Analysis(c.fileId, OverpotentialAt(c, ix, 0), OverpotentialAt(c, ix, 1), OverpotentialAt(c, ix, 2))
  }

  /** v is the overpotential at the first sample whose current is nearest t. */
  predicate OverpotentialNear(c: Curve, t: real, v: real)
  {
    exists i: nat :: i < |c.potentials| && Nearest(c.currents, t, i) && v == Overpotential(c.potentials[i])
  }

  predicate Complete(a: Analysis, c: Curve)
  {
    a.at10.Some? && a.at100.Some? && a.at200.Some? &&
    OverpotentialNear(c, 10.0, a.at10.value) &&
    OverpotentialNear(c, 100.0, a.at100.value) &&
    OverpotentialNear(c, 200.0, a.at200.value)
  }

  lemma OverpotentialAtNearest(c: Curve, targets: seq<real>, k: nat)
    requires |c.potentials| == |c.currents| > 0 && k < |targets|
    ensures OverpotentialAt(c, ClosestIndices(c.currents, targets), k).Some?
    ensures OverpotentialNear(c, targets[k], OverpotentialAt(c, ClosestIndices(c.currents, targets), k).value)
  {
    var ix := ClosestIndices(c.currents, targets);
    var i := ix[k];
    assert Nearest(c.currents, targets[k], i);
    assert Overpotential(c.potentials[i]) == OverpotentialAt(c, ix, k).value;
  }

  /** A curve with samples gets all three overpotentials, each at the
      nearest current to its target. */
  lemma AnalysisComplete(c: Curve)
    requires |c.potentials| == |c.currents| > 0
    ensures Complete(AnalyzeCurve(c), c)
  {
    OverpotentialAtNearest(c, Targets, 0);
    OverpotentialAtNearest(c, Targets, 1);
    OverpotentialAtNearest(c, Targets, 2);
  }

  method AnalyzeCurveData(c: Curve) returns (r: Analysis)
    ensures r == AnalyzeCurve(c)
  {
    if c.currents == [] {
      return Analysis(c.fileId, None, None, None);
    }
    var ix := FindClosestValues(c.currents, Targets);
    r := Analysis(c.fileId, OverpotentialAt(c, ix, 0), OverpotentialAt(c, ix, 1), OverpotentialAt(c, ix, 2));
  }

  // ----- The batch -------------------------------------------------------

  datatype LsvInput = LsvInput(path: string, content: Option<string>)

  /** The curve a file contributes: potentials shifted by +0.903 V and
      currents scaled by -1000; none when it has no sample. */
  function CurveOf(env: Env, input: LsvInput): (r: Option<Curve>)
    ensures r.Some? <==> input.content.Some? && Samples(env, input.content.value) != []
    ensures r.Some? ==> var s := Samples(env, input.content.value);
      r.value.fileId == FileId(input.path, input.content.value) &&
      |r.value.potentials| == |r.value.currents| == |s| &&
      forall k :: 0 <= k < |s| ==> (r.value.potentials[k] == s[k].0 + PotentialOffset &&
        r.value.currents[k] == s[k].1 * CurrentScale)
  {
    match input.content
    case None => None
    case Some(text) =>
      var s := Samples(env, text);
      if s == [] then None
      else Some(Curve(FileId(input.path, text), Shifted(PotentialsOf(s)), Scaled(SecondsOf(s))))
  }

  function CurveReader(env: Env): LsvInput -> Option<Curve>
  {
    input => CurveOf(env, input)
  }

  /** What process_lsv_files produces: the curves, the analysis rows and the
      first column of the analysis block. */
  datatype LsvReport = LsvReport(curves: seq<Curve>, analysis: seq<Analysis>, analysisCol: nat)

  function Analyzer(): Curve -> Analysis
  {
    c => AnalyzeCurve(c)
  }

  /** The analysis rows of the curves, one per curve, in order. */
  function Analyses(curves: seq<Curve>): (r: seq<Analysis>)
    ensures |r| == |curves| && forall k :: 0 <= k < |curves| ==> r[k] == AnalyzeCurve(curves[k])
  {
    Map(Analyzer(), curves)
  }

  /** Each curve takes two columns from column 1; one empty column follows
      before the analysis block. */
  function AnalysisColumn(n: nat): nat
  {
    1 + 2 * n + 1
  }

  /** Summary of a batch of curves; none when no file gave a curve. */
  function Report(curves: seq<Curve>): (r: Option<LsvReport>)
    ensures r.None? <==> curves == []
    ensures r.Some? ==> (r.value.curves == curves && r.value.analysis == Analyses(curves)
      && r.value.analysisCol == AnalysisColumn(|curves|))
  {
    if curves == [] then None else Some(LsvReport(curves, Analyses(curves), AnalysisColumn(|curves|)))
  }

  function LsvReportOf(env: Env, inputs: seq<LsvInput>): Option<LsvReport>
  {
    Report(Collect(CurveReader(env), inputs))
  }

  /** Every kept curve has as many potentials as currents, and at least one. */
  lemma CurvesWellFormed(env: Env, inputs: seq<LsvInput>)
    ensures forall c :: c in Collect(CurveReader(env), inputs) ==> |c.potentials| == |c.currents| > 0
  {
    forall c | c in Collect(CurveReader(env), inputs)
      ensures |c.potentials| == |c.currents| > 0
    {
      CollectMembers(CurveReader(env), inputs, c);
      var j :| 0 <= j < |inputs| && CurveReader(env)(inputs[j]) == Some(c);
      assert CurveOf(env, inputs[j]) == Some(c);
    }
  }

  /** One analysis row per kept file, in input order, each with all three
      overpotentials: "N/A" never reaches the table. */
  lemma AnalysisRowsComplete(env: Env, inputs: seq<LsvInput>)
    ensures var r := LsvReportOf(env, inputs);
      r.Some? ==> (|r.value.analysis| == |r.value.curves| &&
        forall k :: 0 <= k < |r.value.curves| ==> (r.value.analysis[k].fileId == r.value.curves[k].fileId &&
          Complete(r.value.analysis[k], r.value.curves[k])))
  {
    var curves := Collect(CurveReader(env), inputs);
    CurvesWellFormed(env, inputs);
    forall k | 0 <= k < |curves|
      ensures Complete(AnalyzeCurve(curves[k]), curves[k])
    {
      assert curves[k] in curves;
      AnalysisComplete(curves[k]);
    }
  }

  method ProcessLsvFile(env: Env, input: LsvInput) returns (curve: Option<Curve>)
    ensures curve == CurveOf(env, input)
  {
    var potentials, currents, fileId := ExtractLsvData(env, input.path, input.content);
    if potentials == [] || currents == [] {
      return None;
    }
    var s := Samples(env, input.content.value);
    assert potentials == PotentialsOf(s) && currents == SecondsOf(s);
    curve := Some(Curve(fileId.value, Shifted(potentials), Scaled(currents)));
  }

  method CollectCurves(env: Env, inputs: seq<LsvInput>) returns (curves: seq<Curve>)
    ensures curves == Collect(CurveReader(env), inputs)
  {
    curves := [];
    var i := 0;
    while i < |inputs|
      invariant 0 <= i <= |inputs|
      invariant curves == Collect(CurveReader(env), inputs[..i])
    {
      var curve := ProcessLsvFile(env, inputs[i]);
      curves := CollectStep(CurveReader(env), inputs, i, curves, curve);
      i := i + 1;
    }
    assert inputs[..i] == inputs;
  }

  /** process_lsv_files: the curve loop, then the analysis loop that
      advances two columns per curve. */
  method ProcessLsvFiles(env: Env, inputs: seq<LsvInput>) returns (report: Option<LsvReport>)
    ensures report == LsvReportOf(env, inputs)
  {
    var curves := CollectCurves(env, inputs);
    report := ReportCurves(curves);
  }

  method ReportCurves(curves: seq<Curve>) returns (report: Option<LsvReport>)
    ensures report == Report(curves)
  {
    if curves == [] {
      return None;
    }
    var analysis, col := AnalyzeCurves(curves);
    report := Some(LsvReport(curves, analysis, col + 1));
  }

  /** The analysis loop: one row per curve, two columns per curve. */
  method AnalyzeCurves(curves: seq<Curve>) returns (analysis: seq<Analysis>, col: nat)
    ensures analysis == Analyses(curves)
    ensures col == 1 + 2 * |curves|
  {
    analysis := [];
    col := 1;
    var k := 0;
    while k < |curves|
      invariant 0 <= k <= |curves|
      invariant col == 1 + 2 * k
      invariant analysis == Map(Analyzer(), curves[..k])
    {
      var row := AnalyzeCurveData(curves[k]);
      analysis := MapStep(Analyzer(), curves, k, analysis, row);
      col := col + 2;
      k := k + 1;
    }
    assert curves[..k] == curves;
  }

  // ----- Column widths ---------------------------------------------------

  const NarrowWidth: nat := 5
  const WideWidth: nat := 18

  /** The widths of the LSV sheet for n curves: every column up to the end
      of the four-column analysis block is wide, except the separator
      column between the curves and the analysis. */
  function LsvWidth(n: nat, col: nat): nat
  {
    if col == 1 + 2 * n then NarrowWidth else WideWidth
  }

  method LsvColumnWidths(n: nat) returns (widths: map<nat, nat>)
    ensures forall col :: col in widths <==> 1 <= col <= AnalysisColumn(n) + 3
    ensures forall col :: col in widths ==> widths[col] == LsvWidth(n, col)
  {
    var separator := 1 + 2 * n;
    var last := separator + 1 + 3;
    widths := map[];
    var col := 1;
    while col <= last
      invariant 1 <= col <= last + 1
      invariant forall c :: c in widths <==> 1 <= c < col
      invariant forall c :: c in widths ==> widths[c] == LsvWidth(n, c)
    {
      widths := widths[col := if col == separator then NarrowWidth else WideWidth];
      col := col + 1;
    }
  }

  /** The only narrow column is the one just before the analysis block, and
      it lies after both columns of every curve. */
  lemma SeparatorColumn(n: nat, col: nat)
    ensures LsvWidth(n, col) == NarrowWidth <==> col == AnalysisColumn(n) - 1
    ensures forall k :: 0 <= k < n ==> 1 + 2 * k + 1 < AnalysisColumn(n) - 1
  {
  }

  // ----- Finding LSV files -----------------------------------------------

  const LsvExclusions: seq<string> := [
    "Cyclic Voltammetry", "A.C. Impedance", "CV", "Chronoamperometry",
    "Open Circuit", "EIS", "Tafel"
  ]

  /** find_lsv_files' test: the header names the technique and none of the
      seven exclusions; an unreadable file does not count. */
  function IsLsvCandidate(content: Option<string>): (b: bool)
    ensures b <==> (content.Some? &&
      (exists k :: 0 <= k < |LsvKeywords| && Contains(Header(content.value), LsvKeywords[k])) &&
      !(exists k :: 0 <= k < |LsvExclusions| && Contains(Header(content.value), LsvExclusions[k])))
  {
    match content
    case None => false
    case Some(s) =>
      ContainsAnyMeaning(Header(s), LsvKeywords);
      ContainsAnyMeaning(Header(s), LsvExclusions);
      ContainsAny(Header(s), LsvKeywords) && !ContainsAny(Header(s), LsvExclusions)
  }

  /** The search is stricter than the shared predicate: a header that
      mentions "CV" anywhere is never an LSV candidate. */
  lemma LsvCandidateStricter(content: Option<string>)
    ensures IsLsvCandidate(content) ==> IsLsvFile(content)
    ensures content.Some? && Contains(Header(content.value), "CV") ==> !IsLsvCandidate(content)
  {
    if content.Some? && Contains(Header(content.value), "CV") {
      assert LsvExclusions[2] == "CV";
    }
  }

  /** find_lsv_files: the `.txt` entries that pass the test, in listing order. */
  function LsvFiles(folder: string, listing: seq<Entry>): seq<string>
  {
    Selected(IsLsvCandidate, folder, TxtEntries(listing))
  }

  lemma LsvFilesMembers(folder: string, listing: seq<Entry>, p: string)
    ensures p in LsvFiles(folder, listing) <==>
      exists e :: e in listing && IsTxt(e.name) && IsLsvCandidate(e.content) && p == PathJoin(folder, e.name)
  {
    SelectedFromListing(IsLsvCandidate, folder, listing, p);
  }

  method FindLsvFiles(folder: string, listing: seq<Entry>) returns (files: seq<string>)
    ensures files == LsvFiles(folder, listing)
  {
    files := SelectPaths(IsLsvCandidate, folder, TxtEntries(listing));
  }
}
