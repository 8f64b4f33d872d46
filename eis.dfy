/**
  Impedance spectra: the header-gated reader of (frequency, Z', Z'')
  triples, the line selection of the ZView export, the solution
  resistance read off the -Z'' sign change, and the batch that ties them
  together, plus the keyword test that finds impedance files.
  A file's text is given as its lines (None when it cannot be read).
 */
module Eis {
  import opened Common
  import opened Text
  import opened FileUtils

  // ----- Reading the spectrum --------------------------------------------

  type Triple = (real, real, real)

  /** The column header that opens the data block. */
  const EisHeader: string := "Freq/Hz, Z'/ohm, Z\"/ohm"

  /** The number of comma-separated fields of a line. */
  function FieldCount(t: string): nat
  {
    |Split(t, ',')|
  }

  /** float() of the first three comma-separated fields, when there are at
      least three and all of them parse. */
  function ParseTriple(env: Env, t: string): (r: Option<Triple>)
    ensures r.Some? ==> FieldCount(t) >= 3
  {
    var parts := Split(t, ',');
    if |parts| < 3 then None
    else match (env.parseFloat(Strip(parts[0])), env.parseFloat(Strip(parts[1])), env.parseFloat(Strip(parts[2])))
      case (Some(f), Some(zr), Some(zi)) => Some((f, zr, zi))
      case _ => None
  }

  /** Blank lines and `//` comments, skipped everywhere. */
  predicate EisSkippable(t: string)
  {
    t == "" || StartsWith(t, "//")
  }

  /** A line that sets the data flag. */
  predicate IsEisHeaderLine(line: string)
  {
    var t := Strip(line);
    !EisSkippable(t) && Contains(t, EisHeader)
  }

  /** What extract_eis_data makes of one line: skipped, the header, or a
      data line with its triple when it parses. */
  datatype EisLine = EisSkip | EisHeaderLine | EisData(sample: Option<Triple>)

  function ClassifyEisLine(env: Env, line: string): (r: EisLine)
    ensures r == EisSkip <==> EisSkippable(Strip(line))
    ensures r == EisHeaderLine <==> IsEisHeaderLine(line)
    ensures r.EisData? ==> r.sample == ParseTriple(env, Strip(line))
  {
    var t := Strip(line);
    if EisSkippable(t) then EisSkip
    else if Contains(t, EisHeader) then EisHeaderLine
    else EisData(ParseTriple(env, t))
  }

  function EisStep(env: Env): string -> EisLine
  {
    line => ClassifyEisLine(env, line)
  }

  /** The state machine of extract_eis_data from line i on; `started` is
      the data flag. A data line that does not parse is skipped. */
  function EisFrom(step: string -> EisLine, lines: seq<string>, i: nat, started: bool): seq<Triple>
    requires i <= |lines|
    decreases |lines| - i
  {
    if i == |lines| then []
    else match step(lines[i])
      case EisSkip => EisFrom(step, lines, i + 1, started)
      case EisHeaderLine => EisFrom(step, lines, i + 1, true)
      case EisData(x) => (if started && x.Some? then [x.value] else []) + EisFrom(step, lines, i + 1, started)
  }

  /** The samples of a file; a file that cannot be read has none. */
  function EisSamples(env: Env, file: Option<seq<string>>): seq<Triple>
  {
    match file
    case None => []
    case Some(lines) => EisFrom(EisStep(env), lines, 0, false)
  }

  lemma {:induction false} EisFromNoHeader(step: string -> EisLine, lines: seq<string>, i: nat)
    requires i <= |lines|
    requires forall k :: i <= k < |lines| ==> step(lines[k]) != EisHeaderLine
    ensures EisFrom(step, lines, i, false) == []
    decreases |lines| - i
  {
    if i < |lines| {
      EisFromNoHeader(step, lines, i + 1);
    }
  }

  /** Without a header line nothing is read. */
  lemma EisNoHeader(env: Env, lines: seq<string>)
    requires forall k :: 0 <= k < |lines| ==> !IsEisHeaderLine(lines[k])
    ensures EisSamples(env, Some(lines)) == []
  {
    EisFromNoHeader(EisStep(env), lines, 0);
  }

  lemma {:induction false} EisFromAfterHeader(step: string -> EisLine, lines: seq<string>, i: nat, h: nat)
    requires i <= h < |lines| && step(lines[h]) == EisHeaderLine
    requires forall k :: i <= k < h ==> step(lines[k]) != EisHeaderLine
    ensures EisFrom(step, lines, i, false) == EisFrom(step, lines, h + 1, true)
    decreases h - i
  {
    if i < h {
      EisFromAfterHeader(step, lines, i + 1, h);
    }
  }

  /** What a line yields once the flag is set. */
  function DataOf(step: string -> EisLine): string -> Option<Triple>
  {
    line => match step(line) case EisData(x) => x case _ => None
  }

  lemma {:induction false} EisFromStarted(step: string -> EisLine, lines: seq<string>, i: nat)
    requires i <= |lines|
    ensures EisFrom(step, lines, i, true) == Collect(DataOf(step), lines[i..])
    decreases |lines| - i
  {
    if i < |lines| {
      EisFromStarted(step, lines, i + 1);
      assert lines[i..][1..] == lines[i + 1..];
      assert lines[i..][0] == lines[i];
    }
  }

  /** Lines up to and including the first header line contribute nothing;
      after it every line is read on its own, a line that does not parse is
      skipped and the scan goes on. */
  lemma EisAfterHeader(env: Env, lines: seq<string>, h: nat)
    requires h < |lines| && IsEisHeaderLine(lines[h])
    requires forall k :: 0 <= k < h ==> !IsEisHeaderLine(lines[k])
    ensures EisSamples(env, Some(lines)) == Collect(DataOf(EisStep(env)), lines[h + 1..])
  {
    var step := EisStep(env);
    forall k | 0 <= k < h
      ensures step(lines[k]) != EisHeaderLine
    {
      StepHeader(env, lines[k]);
    }
    StepHeader(env, lines[h]);
    EisFromAfterHeader(step, lines, 0, h);
    EisFromStarted(step, lines, h + 1);
  }

  lemma StepHeader(env: Env, line: string)
    ensures EisStep(env)(line) == EisHeaderLine <==> IsEisHeaderLine(line)
  {
    assert EisStep(env)(line) == ClassifyEisLine(env, line);
  }

  /** The loop of extract_eis_data with its data flag. */
  method ScanEis(step: string -> EisLine, lines: seq<string>)
    returns (freqs: seq<real>, zReal: seq<real>, zImag: seq<real>)
    ensures |freqs| == |zReal| == |zImag| == |EisFrom(step, lines, 0, false)|
    ensures forall k :: 0 <= k < |freqs| ==> (freqs[k], zReal[k], zImag[k]) == EisFrom(step, lines, 0, false)[k]
  {
    freqs, zReal, zImag := [], [], [];
    ghost var acc: seq<Triple> := [];
    var started := false;
    var i := 0;
    while i < |lines|
      invariant 0 <= i <= |lines|
      invariant acc + EisFrom(step, lines, i, started) == EisFrom(step, lines, 0, false)
      invariant |freqs| == |zReal| == |zImag| == |acc|
      invariant forall k :: 0 <= k < |acc| ==> (freqs[k], zReal[k], zImag[k]) == acc[k]
    {
      match step(lines[i]) {
        case EisSkip =>
        case EisHeaderLine =>
          started := true;
        case EisData(x) =>
          if started && x.Some? {
            freqs, zReal, zImag := freqs + [x.value.0], zReal + [x.value.1], zImag + [x.value.2];
            acc := acc + [x.value];
          }
      }
      i := i + 1;
    }
  }

  /** extract_eis_data: three equal-length lists; empty when the file cannot
      be read. */
  method ExtractEisData(env: Env, file: Option<seq<string>>)
    returns (freqs: seq<real>, zReal: seq<real>, zImag: seq<real>)
    ensures |freqs| == |zReal| == |zImag| == |EisSamples(env, file)|
    ensures forall k :: 0 <= k < |freqs| ==> (freqs[k], zReal[k], zImag[k]) == EisSamples(env, file)[k]
  {
    match file
    case None =>
      freqs, zReal, zImag := [], [], [];
    case Some(lines) =>
      freqs, zReal, zImag := ScanEis(EisStep(env), lines);
  }

  // ----- The ZView export ------------------------------------------------

  /** The header spellings that open the data block of the export. */
  const ZViewHeaders: seq<string> := [
    "Freq/Hz, Z'/ohm, Z\"/ohm",
    "Frequency/Hz,Z'/ohm,Z\"/ohm",
    "Freq,Z',Z\"",
    "Frequency,Zreal,Zimag",
    "f/Hz,Z'/Ω,Z\"/Ω"
  ]

  predicate IsZViewHeaderLine(line: string)
  {
    exists j :: 0 <= j < |ZViewHeaders| && Contains(Strip(line), ZViewHeaders[j])
  }

  function ZViewHeaderTest(): string -> bool
  {
    line => IsZViewHeaderLine(line)
  }

  /** The first line from i on that passes the test. */
  function FirstWhere(test: string -> bool, lines: seq<string>, i: nat): (r: Option<nat>)
    requires i <= |lines|
    ensures r.Some? ==> i <= r.value < |lines| && test(lines[r.value])
    ensures r.Some? ==> forall k :: i <= k < r.value ==> !test(lines[k])
    ensures r.None? ==> forall k :: i <= k < |lines| ==> !test(lines[k])
    decreases |lines| - i
  {
    if i == |lines| then None
    else if test(lines[i]) then Some(i)
    else FirstWhere(test, lines, i + 1)
  }

  /** Blank lines, `//` and `#` comments, skipped in the data block. */
  predicate ZViewSkippable(t: string)
  {
    t == "" || StartsWith(t, "//") || StartsWith(t, "#")
  }

  /** What generate_zview_file makes of a line after the header: skipped
      (blank, comment, fewer than three fields), kept as its stripped text
      (three fields that parse), or the end of the data block. */
  datatype ZLine = ZSkip | ZKeep(text: string) | ZStop

  function ClassifyZLine(env: Env, line: string): (r: ZLine)
    ensures r.ZKeep? ==> (r.text == Strip(line) && !ZViewSkippable(r.text) && FieldCount(r.text) >= 3
      && ParseTriple(env, r.text).Some?)
    ensures r == ZStop <==> (var t := Strip(line); !ZViewSkippable(t) && FieldCount(t) >= 3 && ParseTriple(env, t).None?)
  {
    var t := Strip(line);
    if ZViewSkippable(t) || FieldCount(t) < 3 then ZSkip
    else if ParseTriple(env, t).Some? then ZKeep(t)
    else ZStop
  }

  function ZStep(env: Env): string -> ZLine
  {
    line => ClassifyZLine(env, line)
  }

  /** The lines kept from line i on, up to the first stop line. */
  function ZViewFrom(step: string -> ZLine, lines: seq<string>, i: nat): seq<string>
    requires i <= |lines|
    decreases |lines| - i
  {
    if i == |lines| then []
    else match step(lines[i])
      case ZSkip => ZViewFrom(step, lines, i + 1)
      case ZKeep(t) => [t] + ZViewFrom(step, lines, i + 1)
      case ZStop => []
  }

  /** The lines kept: those after the first header line. */
  function ZViewLines(isHeader: string -> bool, step: string -> ZLine, lines: seq<string>): seq<string>
  {
    match FirstWhere(isHeader, lines, 0)
    case None => []
    case Some(h) => ZViewFrom(step, lines, h + 1)
  }

  /** The export's text: each kept line followed by a newline. */
  function ZViewText(kept: seq<string>): string
  {
    if kept == [] then "" else kept[0] + "\n" + ZViewText(kept[1..])
  }

  /** Splitting the export on newlines gives back the kept lines, followed
      by the empty piece after the final newline. */
  lemma {:induction false} ZViewTextSplit(kept: seq<string>)
    requires forall k :: 0 <= k < |kept| ==> '\n' !in kept[k]
    ensures Split(ZViewText(kept), '\n') == kept + [""]
    decreases |kept|
  {
    if kept == [] {
      assert FindChar("", '\n').None?;
    } else {
      assert forall k :: 0 <= k < |kept[1..]| ==> kept[1..][k] == kept[k + 1];
      ZViewTextSplit(kept[1..]);
      SplitLine(kept[0], kept[1..], ZViewText(kept[1..]));
      assert kept == [kept[0]] + kept[1..];
    }
  }

  /** One step of ZViewTextSplit: a newline-free line and its newline in
      front of text that splits into tail + [""]. */
  lemma SplitLine(head: string, tail: seq<string>, rest: string)
    requires '\n' !in head && Split(rest, '\n') == tail + [""]
    ensures Split(head + "\n" + rest, '\n') == [head] + tail + [""]
  {
    SplitAtFirst(head, '\n', rest);
  }

  /** The export written for a file, if any: none when the file cannot be
      read, has no header line or keeps no line. */
  function ZViewFile(env: Env, file: Option<seq<string>>): (r: Option<string>)
    ensures r.Some? <==> file.Some? && ZViewLines(ZViewHeaderTest(), ZStep(env), file.value) != []
    ensures file.Some? && (forall k :: 0 <= k < |file.value| ==> !IsZViewHeaderLine(file.value[k])) ==> r.None?
  {
    match file
    case None => None
    case Some(lines) =>
      var kept := ZViewLines(ZViewHeaderTest(), ZStep(env), lines);
      var h := FirstWhere(ZViewHeaderTest(), lines, 0);
      assert h.Some? ==> IsZViewHeaderLine(lines[h.value]);
      if kept == [] then None else Some(ZViewText(kept))
  }

  lemma {:induction false} ZViewFromStops(step: string -> ZLine, lines: seq<string>, i: nat, k: nat)
    requires i <= k < |lines| && step(lines[k]) == ZStop
    ensures ZViewFrom(step, lines, i) == ZViewFrom(step, lines[..k], i)
    decreases k - i
  {
    var pre := lines[..k];
    assert |pre| == k;
    if i < k {
      ZViewFromStops(step, lines, i + 1, k);
      assert pre[i] == lines[i];
      match step(lines[i])
      case ZSkip =>
      case ZKeep(t) =>
      case ZStop =>
    }
  }

  /** Nothing at or after a line with three fields that do not parse is
      exported. */
  lemma ZViewStops(env: Env, lines: seq<string>, i: nat, k: nat)
    requires i <= k < |lines|
    requires var t := Strip(lines[k]); !ZViewSkippable(t) && FieldCount(t) >= 3 && ParseTriple(env, t).None?
    ensures ZViewFrom(ZStep(env), lines, i) == ZViewFrom(ZStep(env), lines[..k], i)
  {
    ZViewFromStops(ZStep(env), lines, i, k);
  }

  lemma {:induction false} ZViewFromKept(step: string -> ZLine, lines: seq<string>, i: nat, x: string)
    requires i <= |lines| && x in ZViewFrom(step, lines, i)
    ensures exists k :: i <= k < |lines| && step(lines[k]) == ZKeep(x)
    decreases |lines| - i
  {
    if step(lines[i]) != ZKeep(x) {
      ZViewFromKept(step, lines, i + 1, x);
    }
  }

  /** Every exported line is a stripped input line, verbatim, with three
      fields that parse. */
  lemma ZViewVerbatim(env: Env, lines: seq<string>, i: nat, x: string)
    requires i <= |lines| && x in ZViewFrom(ZStep(env), lines, i)
    ensures exists k :: (i <= k < |lines| && x == Strip(lines[k]) && !ZViewSkippable(x)
      && FieldCount(x) >= 3 && ParseTriple(env, x).Some?)
  {
    ZViewFromKept(ZStep(env), lines, i, x);
    var k :| i <= k < |lines| && ZStep(env)(lines[k]) == ZKeep(x);
    assert ClassifyZLine(env, lines[k]) == ZKeep(x);
  }

  /** The loop of generate_zview_file: header search, then collection that
      stops at the first stop line. */
  method SelectZViewLines(isHeader: string -> bool, step: string -> ZLine, lines: seq<string>)
    returns (kept: seq<string>)
    ensures kept == ZViewLines(isHeader, step, lines)
  {
    kept := [];
    var identified := false;
    ghost var h := 0;
    var i := 0;
    while i < |lines|
      invariant 0 <= i <= |lines|
      invariant !identified ==> kept == [] && FirstWhere(isHeader, lines, 0) == FirstWhere(isHeader, lines, i)
      invariant identified ==> (h < i && FirstWhere(isHeader, lines, 0) == Some(h)
        && kept + ZViewFrom(step, lines, i) == ZViewFrom(step, lines, h + 1))
    {
      if !identified {
        if isHeader(lines[i]) {
          identified := true;
          h := i;
        }
        i := i + 1;
        continue;
      }
      match step(lines[i]) {
        case ZSkip =>
        case ZKeep(t) =>
          kept := kept + [t];
        case ZStop =>
          break;
      }
      i := i + 1;
    }
  }

  /** generate_zview_file: the text written, if a file is written. */
  method GenerateZViewFile(env: Env, file: Option<seq<string>>) returns (text: Option<string>)
    ensures text == ZViewFile(env, file)
  {
    if file.None? {
      return None;
    }
    var kept := SelectZViewLines(ZViewHeaderTest(), ZStep(env), file.value);
    if kept == [] {
      return None;
    }
    text := Some(ZViewText(kept));
  }

  // ----- Solution resistance ---------------------------------------------

  /** -Z'' changes sign between i and i + 1: from positive to non-positive,
      or from negative to non-negative. A zero at i never counts. */
  predicate Crosses(v: seq<real>, i: int)
    requires 0 <= i && i + 1 < |v|
  {
    (v[i] > 0.0 && v[i + 1] <= 0.0) || (v[i] < 0.0 && v[i + 1] >= 0.0)
  }

  function FirstCrossFrom(v: seq<real>, i: nat): (r: Option<nat>)
    ensures r.Some? ==> i <= r.value && r.value + 1 < |v| && Crosses(v, r.value)
    ensures r.Some? ==> forall j :: i <= j < r.value ==> !Crosses(v, j)
    ensures r.None? ==> forall j :: i <= j && j + 1 < |v| ==> !Crosses(v, j)
    decreases |v| - i
  {
    if i + 1 >= |v| then None
    else if Crosses(v, i) then Some(i)
    else FirstCrossFrom(v, i + 1)
  }

  /** The first index of the smallest strictly positive value among the
      first n (a running minimum with strict improvement). */
  function MinPositiveIn(v: seq<real>, n: nat): (r: Option<nat>)
    requires n <= |v|
    ensures r.Some? ==> r.value < n && v[r.value] > 0.0
    ensures r.Some? ==> forall j :: 0 <= j < n && v[j] > 0.0 ==> v[r.value] <= v[j]
    ensures r.Some? ==> forall j :: 0 <= j < r.value && v[j] > 0.0 ==> v[r.value] < v[j]
    ensures r.None? <==> forall j :: 0 <= j < n ==> v[j] <= 0.0
  {
    if n == 0 then None
    else
      var b := MinPositiveIn(v, n - 1);
      if v[n - 1] > 0.0 && (b.None? || v[n - 1] < v[b.value]) then Some(n - 1) else b
  }

  /** The first index of the largest non-positive value among the first n. */
  function MaxNonPositiveIn(v: seq<real>, n: nat): (r: Option<nat>)
    requires n <= |v|
    ensures r.Some? ==> r.value < n && v[r.value] <= 0.0
    ensures r.Some? ==> forall j :: 0 <= j < n && v[j] <= 0.0 ==> v[j] <= v[r.value]
    ensures r.Some? ==> forall j :: 0 <= j < r.value && v[j] <= 0.0 ==> v[j] < v[r.value]
    ensures r.None? <==> forall j :: 0 <= j < n ==> v[j] > 0.0
  {
    if n == 0 then None
    else
      var b := MaxNonPositiveIn(v, n - 1);
      if v[n - 1] <= 0.0 && (b.None? || v[n - 1] > v[b.value]) then Some(n - 1) else b
  }

  /** A fallback index paired with its successor, or its predecessor when it
      is last, or alone when it is the only point. */
  function PairAround(k: nat, n: nat): (r: seq<nat>)
    requires k < n
    ensures 1 <= |r| <= 2 && forall j :: 0 <= j < |r| ==> r[j] < n
    ensures |r| == 1 <==> n == 1
    ensures k in r
  {
    if k + 1 < n then [k, k + 1] else if k > 0 then [k - 1, k] else [k]
  }

  /** The points Rs is read from. */
  function CrossoverIndices(v: seq<real>): (r: seq<nat>)
    ensures forall j :: 0 <= j < |r| ==> r[j] < |v|
    ensures |r| <= 2
  {
    match FirstCrossFrom(v, 0)
    case Some(i) => [i, i + 1]
    case None =>
      match MinPositiveIn(v, |v|)
      case Some(k) => PairAround(k, |v|)
      case None =>
        match MaxNonPositiveIn(v, |v|)
        case Some(k) => PairAround(k, |v|)
        case None => []
  }

  /** Rs: the mean Z' of the two points, or the Z' of the single point. */
  function SolutionResistance(zp: seq<real>, v: seq<real>): (r: Option<real>)
    requires |zp| == |v|
  {
    var ix := CrossoverIndices(v);
    if |ix| == 2 then Some((zp[ix[0]] + zp[ix[1]]) / 2.0)
    else if |ix| == 1 then Some(zp[ix[0]])
    else None
  }

  /** A non-empty spectrum always has an Rs, and it lies between the
      smallest and the largest Z'. */
  lemma SolutionResistanceBounds(zp: seq<real>, v: seq<real>)
    requires |zp| == |v| > 0
    ensures SolutionResistance(zp, v).Some?
    ensures SeqMin(zp) <= SolutionResistance(zp, v).value <= SeqMax(zp)
  {
    var ix := CrossoverIndices(v);
    if FirstCrossFrom(v, 0).None? && MinPositiveIn(v, |v|).None? {
      assert v[0] <= 0.0;
      assert MaxNonPositiveIn(v, |v|).Some?;
    }
    assert |ix| >= 1;
  }

  /** When there are several points, Rs always averages two of them. */
  lemma TwoPointsAveraged(zp: seq<real>, v: seq<real>)
    requires |zp| == |v| >= 2
    ensures |CrossoverIndices(v)| == 2
    ensures var ix := CrossoverIndices(v);
      ix[1] == ix[0] + 1 && SolutionResistance(zp, v) == Some((zp[ix[0]] + zp[ix[1]]) / 2.0)
  {
    if FirstCrossFrom(v, 0).None? && MinPositiveIn(v, |v|).None? {
      assert v[0] <= 0.0;
      assert MaxNonPositiveIn(v, |v|).Some?;
    }
  }

  /** Z' = [10, 12, 14] with -Z'' = [2, -1, -3] crosses between the first
      two points, so Rs = 11. */
  lemma CrossoverExample()
    ensures SolutionResistance([10.0, 12.0, 14.0], [2.0, -1.0, -3.0]) == Some(11.0)
  {
    var v := [2.0, -1.0, -3.0];
    assert Crosses(v, 0);
    assert FirstCrossFrom(v, 0) == Some(0);
  }

  /** The crossover search of process_eis_files, with its break and its
      running minimum and maximum. */
  method FindSolutionResistance(zp: seq<real>, v: seq<real>) returns (rs: Option<real>)
    requires |zp| == |v|
    ensures rs == SolutionResistance(zp, v)
  {
    var ix: seq<nat> := [];
    var i := 0;
    var crossed := false;
    while i + 1 < |v|
      invariant 0 <= i && (|v| > 0 ==> i < |v|)
      invariant FirstCrossFrom(v, 0) == FirstCrossFrom(v, i)
    {
      if Crosses(v, i) {
        crossed := true;
        break;
      }
      i := i + 1;
    }
    if crossed {
      assert FirstCrossFrom(v, 0) == Some(i);
      ix := [i, i + 1];
    } else if |v| > 0 {
      assert FirstCrossFrom(v, 0).None?;
      var minIdx := ScanMinPositive(v);
      if minIdx.Some? {
        ix := PairAround(minIdx.value, |zp|);
      } else {
        var maxIdx := ScanMaxNonPositive(v);
        if maxIdx.Some? {
          ix := PairAround(maxIdx.value, |zp|);
        }
      }
    }
    assert ix == CrossoverIndices(v);
    if |ix| == 2 {
      rs := Some((zp[ix[0]] + zp[ix[1]]) / 2.0);
    } else if |ix| == 1 {
      rs := Some(zp[ix[0]]);
    } else {
      rs := None;
    }
  }

  method ScanMinPositive(v: seq<real>) returns (best: Option<nat>)
    ensures best == MinPositiveIn(v, |v|)
  {
    best := None;
    var i := 0;
    while i < |v|
      invariant 0 <= i <= |v|
      invariant best == MinPositiveIn(v, i)
    {
      if v[i] > 0.0 && (best.None? || v[i] < v[best.value]) {
        best := Some(i);
      }
      i := i + 1;
    }
  }

  method ScanMaxNonPositive(v: seq<real>) returns (best: Option<nat>)
    ensures best == MaxNonPositiveIn(v, |v|)
  {
    best := None;
    var i := 0;
    while i < |v|
      invariant 0 <= i <= |v|
      invariant best == MaxNonPositiveIn(v, i)
    {
      if v[i] <= 0.0 && (best.None? || v[i] > v[best.value]) {
        best := Some(i);
      }
      i := i + 1;
    }
  }

  // ----- The batch -------------------------------------------------------

  /** -Z'' from Z''. */
  function Negated(s: seq<real>): (r: seq<real>)
    ensures |r| == |s| && forall k :: 0 <= k < |s| ==> r[k] == -s[k]
  {
    seq(|s|, k requires 0 <= k < |s| => -s[k])
  }

  lemma NegatedInvolution(s: seq<real>)
    ensures Negated(Negated(s)) == s
  {
  }

  /** One file of the batch: its path and its lines. */
  datatype EisInput = EisInput(path: string, file: Option<seq<string>>)

  /** A spectrum kept for the report: Z' and -Z'' side by side. */
  datatype Spectrum = Spectrum(fileId: string, zPrime: seq<real>, minusZ: seq<real>)

  /** The spectrum a file contributes; none when it has no sample. */
  function SpectrumOf(env: Env, input: EisInput): (r: Option<Spectrum>)
    ensures r.Some? <==> EisSamples(env, input.file) != []
    ensures r.Some? ==> var s := EisSamples(env, input.file);
      r.value.fileId == Stem(input.path) && |r.value.zPrime| == |r.value.minusZ| == |s| &&
      forall k :: 0 <= k < |s| ==> r.value.zPrime[k] == s[k].1 && r.value.minusZ[k] == -s[k].2
  {
    var s := EisSamples(env, input.file);
    if s == [] then None
    else
      Some(Spectrum(Stem(input.path),
        seq(|s|, k requires 0 <= k < |s| => s[k].1),
        Negated(seq(|s|, k requires 0 <= k < |s| => s[k].2))))
  }

  function SpectrumReader(env: Env): EisInput -> Option<Spectrum>
  {
    input => SpectrumOf(env, input)
  }

  const ZViewSuffix: string := "-for ZView.txt"

  /** The name of a file's export: `<stem>-for ZView.txt` in the folder. */
  function ZViewPath(folder: string, path: string): string
  {
    PathJoin(folder, Stem(path) + ZViewSuffix)
  }

  /** The export lies in the folder and its file name is the input's stem
      followed by `-for ZView.txt`. */
  lemma ZViewPathName(folder: string, path: string)
    ensures LastComponent(ZViewPath(folder, path)) == Stem(path) + ZViewSuffix
    ensures ZViewPath(folder, path)[..|folder|] == folder
  {
    StemSepFree(path);
    SuffixSepFree();
    SepFreeConcat(Stem(path), ZViewSuffix);
    JoinLastComponent(folder, Stem(path) + ZViewSuffix);
  }

  lemma SuffixSepFree()
    ensures SepFree(ZViewSuffix)
  {
  }

  function ZViewOutput(env: Env, folder: string, input: EisInput): Option<(string, string)>
  {
    match ZViewFile(env, input.file)
    case None => None
    case Some(text) => Some((ZViewPath(folder, input.path), text))
  }

  function ZViewWriter(env: Env, folder: string): EisInput -> Option<(string, string)>
  {
    input => ZViewOutput(env, folder, input)
  }

  /** The (file id, Rs) entry of a spectrum that has an Rs. */
  function RsEntry(s: Spectrum): (r: Option<(string, real)>)
  {
    if |s.zPrime| != |s.minusZ| then None
    else match SolutionResistance(s.zPrime, s.minusZ)
      case None => None
      case Some(rs) => Some((s.fileId, rs))
  }

  /** What process_eis_files produces: the exports written, the spectra of
      the report and the returned (file id, Rs) list. With no input path, or
      when no file yields data, the program returns the workbook alone and
      there is no Rs list (None). */
  datatype EisReport = EisReport(zviews: seq<(string, string)>, spectra: seq<Spectrum>, rs: Option<seq<(string, real)>>)

  function EisReportOf(env: Env, folder: string, inputs: seq<EisInput>): (r: EisReport)
    ensures inputs == [] ==> r.zviews == [] && r.spectra == [] && r.rs.None?
    ensures r.rs.None? <==> r.spectra == []
  {
    var spectra := Collect(SpectrumReader(env), inputs);
    var zviews := Collect(ZViewWriter(env, folder), inputs);
    if spectra == [] then EisReport(zviews, [], None)
    else EisReport(zviews, spectra, Some(Collect(RsEntry, spectra)))
  }

  /** A spectrum as the batch keeps it: as many Z' as -Z'' values, and at
      least one of each. */
  predicate WellFormed(s: Spectrum)
  {
    |s.zPrime| == |s.minusZ| > 0
  }

  lemma SpectraWellFormed(env: Env, inputs: seq<EisInput>)
    ensures forall s :: s in Collect(SpectrumReader(env), inputs) ==> WellFormed(s)
  {
    forall s | s in Collect(SpectrumReader(env), inputs)
      ensures WellFormed(s)
    {
      CollectMembers(SpectrumReader(env), inputs, s);
      var j :| 0 <= j < |inputs| && SpectrumReader(env)(inputs[j]) == Some(s);
      assert SpectrumOf(env, inputs[j]) == Some(s);
    }
  }

  /** e is the Rs entry of s: same file id, value within the range of Z'. */
  predicate RsFits(e: (string, real), s: Spectrum)
  {
    |s.zPrime| > 0 && e.0 == s.fileId && SeqMin(s.zPrime) <= e.1 <= SeqMax(s.zPrime)
  }

  /** A well-formed spectrum has an Rs entry, and it fits the spectrum. */
  lemma RsEntryFits(s: Spectrum)
    requires WellFormed(s)
    ensures RsEntry(s).Some? && RsFits(RsEntry(s).value, s)
  {
    SolutionResistanceBounds(s.zPrime, s.minusZ);
  }

  lemma RsForEveryWellFormed(spectra: seq<Spectrum>)
    requires forall k :: 0 <= k < |spectra| ==> WellFormed(spectra[k])
    ensures |Collect(RsEntry, spectra)| == |spectra|
    ensures forall k :: 0 <= k < |spectra| ==> RsFits(Collect(RsEntry, spectra)[k], spectra[k])
  {
    forall k | 0 <= k < |spectra|
      ensures RsEntry(spectra[k]).Some? && RsFits(RsEntry(spectra[k]).value, spectra[k])
    {
      RsEntryFits(spectra[k]);
    }
    CollectTotal(RsEntry, spectra);
  }

  /** Every spectrum of the report yields an Rs, so the Rs list matches the
      spectra one for one, in file order, each value between the smallest
      and the largest Z' of its spectrum. */
  lemma RsForEverySpectrum(env: Env, folder: string, inputs: seq<EisInput>)
    ensures var r := EisReportOf(env, folder, inputs);
      r.rs.Some? ==> (|r.rs.value| == |r.spectra| &&
        forall k :: 0 <= k < |r.spectra| ==> (r.rs.value[k].0 == r.spectra[k].fileId && |r.spectra[k].zPrime| > 0
          && SeqMin(r.spectra[k].zPrime) <= r.rs.value[k].1 <= SeqMax(r.spectra[k].zPrime)))
  {
    var spectra := Collect(SpectrumReader(env), inputs);
    SpectraWellFormed(env, inputs);
    assert forall k :: 0 <= k < |spectra| ==> spectra[k] in spectra;
    RsForEveryWellFormed(spectra);
  }

  method ProcessEisFile(env: Env, folder: string, input: EisInput)
    returns (zview: Option<(string, string)>, spectrum: Option<Spectrum>)
    ensures zview == ZViewOutput(env, folder, input)
    ensures spectrum == SpectrumOf(env, input)
  {
    var text := GenerateZViewFile(env, input.file);
    zview := if text.Some? then Some((ZViewPath(folder, input.path), text.value)) else None;
    var freqs, zReal, zImag := ExtractEisData(env, input.file);
    if zReal == [] || zImag == [] {
      return zview, None;
    }
    var s := EisSamples(env, input.file);
    assert zReal == seq(|s|, k requires 0 <= k < |s| => s[k].1);
    assert zImag == seq(|s|, k requires 0 <= k < |s| => s[k].2);
    spectrum := Some(Spectrum(Stem(input.path), zReal, Negated(zImag)));
  }

  /** The exports and the spectra of the files, in file order. */
  method ProcessInputs(env: Env, folder: string, inputs: seq<EisInput>)
    returns (zviews: seq<(string, string)>, spectra: seq<Spectrum>)
    ensures zviews == Collect(ZViewWriter(env, folder), inputs)
    ensures spectra == Collect(SpectrumReader(env), inputs)
  {
    zviews := [];
    spectra := [];
    var i := 0;
    while i < |inputs|
      invariant 0 <= i <= |inputs|
      invariant zviews == Collect(ZViewWriter(env, folder), inputs[..i])
      invariant spectra == Collect(SpectrumReader(env), inputs[..i])
    {
      var zview, spectrum := ProcessEisFile(env, folder, inputs[i]);
      zviews := CollectStep(ZViewWriter(env, folder), inputs, i, zviews, zview);
      spectra := CollectStep(SpectrumReader(env), inputs, i, spectra, spectrum);
      i := i + 1;
    }
    assert inputs[..i] == inputs;
  }

  /** The (file id, Rs) entry of one spectrum, if it has an Rs. */
  method FindRsEntry(s: Spectrum) returns (entry: Option<(string, real)>)
    ensures entry == RsEntry(s)
  {
    entry := None;
    if |s.zPrime| == |s.minusZ| {
      var value := FindSolutionResistance(s.zPrime, s.minusZ);
      if value.Some? {
        entry := Some((s.fileId, value.value));
      }
    }
  }

  /** The (file id, Rs) entries of the spectra, in order. */
  method RsEntries(spectra: seq<Spectrum>) returns (rs: seq<(string, real)>)
    ensures rs == Collect(RsEntry, spectra)
  {
    rs := [];
    var j := 0;
    while j < |spectra|
      invariant 0 <= j <= |spectra|
      invariant rs == Collect(RsEntry, spectra[..j])
    {
      var entry := FindRsEntry(spectra[j]);
      rs := CollectStep(RsEntry, spectra, j, rs, entry);
      j := j + 1;
    }
    assert spectra[..j] == spectra;
  }

  method ProcessEisFiles(env: Env, folder: string, inputs: seq<EisInput>) returns (report: EisReport)
    ensures report == EisReportOf(env, folder, inputs)
  {
    if inputs == [] {
      return EisReport([], [], None);
    }
    var zviews, spectra := ProcessInputs(env, folder, inputs);
    if spectra == [] {
      return EisReport(zviews, [], None);
    }
    var rs := RsEntries(spectra);
    report := EisReport(zviews, spectra, Some(rs));
  }

  // ----- Finding impedance files -----------------------------------------

  /** Number of characters find_eis_files reads. */
  const EisProbeLength: nat := 1024

  /** The file's first 1024 characters name the technique; an unreadable
      file does not count. */
  predicate IsEisCandidate(content: Option<string>)
  {
    content.Some? && Contains(Prefix(content.value, EisProbeLength), "A.C. Impedance")
  }

  /** find_eis_files: the `.txt` entries that pass the test, in listing
      order; nothing when the folder does not exist. */
  function EisFiles(folderExists: bool, folder: string, listing: seq<Entry>): seq<string>
  {
    if !folderExists then [] else Selected(IsEisCandidate, folder, TxtEntries(listing))
  }

  /** A path is listed exactly when a `.txt` entry of that name passes the test. */
  lemma EisFilesMembers(folder: string, listing: seq<Entry>, p: string)
    ensures p in EisFiles(true, folder, listing) <==>
      exists e :: e in listing && IsTxt(e.name) && IsEisCandidate(e.content) && p == PathJoin(folder, e.name)
  {
    SelectedFromListing(IsEisCandidate, folder, listing, p);
  }

  /** Text after the first 1024 characters does not matter. */
  lemma EisCandidateTail(s: string, tail: string)
    requires |s| >= EisProbeLength
    ensures IsEisCandidate(Some(s + tail)) == IsEisCandidate(Some(s))
  {
    assert Prefix(s + tail, EisProbeLength) == Prefix(s, EisProbeLength);
  }

  method FindEisFiles(folderExists: bool, folder: string, listing: seq<Entry>) returns (files: seq<string>)
    ensures files == EisFiles(folderExists, folder, listing)
  {
    files := [];
    if !folderExists {
      return;
    }
    files := SelectPaths(IsEisCandidate, folder, TxtEntries(listing));
  }
}
