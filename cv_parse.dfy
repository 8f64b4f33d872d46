/**
  Reading a voltammetry data file: the scan rate named in its header and
  the (potential, current) samples of its data block.

  Both regular expressions that look for the scan rate are written out
  here as explicit matchers over ASCII text, as is the header-line test
  of the data-block search. Python's float() and the numeric-pair
  regular expression of the last-resort path are the collaborators
  `env.parseFloat` and `env.numericPairs`. The same parser is used by the
  linear-sweep reader.
 */
module CvParse {
  import opened Common
  import opened Text

  // ----- The scan rate ---------------------------------------------------

  predicate IsDigitOrDot(c: char) { '0' <= c <= '9' || c == '.' }

  /** The text `[\d.]+` matches: a non-empty run of digits and dots. */
  predicate IsRateDigits(t: string)
  {
    |t| > 0 && forall k :: 0 <= k < |t| ==> IsDigitOrDot(t[k])
  }

  /** The end of the longest run of characters satisfying P from i. */
  function RunEnd(s: string, i: nat, P: char -> bool): (e: nat)
    requires i <= |s|
    ensures i <= e <= |s|
    ensures forall k :: i <= k < e ==> P(s[k])
    ensures e == |s| || !P(s[e])
    decreases |s| - i
  {
    if i < |s| && P(s[i]) then RunEnd(s, i + 1, P) else i
  }

  const RateLabel: string := "Scan Rate (V/s) = "

  /** The group of `Scan Rate \(V/s\) = ([\d.]+)` for a match starting at i,
      as a pair of positions. The group is greedy and nothing follows it in
      the pattern, so it is the whole digit-or-dot run. */
  function LabelledRateAt(s: string, i: nat): (g: Option<(nat, nat)>)
    ensures g.Some? ==> i + |RateLabel| == g.value.0 < g.value.1 <= |s|
    ensures g.Some? ==> IsRateDigits(s[g.value.0..g.value.1])
  {
    if OccursAt(s, RateLabel, i) then
      var e := RunEnd(s, i + |RateLabel|, IsDigitOrDot);
      if e > i + |RateLabel| then Some((i + |RateLabel|, e)) else None
    else None
  }

  predicate IsCapital(c: char, upper: char, lower: char) { c == upper || c == lower }

  /** The group of `[Ss]can [Rr]ate\s*[:=]\s*([\d.]+)\s*[Vv]/s` for a match
      starting at i. Each `\s*` is followed by a character class that has no
      space in it, and the digit run is followed by `\s*[Vv]`, so no
      backtracking can change where a repetition stops: the match is
      determined by its start. */
  function SpelledRateAt(s: string, i: nat): (g: Option<(nat, nat)>)
    ensures g.Some? ==> i + 9 < g.value.0 < g.value.1 <= |s|
    ensures g.Some? ==> IsRateDigits(s[g.value.0..g.value.1])
  {
    if i + 9 <= |s| && IsCapital(s[i], 'S', 's') && s[i + 1..i + 5] == "can "
      && IsCapital(s[i + 5], 'R', 'r') && s[i + 6..i + 9] == "ate"
    then
      var j := RunEnd(s, i + 9, IsSpace);
      if j < |s| && (s[j] == ':' || s[j] == '=') then
        var k := RunEnd(s, j + 1, IsSpace);
        var e := RunEnd(s, k, IsDigitOrDot);
        var w := RunEnd(s, e, IsSpace);
        if e > k && w + 3 <= |s| && IsCapital(s[w], 'V', 'v') && s[w + 1..w + 3] == "/s"
        then Some((k, e))
        else None
      else None
    else None
  }

  /** re.search: the leftmost start position at which `at` matches. */
  function Leftmost(n: nat, at: nat -> Option<(nat, nat)>, i: nat): (r: Option<nat>)
    requires i <= n
    ensures r.Some? ==> i <= r.value <= n && at(r.value).Some?
    ensures r.Some? ==> forall j :: i <= j < r.value ==> at(j).None?
    ensures r.None? ==> forall j :: i <= j <= n ==> at(j).None?
    decreases n - i
  {
    if at(i).Some? then Some(i)
    else if i == n then None
    else Leftmost(n, at, i + 1)
  }

  /** The text of the scan-rate group: the labelled form if it occurs
      anywhere, otherwise the spelled-out form. */
  function ScanRateText(s: string): (t: Option<string>)
    ensures t.Some? ==> IsRateDigits(t.value)
  {
    match Leftmost(|s|, k => LabelledRateAt(s, k), 0)
    case Some(i) =>
      var g := LabelledRateAt(s, i).value;
      Some(s[g.0..g.1])
    case None =>
      match Leftmost(|s|, k => SpelledRateAt(s, k), 0)
      case Some(i) =>
        var g := SpelledRateAt(s, i).value;
        Some(s[g.0..g.1])
      case None => None
  }

  /** Python's round() to an integer: to the nearest integer, ties to even. */
  function RoundHalfEven(x: real): (r: int)
    ensures -1.0 / 2.0 <= r as real - x <= 1.0 / 2.0
    ensures (r as real - x == 1.0 / 2.0 || x - r as real == 1.0 / 2.0) ==> r % 2 == 0
  {
    var f := x.Floor;
    var d := x - f as real;
    if d < 1.0 / 2.0 then f
    else if d > 1.0 / 2.0 then f + 1
    else if f % 2 == 0 then f
    else f + 1
  }

  /** The outcome of extract_scan_rate: no rate in the text, a rate in mV/s,
      or a ValueError from float() that the caller treats as a failed file. */
  datatype RateResult = NoRate | Rate(mvPerS: int) | RateError

  function ExtractScanRate(env: Env, content: string): (r: RateResult)
    ensures r == NoRate <==> ScanRateText(content).None?
    ensures r == RateError <==> ScanRateText(content).Some? && env.parseFloat(ScanRateText(content).value).None?
    ensures r.Rate? ==> exists x :: (env.parseFloat(ScanRateText(content).value) == Some(x)
      && r.mvPerS == RoundHalfEven(x * 1000.0)
      && -1.0 / 2.0 <= r.mvPerS as real - x * 1000.0 <= 1.0 / 2.0)
  {
    match ScanRateText(content)
    case None => NoRate
    case Some(t) =>
      match env.parseFloat(t)
      case None => RateError
      case Some(x) => Rate(RoundHalfEven(x * 1000.0))
  }

  /** A header line "Scan Rate (V/s) = 0.05" yields 50 mV/s. */
  lemma ScanRateExample(env: Env)
    requires env.parseFloat("0.05") == Some(1.0 / 20.0)
    ensures ExtractScanRate(env, "Scan Rate (V/s) = 0.05") == Rate(50)
  {
    var s := "Scan Rate (V/s) = 0.05";
    assert OccursAt(s, RateLabel, 0) by {
      assert s[0..18] == RateLabel;
    }
    var e := RunEnd(s, 18, IsDigitOrDot);
    assert e == 22 by {
      assert IsDigitOrDot(s[18]) && IsDigitOrDot(s[19]) && IsDigitOrDot(s[20]) && IsDigitOrDot(s[21]);
      assert RunEnd(s, 22, IsDigitOrDot) == 22;
      assert RunEnd(s, 21, IsDigitOrDot) == 22;
      assert RunEnd(s, 20, IsDigitOrDot) == 22;
      assert RunEnd(s, 19, IsDigitOrDot) == 22;
    }
    assert LabelledRateAt(s, 0) == Some((18, 22));
    assert s[18..22] == "0.05";
    assert RoundHalfEven(50.0) == 50;
  }

  // ----- The data block --------------------------------------------------

  const DataMarker: string := "Potential/V, Current/A"

  /** Some character of `last` at or after `from` on the same line. */
  predicate CharLater(line: string, from: nat, last: set<char>)
  {
    exists k :: from <= k < |line| && line[k] in last && '\n' !in line[from..k]
  }

  /** re.search(r'[Xx]rest.*[Yy]', line). */
  predicate WordThenChar(line: string, first: set<char>, rest: string, last: set<char>)
  {
    exists i :: 0 <= i < |line| && line[i] in first && OccursAt(line, rest, i + 1)
      && CharLater(line, i + 1 + |rest|, last)
  }

  /** A line that names both columns, literally or as `[Pp]otential…[Vv]` and
      `[Cc]urrent…[Aa]`. */
  predicate IsHeaderLine(line: string)
  {
    (Contains(line, "Potential") && Contains(line, "Current"))
    || (WordThenChar(line, {'P', 'p'}, "otential", {'V', 'v'})
        && WordThenChar(line, {'C', 'c'}, "urrent", {'A', 'a'}))
  }

  /** The index of the first header line at or after i. */
  function FirstHeaderLine(lines: seq<string>, i: nat): (r: Option<nat>)
    requires i <= |lines|
    ensures r.Some? ==> i <= r.value < |lines| && IsHeaderLine(lines[r.value])
    ensures r.Some? ==> forall j :: i <= j < r.value ==> !IsHeaderLine(lines[j])
    ensures r.None? ==> forall j :: i <= j < |lines| ==> !IsHeaderLine(lines[j])
    decreases |lines| - i
  {
    if i == |lines| then None
    else if IsHeaderLine(lines[i]) then Some(i)
    else FirstHeaderLine(lines, i + 1)
  }

  /** Where the samples come from: the lines of a data block, or the pairs
      the numeric-pair pattern finds in the whole text (possibly none). */
  datatype Section = Block(lines: seq<string>) | Pairs(pairs: seq<(real, real)>)

  function DataSection(env: Env, content: string): Section
  {
    if Contains(content, DataMarker) then
      Block(Split(Strip(SecondPiece(content, DataMarker)), '\n'))
    else if Contains(content, "Potential") && Contains(content, "Current") then
      var lines := Split(Strip(content), '\n');
      match FirstHeaderLine(lines, 0)
      case Some(h) =>
        if h + 1 < |lines| then Block(Split(Strip(Join(lines[h + 1..], '\n')), '\n'))
        else Pairs(env.numericPairs(content))
      case None => Pairs(env.numericPairs(content))
    else Pairs([])
  }

  /** The fields of one data line: split by comma if the line has one, else
      by tab if it has one, else by runs of whitespace. */
  function LineFields(line: string): seq<string>
  {
    var t := Strip(line);
    if ',' in line then Split(t, ',')
    else if '\t' in line then Split(t, '\t')
    else SplitWs(t)
  }

  /** The separator priority: a line holding a comma is cut at its commas,
      one holding a tab but no comma at its tabs, and the fields rejoin to
      the stripped line; any other line is cut into non-empty words. */
  lemma LineFieldsPriority(line: string)
    ensures ',' in line ==> (Join(LineFields(line), ',') == Strip(line) &&
      forall k :: 0 <= k < |LineFields(line)| ==> ',' !in LineFields(line)[k])
    ensures ',' !in line && '\t' in line ==> (Join(LineFields(line), '\t') == Strip(line) &&
      forall k :: 0 <= k < |LineFields(line)| ==> '\t' !in LineFields(line)[k])
    ensures ',' !in line && '\t' !in line ==> AllWords(LineFields(line))
  {
    JoinSplit(Strip(line), ',');
    JoinSplit(Strip(line), '\t');
    SplitWsWords(Strip(line));
  }

  /** One sample from a line, if it is not blank, has two fields and both parse. */
  function ParseLine(env: Env, line: string): Option<(real, real)>
  {
    if Strip(line) == "" then None
    else
      var parts := LineFields(line);
      if |parts| < 2 then None
      else match (env.parseFloat(Strip(parts[0])), env.parseFloat(Strip(parts[1])))
        case (Some(p), Some(c)) => Some((p, c))
        case _ => None
  }

  function ParseLines(env: Env, lines: seq<string>): seq<(real, real)>
  {
    Collect(LineParser(env), lines)
  }

  function LineParser(env: Env): string -> Option<(real, real)>
  {
    line => ParseLine(env, line)
  }

  /** The (potential, current) samples of a file, in file order. */
  function Samples(env: Env, content: string): seq<(real, real)>
  {
    match DataSection(env, content)
    case Block(lines) => ParseLines(env, lines)
    case Pairs(pairs) => pairs
  }

  /** Lines are parsed independently: the samples of a concatenation are the
      concatenation of the samples. */
  lemma ParseLinesAppend(env: Env, a: seq<string>, b: seq<string>)
    ensures ParseLines(env, a + b) == ParseLines(env, a) + ParseLines(env, b)
  {
    CollectAppend(LineParser(env), a, b);
  }

  /** A line that does not yield a sample is skipped and scanning goes on. */
  lemma SkipBadLine(env: Env, a: seq<string>, bad: string, b: seq<string>)
    requires ParseLine(env, bad).None?
    ensures ParseLines(env, a + [bad] + b) == ParseLines(env, a) + ParseLines(env, b)
  {
    var f := LineParser(env);
    CollectAppend(f, a + [bad], b);
    CollectAppend(f, a, [bad]);
    CollectOne(f, bad);
  }

  /** Every sample is the parse of some line of the block, and every line that
      parses contributes its sample. */
  lemma ParseLinesMembers(env: Env, lines: seq<string>, x: (real, real))
    ensures x in ParseLines(env, lines) <==> exists j :: 0 <= j < |lines| && ParseLine(env, lines[j]) == Some(x)
  {
    CollectMembers(LineParser(env), lines, x);
  }

  /** A file with neither the marker nor both column words has no samples. */
  lemma NoColumnsNoSamples(env: Env, content: string)
    requires !Contains(content, "Potential") || !Contains(content, "Current")
    requires !Contains(content, DataMarker)
    ensures Samples(env, content) == []
  {
  }

  // ----- The extraction loop ---------------------------------------------

  /** The header search: one past the first header line, or -1. */
  method FindDataStart(lines: seq<string>) returns (dataStart: int)
    ensures dataStart == (match FirstHeaderLine(lines, 0) case Some(h) => h + 1 case None => -1)
  {
    dataStart := -1;
    var i := 0;
    while i < |lines|
      invariant 0 <= i <= |lines|
      invariant FirstHeaderLine(lines, 0) == FirstHeaderLine(lines, i)
    {
      if IsHeaderLine(lines[i]) {
        dataStart := i + 1;
        return;
      }
      i := i + 1;
    }
  }

  /** The line loop: parse each line and keep the two values of each sample.
      The line parser is a parameter so that the loop reasons about it only
      through its results. */
  method ParseBlock(parse: string -> Option<(real, real)>, lines: seq<string>)
    returns (potentials: seq<real>, currents: seq<real>)
    ensures |potentials| == |currents| == |Collect(parse, lines)|
    ensures forall k :: 0 <= k < |potentials| ==> (potentials[k], currents[k]) == Collect(parse, lines)[k]
  {
    potentials, currents := [], [];
    var i := 0;
    while i < |lines|
      invariant 0 <= i <= |lines|
      invariant |potentials| == |currents| == |Collect(parse, lines[..i])|
      invariant forall k :: 0 <= k < |potentials| ==> (potentials[k], currents[k]) == Collect(parse, lines[..i])[k]
    {
      assert lines[..i + 1] == lines[..i] + [lines[i]];
      CollectAppend(parse, lines[..i], [lines[i]]);
      CollectOne(parse, lines[i]);
      var sample := parse(lines[i]);
      if sample.Some? {
        potentials := potentials + [sample.value.0];
        currents := currents + [sample.value.1];
      }
      i := i + 1;
    }
    assert lines[..i] == lines;
  }

  /** extract_potential_current_data: the samples of the file, unzipped into
      two lists of equal length. */
  method ExtractPotentialCurrentData(env: Env, content: string) returns (potentials: seq<real>, currents: seq<real>)
    ensures |potentials| == |currents| == |Samples(env, content)|
    ensures forall k :: 0 <= k < |potentials| ==> (potentials[k], currents[k]) == Samples(env, content)[k]
  {
    var section := FindDataSection(env, content);
    match section
    case Block(lines) =>
      potentials, currents := ParseBlock(LineParser(env), lines);
    case Pairs(pairs) =>
      potentials := seq(|pairs|, k requires 0 <= k < |pairs| => pairs[k].0);
      currents := seq(|pairs|, k requires 0 <= k < |pairs| => pairs[k].1);
  }

  /** The choice of where the samples come from: the marker, else the
      header line of a file naming both columns, else the pattern scan. */
  method FindDataSection(env: Env, content: string) returns (section: Section)
    ensures section == DataSection(env, content)
  {
    if Contains(content, DataMarker) {
      section := Block(Split(Strip(SecondPiece(content, DataMarker)), '\n'));
    } else if Contains(content, "Potential") && Contains(content, "Current") {
      var all := Split(Strip(content), '\n');
      var dataStart := FindDataStart(all);
      if dataStart > 0 && dataStart < |all| {
        section := Block(Split(Strip(Join(all[dataStart..], '\n')), '\n'));
      } else {
        section := Pairs(env.numericPairs(content));
      }
    } else {
      section := Pairs([]);
    }
  }
}
