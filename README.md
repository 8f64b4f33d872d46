# Electrochemistry data processor — a verified model of its analysis core

The program reads text exports of an electrochemical workstation. It
recognises cyclic voltammetry (CV), linear sweep voltammetry (LSV) and
electrochemical impedance (EIS) files by keywords in their first
characters, and turns each kind into spreadsheet data:

- **CV**: the scan rate from the header, the (potential, current)
  samples, the start indices of the cycles (a cascade of four
  strategies followed by a minimum-distance filter), and the last cycle
  shifted by +0.903 V and scaled by -1000. Next come the forward and
  reverse currents at the 0.753 V midpoint and their difference Δj. The
  files are sorted stably by scan rate. A guarded linear fit of Δj
  against scan rate gives the double-layer capacitance Cdl = slope × 1000.
- **LSV**: the file identifier from the `File:` label (or the file-name
  stem), the same sample parser and transform, and the overpotentials
  (E − 1.23 V in mV) at the samples whose currents are nearest to 10, 100
  and 200 mA cm⁻². It also models the column layout of the report sheet.
- **EIS**: the header-gated reader of (frequency, Z′, Z″) triples, the
  line selection of the ZView export, and the −Z″ negation. It also
  models the solution resistance Rs read off the first sign change of −Z″,
  with its two fallbacks.
- **Tafel**: the sorted, de-duplicated Rs values and the scan of the LSV
  sheet's first row for "Potential"/"Current Density" column pairs. Also
  modelled: the column reader that stops at the first empty cell, the
  log|j| and per-Rs overpotential columns, and the block and column-width
  arithmetic of the Tafel sheet.
- **Files**: the keyword predicates, the type dispatch over a folder
  listing, the folder basename and the output directory.

Modules:

| File | Module | Contents |
|---|---|---|
| `common.dfy` | `Common` | Option, the uninterpreted collaborators `Env`, filter-map `Collect`, subsequences |
| `text.dfy` | `Text` | The Python string methods the core relies on (`strip`, `split`, `join`, `in`, `lower`) |
| `file_utils.dfy` | `FileUtils` | File recognition and paths |
| `cv_parse.dfy` | `CvParse` | Scan rate and sample parsing (shared with LSV) |
| `cv_cycles.dfy` | `CvCycles` | Direction changes, the start-index cascade, the last cycle |
| `cv_analysis.dfy` | `CvAnalysis` | Midpoint currents, Δj, the stable sort, the linear fit, the CV batch |
| `eis.dfy` | `Eis` | Impedance reading, ZView export, Rs, the EIS batch and file search |
| `lsv.dfy` | `Lsv` | File identifier, nearest currents, overpotentials, report layout, LSV file search |
| `tafel.dfy` | `Tafel` | The Tafel sheet |

Each loop of the program is a method. Each method is proved equal to a
specification function, and the lemmas state what those functions
guarantee.

The model works on abstract inputs:

- A file is its text as `Option<string>`; `None` means the file could not
  be read.
- An EIS file is its lines.
- A folder is a list of entries, each a name and that text.
- A worksheet is a grid of optional cells.

Python's `float()`, the numeric-pair regular expression scan, numpy's
`polyfit` and `log10` are the fields of `Common.Env`, and nothing about
them is assumed. The two scan-rate regular expressions, the header-line
regular expressions of the sample parser and the `File:` regular
expression are written out character by character. Whitespace (`\s`,
`strip()`, `split()`) is Python's full `str.isspace()` set; digits and
letter case are ASCII only.

A trace with fewer than 10 points gets no cycle starts (cv.py:189-190),
so the nine-point trace `[0, 1, 2, 1, 0, 1, 2, 1, 0]` gets none, although
it changes direction three times (two full cycles): `CvCycles.NinePointTrace`
proves this.

## Model

| member | source | states |
|---|---|---|
| FileUtils.Header | electrochemistry/common/file_utils.py:31 | The header is the prefix of the text of length min(1000, length) |
| FileUtils.ContainsAnyMeaning | electrochemistry/common/file_utils.py:34-42 | `any(k in header for k in keys)` holds iff some keyword occurs in the header |
| FileUtils.IsCvFile | electrochemistry/common/file_utils.py:24-46 | True iff the file is readable, its header has a CV keyword and it has none of the seven exclusion keywords |
| FileUtils.IsLsvFile | electrochemistry/common/file_utils.py:48-62 | True iff the file is readable and one of the three LSV keywords occurs in its header |
| FileUtils.IsEisFile | electrochemistry/common/file_utils.py:64-78 | True iff the file is readable and one of the three EIS keywords occurs in its header |
| FileUtils.TailIrrelevant | electrochemistry/common/file_utils.py:31 | Text after the first 1000 characters never changes any of the three verdicts |
| FileUtils.KindOfCaseInsensitive | electrochemistry/common/file_utils.py:104-112 | The type dispatch ignores case, and it succeeds exactly for "cv", "lsv" and "eis" after lower-casing |
| FileUtils.KindOf | electrochemistry/common/file_utils.py:104-112 | Specification of the type dispatch on the lower-cased name; characterised by `KindOfCaseInsensitive` |
| FileUtils.PathJoin | electrochemistry/common/file_utils.py:96 | Joining inserts a `\` unless the folder is empty or already ends in a separator |
| FileUtils.TxtEntries | electrochemistry/common/file_utils.py:96-97 | Every kept entry has a `.txt` name in any case |
| FileUtils.TxtEntriesMembers | electrochemistry/common/file_utils.py:96-97 | An entry is kept iff it is in the listing and its name ends in `.txt` in any case |
| FileUtils.SelectPaths | electrochemistry/common/file_utils.py:115-120 | The filter loop computes the joined paths of the entries the detector accepts, in listing order |
| FileUtils.SelectedMembers | electrochemistry/common/file_utils.py:115-120 | A path is selected iff it is the join of some entry whose content the detector accepts |
| FileUtils.SelectedFromListing | electrochemistry/common/file_utils.py:96-120 | A path is found iff it joins the folder with a `.txt` entry of the listing that the detector accepts |
| FileUtils.SelectedIsSubsequence | electrochemistry/common/file_utils.py:115-120 | The selected paths keep the order of the listing: they form a subsequence of all `.txt` paths |
| FileUtils.FindFilesByType | electrochemistry/common/file_utils.py:80-120 | The search returns `FilesByType` of the folder listing |
| FileUtils.FilesByType | electrochemistry/common/file_utils.py:80-120 | Specification of find_files_by_type; characterised by `FilesByTypeProperties` |
| FileUtils.FilesByTypeProperties | electrochemistry/common/file_utils.py:80-120 | A missing folder or an unknown type gives []; the result is an ordered subsequence of the `.txt` paths; membership holds iff the entry is a `.txt` file the type's detector accepts |
| FileUtils.LastSep | electrochemistry/common/file_utils.py:132 | Finds the index of the last `\` or `/`, or reports that there is none |
| FileUtils.LastComponent | electrochemistry/common/file_utils.py:132 | The basename is the separator-free suffix that follows the last separator |
| FileUtils.FolderBasenameShape | electrochemistry/common/file_utils.py:132 | The folder basename has no separator; it is the last component after trailing separators are stripped, and only separators were stripped |
| FileUtils.FolderBasenameTrailing | electrochemistry/common/file_utils.py:132 | A trailing `\` or `/` does not change the folder basename |
| FileUtils.FolderBasenameOf | electrochemistry/common/file_utils.py:132 | For a folder `dir + name + separators`, the basename is `name` |
| FileUtils.FolderBasename | electrochemistry/common/file_utils.py:132 | Specification of basename(folder.rstrip("\\/")); characterised by `FolderBasenameShape`, `FolderBasenameTrailing` and `FolderBasenameOf` |
| FileUtils.OutputDir | electrochemistry/common/file_utils.py:122-137 | The output directory is the folder joined with `processed_data` |
| FileUtils.LastDot | electrochemistry/lsv.py:85 | Finds the index of the last `.`, or reports that there is none |
| FileUtils.StemShape | electrochemistry/lsv.py:84-85 | `splitext(basename)[0]` is a prefix of the basename; when shorter it stops at the last dot and is not all dots |
| FileUtils.Stem | electrochemistry/lsv.py:84-85 | Specification of splitext(basename(path))[0]; characterised by `StemShape` and `StemOfName` |
| FileUtils.StemSepFree | electrochemistry/eis.py:220 | A stem has no path separator |
| FileUtils.JoinLastComponent | electrochemistry/eis.py:226 | Joining a separator-free name to a folder keeps the folder as prefix and makes the name the last component |
| FileUtils.StemOfName | electrochemistry/eis.py:237 | The stem of `dir + base.ext` is `base` |
| CvParse.LabelledRateAt | electrochemistry/cv.py:111 | A `Scan Rate (V/s) = ` match at i spans a non-empty run of digits and dots right after the label |
| CvParse.SpelledRateAt | electrochemistry/cv.py:115 | A `[Ss]can [Rr]ate\s*[:=]\s*([\d.]+)\s*[Vv]/s` match at i yields a non-empty group of digits and dots |
| CvParse.Leftmost | electrochemistry/cv.py:111-116 | `re.search` reports the leftmost match position, and no earlier position matches |
| CvParse.ScanRateText | electrochemistry/cv.py:109-117 | The rate text found by the first or second pattern is a digits-and-dots run |
| CvParse.RoundHalfEven | electrochemistry/cv.py:121 | Python's round(): within 1/2 of x, and even on ties |
| CvParse.ExtractScanRate | electrochemistry/cv.py:109-121 | No rate iff neither pattern matches; a rate error iff float() rejects the matched text; otherwise round-half-even of float(text) × 1000 |
| CvParse.ScanRateExample | electrochemistry/cv.py:109-121 | "Scan Rate (V/s) = 0.05" gives 50 mV/s |
| CvParse.FirstHeaderLine | electrochemistry/cv.py:134-138 | Finds the first line that names both Potential and Current, or that matches both header regexes; earlier lines do neither |
| CvParse.FindDataStart | electrochemistry/cv.py:132-138 | The loop returns the index after the first header line, or −1 |
| CvParse.LineFieldsPriority | electrochemistry/cv.py:164-169 | A line with a comma is split on commas; else one with a tab is split on tabs; else it is split into whitespace words |
| CvParse.LineFields | electrochemistry/cv.py:164-169 | Specification of one line's split: commas, else tabs, else whitespace; characterised by `LineFieldsPriority` |
| CvParse.ParseLinesAppend | electrochemistry/cv.py:160-178 | Parsing lines distributes over concatenation |
| CvParse.SkipBadLine | electrochemistry/cv.py:171-178 | A line that does not parse is skipped without affecting the others |
| CvParse.ParseLine | electrochemistry/cv.py:162-178 | Specification of one data line: a sample when it is not blank, has two fields and both parse; used by `SkipBadLine` and `ParseLinesMembers` |
| CvParse.ParseLinesMembers | electrochemistry/cv.py:160-178 | A sample is produced iff some line parses to it |
| CvParse.NoColumnsNoSamples | electrochemistry/cv.py:150-151 | Text without the marker and without both column names has no samples |
| CvParse.ParseBlock | electrochemistry/cv.py:153-180 | The line loop yields exactly the parsed samples, in order, as parallel lists |
| CvParse.FindDataSection | electrochemistry/cv.py:127-151 | The method returns `DataSection`: the marker split, the header-line block or the numeric-pair fallback |
| CvParse.DataSection | electrochemistry/cv.py:127-151 | Specification of the data-section choice: the text after the column marker, the lines after the first header line, the numeric-pair fallback, or nothing |
| CvParse.ExtractPotentialCurrentData | electrochemistry/cv.py:123-180 | The parallel potential and current lists zip to `Samples` of the content |
| CvParse.Samples | electrochemistry/cv.py:123-180 | Specification of extract_potential_current_data as (potential, current) pairs in file order; `ExtractPotentialCurrentData` is proved equal to it |
| CvCycles.TurnsFrom | electrochemistry/cv.py:212-225 | The recorded direction changes are increasing indices inside the trace |
| CvCycles.DirectionChanges | electrochemistry/cv.py:212-225 | Direction changes are strictly increasing and lie in [0, n−1) |
| CvCycles.NoDirectionChangeIff | electrochemistry/cv.py:212-225 | There are no direction changes iff all non-flat steps point the same way |
| CvCycles.DetectDirectionChanges | electrochemistry/cv.py:212-225 | The loop computes the direction changes |
| CvCycles.NearFrom | electrochemistry/cv.py:231-237 | The indices from i whose potential is within tol of v, strictly increasing |
| CvCycles.NearFromMembers | electrochemistry/cv.py:231-237 | j is collected iff i ≤ j < n and \|p[j] − v\| < tol |
| CvCycles.CollectNear | electrochemistry/cv.py:231-237 | The loop computes the near-point list |
| CvCycles.Intervals | electrochemistry/cv.py:248-250 | The gaps dc[k+2] − dc[k] between turns two apart (extrema of the same kind): one interval per turn after the second, two fewer than the turns |
| CvCycles.PeriodicBounds | electrochemistry/cv.py:255-263 | With at least four turns the average interval is ≥ 2, its half is ≥ 1, and the first probe lies inside the trace |
| CvCycles.StepNearBounds | electrochemistry/cv.py:263-265 | Every probed point is at or after the first change, within tol of the probe potential, and more than 10 points before the end |
| CvCycles.StepNearIncreasing | electrochemistry/cv.py:263-265 | The probed points are strictly increasing |
| CvCycles.PeriodicTurns | electrochemistry/cv.py:241-265 | Strategy 2's starts are indices of the trace |
| CvCycles.IntervalsScan | electrochemistry/cv.py:248-250 | The loop computes the interval list |
| CvCycles.StepNearScan | electrochemistry/cv.py:259-265 | The stepping loop computes the probed-point list |
| CvCycles.StepNear | electrochemistry/cv.py:259-265 | Specification of strategy 2's stepping: the indices start, start+step, … with 10 points after them that lie within tolerance of the probe; properties in `StepNearBounds` and `StepNearIncreasing` |
| CvCycles.PeriodicTurnsScan | electrochemistry/cv.py:241-265 | Strategy 2's loop returns `PeriodicTurns` |
| CvCycles.ExtremumRecurrence | electrochemistry/cv.py:269-290 | Strategy 3's starts are indices of the trace |
| CvCycles.BackProject | electrochemistry/cv.py:288-290 | Each point is moved back by a quarter period, clamped at 0 |
| CvCycles.RecurrenceAverage | electrochemistry/cv.py:282-284 | The average gap between increasing recurrences is at least 1 |
| CvCycles.ExtremumRecurrenceScan | electrochemistry/cv.py:269-290 | Strategy 3's loops return `ExtremumRecurrence` |
| CvCycles.StepBack | electrochemistry/cv.py:288-290 | The loop computes the back-projected list |
| CvCycles.FirstReturn | electrochemistry/cv.py:303-306 | Finds the first index in [from, hi) that returns within tol of p[0] (0 when none), and no earlier index returns |
| CvCycles.RangeStep | electrochemistry/cv.py:318 | `range(i, n, step)`: an arithmetic progression that stops before n |
| CvCycles.FixedSegments | electrochemistry/cv.py:294-318 | Strategy 4's starts are indices of the trace |
| CvCycles.AllReturnMeaning | electrochemistry/cv.py:312-315 | The check loop succeeds iff every multiple of the segment length returns to the start potential |
| CvCycles.FixedSegmentsWhen | electrochemistry/cv.py:309-318 | Strategy 4 proposes starts iff the segment is longer than 10 and every segment boundary returns |
| CvCycles.FixedSegmentsShape | electrochemistry/cv.py:318 | Strategy 4's starts are 0, seg, 2·seg, … |
| CvCycles.FirstReturnScan | electrochemistry/cv.py:303-306 | The loop computes the segment length |
| CvCycles.SegmentLength | electrochemistry/cv.py:303-306 | Specification of the segment length: the first index in [1, min(500, n)) whose potential is within tolerance of p[0], or 0 (the > 10 test belongs to `FixedSegments`); characterised by `FirstReturn` |
| CvCycles.AllReturnScan | electrochemistry/cv.py:312-315 | The loop computes the boundary check |
| CvCycles.AllReturn | electrochemistry/cv.py:312-315 | Specification of the boundary check: every multiple of the segment below n returns within tolerance; characterised by `AllReturnMeaning` |
| CvCycles.FixedSegmentsScan | electrochemistry/cv.py:294-318 | Strategy 4's loops return `FixedSegments` |
| CvCycles.ReturnStage | electrochemistry/cv.py:198-208 | Strategy 1's starts are indices of the trace |
| CvCycles.PeriodicStage | electrochemistry/cv.py:241-265 | Strategy 2, applied only when strategy 1 gives fewer than two starts, yields indices of the trace |
| CvCycles.RecurrenceStage | electrochemistry/cv.py:269-290 | Strategy 3, applied only when fewer than two starts are known, yields indices of the trace |
| CvCycles.Candidates | electrochemistry/cv.py:198-318 | The strategy cascade yields indices of the trace |
| CvCycles.KeepFrom | electrochemistry/cv.py:322-331 | Kept starts are each at least 10 after the previous one |
| CvCycles.Dedup | electrochemistry/cv.py:322-331 | The filter keeps the first candidate and yields well-spaced starts |
| CvCycles.DedupSubsequence | electrochemistry/cv.py:322-331 | The filter only deletes candidates and keeps their order |
| CvCycles.DedupInRange | electrochemistry/cv.py:322-331 | The filter keeps in-range candidates in range, in order, increasing and at least 10 apart |
| CvCycles.WellSpacedIncreasing | electrochemistry/cv.py:322-331 | Well-spaced starts are strictly increasing |
| CvCycles.CycleStartsProperties | electrochemistry/cv.py:182-334 | Cycle starts are in range, strictly increasing and at least 10 apart; they are an ordered subsequence of the cascade's candidates and keep the first one |
| CvCycles.CycleStarts | electrochemistry/cv.py:182-334 | Specification of find_cycle_start_indices: [] under 10 points or without a turn, else the de-duplicated candidates of the cascade; properties in `CycleStartsProperties` and `CycleStartsEmpty` |
| CvCycles.CycleStartsEmpty | electrochemistry/cv.py:189-225 | Traces with fewer than 10 points, or with no direction change, have no cycle starts |
| CvCycles.NinePointTrace | electrochemistry/cv.py:189-190 | The nine-point zig-zag trace has no cycle starts |
| CvCycles.RemoveCloseStarts | electrochemistry/cv.py:322-331 | The loop computes the minimum-distance filter |
| CvCycles.CollectCandidates | electrochemistry/cv.py:198-318 | The cascade's loops return `Candidates` |
| CvCycles.FindCycleStartIndices | electrochemistry/cv.py:182-334 | The detector returns `CycleStarts`: none for short traces, in range, increasing, 10 apart |
| CvCycles.Diffs | electrochemistry/cv.py:282-284 | Has one gap per pair of consecutive points |
| CvCycles.DiffsTelescope | electrochemistry/cv.py:282-284 | The gaps sum to last − first |
| CvCycles.LastCycleWindow | electrochemistry/cv.py:370-387 | The last-cycle window is an in-range slice |
| CvCycles.LastCycleWindowMeaning | electrochemistry/cv.py:360-387 | No starts: the whole trace; one start: from it to the end; more: from the last start for one average cycle length, cut at the end |
| CvCycles.Shifted | electrochemistry/cv.py:393 | Every potential is raised by 0.903 V |
| CvCycles.Scaled | electrochemistry/cv.py:394 | Every current is multiplied by −1000 |
| CvCycles.LastCycle | electrochemistry/cv.py:370-394 | The result is the window's slice of both lists, transformed element by element |
| CvAnalysis.EffectiveTarget | electrochemistry/cv.py:414-430 | The requested target when some potential is near it; else the range's midpoint with tolerance max(2·tol, range/50) |
| CvAnalysis.SignChangeFrom | electrochemistry/cv.py:445-446 | Finds the first step where the sweep direction flips; no earlier step flips |
| CvAnalysis.Below | electrochemistry/cv.py:448-477 | The matches before the pivot |
| CvAnalysis.AtOrAbove | electrochemistry/cv.py:448-477 | The matches at or after the pivot |
| CvAnalysis.PickPair | electrochemistry/cv.py:448-477 | Both picked indices are matches |
| CvAnalysis.Pivot | electrochemistry/cv.py:445-446 | The turning point, or n/2 when the sweep never turns |
| CvAnalysis.PickPairFirstLast | electrochemistry/cv.py:448-477 | For increasing matches, every branch picks the first and the last match |
| CvAnalysis.MidpointIndices | electrochemistry/cv.py:402-483 | The returned indices lie in the trace |
| CvAnalysis.MidpointValues | electrochemistry/cv.py:402-483 | Forward and reverse currents are both present or both absent |
| CvAnalysis.MidpointFirstLast | electrochemistry/cv.py:402-483 | Empty input or fewer than two matches give (None, None); otherwise the currents at the first and last match |
| CvAnalysis.MidpointIndicesFirstLast | electrochemistry/cv.py:436-483 | The indices are the first and last match when there are at least two |
| CvAnalysis.MatchesMeaning | electrochemistry/cv.py:436-441 | j matches iff \|p[j] − target\| < tolerance for the effective target |
| CvAnalysis.Matches | electrochemistry/cv.py:436-441 | Specification of the midpoint matches: the indices within strict tolerance of the target, in order; characterised by `MatchesMeaning` |
| CvAnalysis.FindMidpointValues | electrochemistry/cv.py:402-483 | The method returns the pair `MidpointValues` |
| CvAnalysis.FindTarget | electrochemistry/cv.py:414-430 | The search loop computes the effective target |
| CvAnalysis.ValidPairsMembers | electrochemistry/cv.py:797 | A (rate, Δj) pair is used iff Δj is present for that file |
| CvAnalysis.ValidPairs | electrochemistry/cv.py:797 | Specification of the fit input: the (rate, Δj) pairs with a defined Δj, zip order; characterised by `ValidPairsMembers` |
| CvAnalysis.SumsOfSquares | electrochemistry/cv.py:507-510 | Both sums of squares are non-negative |
| CvAnalysis.RSquared | electrochemistry/cv.py:507-510 | R² is absent iff ss_tot = 0; it is at most 1, and equals 1 iff the residuals vanish |
| CvAnalysis.LinearFit | electrochemistry/cv.py:485-512 | No fit iff fewer than two valid pairs; otherwise polyfit's line on them with its R² |
| CvAnalysis.PerfectFit | electrochemistry/cv.py:507-510 | Points on the fitted line give R² = 1 |
| CvAnalysis.LastCycleOf | electrochemistry/cv.py:336-400 | A cycle exists iff the file is readable, has samples and no rate error; it is the last cycle of the samples, no longer than them, and carries the scan rate |
| CvAnalysis.SamplesCycleWindow | electrochemistry/cv.py:336-400 | The last cycle is the sample window after the last cycle start, potentials + 0.903 and currents × −1000 |
| CvAnalysis.SamplesCycle | electrochemistry/cv.py:370-396 | Specification of a file's last cycle: `LastCycle` of the sample columns at `CycleStarts`; spelled out by `SamplesCycleWindow` |
| CvAnalysis.WindowOfSamples | electrochemistry/cv.py:370-396 | For any valid starts, the cut of the sample columns is the window of the samples, shifted and scaled |
| CvAnalysis.ExtractLastCycle | electrochemistry/cv.py:336-400 | The method returns `LastCycleOf` the content |
| CvAnalysis.DeltaJ | electrochemistry/cv.py:569-581 | Δj is present iff both currents are, and it is \|reverse − forward\| |
| CvAnalysis.FileRecord | electrochemistry/cv.py:544-585 | A file gives a record iff its last cycle has a scan rate; the record holds that cycle's midpoint currents and Δj |
| CvAnalysis.InsertByElements | electrochemistry/cv.py:595 | Insertion adds exactly one element |
| CvAnalysis.InsertBySorted | electrochemistry/cv.py:595 | Insertion keeps the list sorted by key |
| CvAnalysis.SortBy | electrochemistry/cv.py:593-599 | The sort by scan rate is sorted and a permutation |
| CvAnalysis.SortStable | electrochemistry/cv.py:595 | The sort is stable: records with equal rates keep their order |
| CvAnalysis.Rates | electrochemistry/cv.py:598 | The scan rates of the records, in order |
| CvAnalysis.DeltaJs | electrochemistry/cv.py:599 | The Δj values of the records, in order |
| CvAnalysis.Summarize | electrochemistry/cv.py:587-823 | No files give None; otherwise a stable sorted permutation, its fit, and Cdl = slope × 1000 exactly when there is a fit |
| CvAnalysis.SummaryStable | electrochemistry/cv.py:595 | Rows of equal scan rate keep their input order |
| CvAnalysis.RowsComeFromFiles | electrochemistry/cv.py:544-599 | A row is reported iff some input file produces it |
| CvAnalysis.ProcessFile | electrochemistry/cv.py:544-585 | The per-file step returns `FileRecord` of the content |
| CvAnalysis.CollectRows | electrochemistry/cv.py:544-585 | The loop keeps the records of the files that give one, in order |
| CvAnalysis.ProcessCvFiles | electrochemistry/cv.py:514-823 | The batch returns `CvSummaryOf` the file contents |
| CvAnalysis.CvSummaryOf | electrochemistry/cv.py:514-823 | Specification of the CV batch: the records of the files, summarised; `ProcessCvFiles` is proved equal to it, `RowsComeFromFiles` and `SummaryStable` state its rows |
| Eis.ParseTriple | electrochemistry/eis.py:165-171 | A triple is read only from a line with at least three fields |
| Eis.ClassifyEisLine | electrochemistry/eis.py:153-178 | A line is skipped iff its stripped text is empty or starts with `//`; it is the header iff it contains the column header; a data line carries float() of its first three fields |
| Eis.EisNoHeader | electrochemistry/eis.py:159-164 | Without the header line no samples are read |
| Eis.EisAfterHeader | electrochemistry/eis.py:159-178 | The samples are the parsed lines after the first header line |
| Eis.ScanEis | electrochemistry/eis.py:152-178 | The line loop returns `EisFrom` from the first line as parallel lists |
| Eis.EisFrom | electrochemistry/eis.py:152-178 | Specification of the data-flag state machine over the lines; `ScanEis` is proved equal to it, `EisAfterHeader` gives its closed form |
| Eis.ExtractEisData | electrochemistry/eis.py:132-192 | The reader returns `EisSamples` of the file as parallel lists, empty lists for an unreadable file |
| Eis.EisSamples | electrochemistry/eis.py:132-192 | Specification of extract_eis_data: the triples of a readable file, none otherwise; characterised by `EisNoHeader` and `EisAfterHeader` |
| Eis.FirstWhere | electrochemistry/eis.py:79-90 | Finds the first line that contains one of the five ZView headers; no earlier line does |
| Eis.ClassifyZLine | electrochemistry/eis.py:93-113 | Kept lines are stripped, not comments, have at least three fields and three numbers; the scan stops exactly at a three-field line that fails to parse |
| Eis.ZViewFile | electrochemistry/eis.py:53-129 | A ZView file is written iff some line is kept; a file with no header line gives none |
| Eis.ZViewStops | electrochemistry/eis.py:107-110 | Nothing after a non-numeric three-field line is kept |
| Eis.ZViewFrom | electrochemistry/eis.py:93-113 | Specification of the export's line loop: kept lines up to the first stop line; characterised by `ZViewStops` and `ZViewVerbatim` |
| Eis.ZViewVerbatim | electrochemistry/eis.py:93-106 | Every kept line is a stripped, non-comment, three-number input line |
| Eis.SelectZViewLines | electrochemistry/eis.py:79-113 | The line loop returns `ZViewLines` |
| Eis.ZViewLines | electrochemistry/eis.py:79-113 | Specification of the export's selection: the kept lines after the first header line; `SelectZViewLines` is proved equal to it |
| Eis.GenerateZViewFile | electrochemistry/eis.py:53-129 | The method returns `ZViewFile`: no text when nothing is kept, else `ZViewText` of the kept lines |
| Eis.ZViewText | electrochemistry/eis.py:115-122 | Specification of the export's text: each kept line followed by a newline; `ZViewTextSplit` gives the lines back |
| Eis.ZViewTextSplit | electrochemistry/eis.py:115-122 | Splitting the written text at newlines gives back the kept lines, then the empty tail after the last newline |
| Eis.FirstCrossFrom | electrochemistry/eis.py:320-338 | Finds the first step where −Z″ crosses or reaches zero; no earlier step does |
| Eis.MinPositiveIn | electrochemistry/eis.py:340-346 | Finds the first index of the least positive value, or reports that there is none |
| Eis.MaxNonPositiveIn | electrochemistry/eis.py:355-361 | Finds the first index of the greatest non-positive value, or reports that there is none |
| Eis.PairAround | electrochemistry/eis.py:348-354 | One or two in-range indices containing k; a single index only for a one-point spectrum |
| Eis.CrossoverIndices | electrochemistry/eis.py:320-368 | At most two crossover indices, all in range |
| Eis.SolutionResistanceBounds | electrochemistry/eis.py:320-382 | Every non-empty spectrum gets an Rs between min Z′ and max Z′ |
| Eis.TwoPointsAveraged | electrochemistry/eis.py:370-375 | With two or more points, Rs is the mean of Z′ at two adjacent indices |
| Eis.CrossoverExample | electrochemistry/eis.py:320-375 | −Z″ = [2, −1, −3] with Z′ = [10, 12, 14] gives Rs = 11 |
| Eis.FindSolutionResistance | electrochemistry/eis.py:320-382 | The method returns `SolutionResistance` |
| Eis.SolutionResistance | electrochemistry/eis.py:320-382 | Specification of Rs: the mean Z′ of the crossover pair or one fallback point; properties in `SolutionResistanceBounds` and `TwoPointsAveraged` |
| Eis.ScanMinPositive | electrochemistry/eis.py:341-346 | The loop computes the least-positive index |
| Eis.ScanMaxNonPositive | electrochemistry/eis.py:356-361 | The loop computes the greatest-non-positive index |
| Eis.Negated | electrochemistry/eis.py:236 | −Z″ is Z″ negated element by element |
| Eis.NegatedInvolution | electrochemistry/eis.py:236 | Negating twice gives the original Z″ back |
| Eis.SpectrumOf | electrochemistry/eis.py:230-243 | A spectrum exists iff samples were read; it has the file stem as id, Z′ and −Z″ |
| Eis.SpectraWellFormed | electrochemistry/eis.py:232-243 | Every collected spectrum is non-empty with equal-length columns |
| Eis.RsEntryFits | electrochemistry/eis.py:404-409 | Every well-formed spectrum gets an Rs entry within its Z′ range |
| Eis.RsForEveryWellFormed | electrochemistry/eis.py:404-409 | Well-formed spectra give one fitting Rs entry each |
| Eis.RsForEverySpectrum | electrochemistry/eis.py:219-534 | When the report has an Rs list, it has one Rs per spectrum, with the spectrum's id and within its Z′ range |
| Eis.ProcessEisFile | electrochemistry/eis.py:219-243 | The per-file step returns `ZViewOutput` (at `ZViewPath`) and `SpectrumOf` the file |
| Eis.ZViewPath | electrochemistry/eis.py:220-226 | Specification of the export's path: `<stem>-for ZView.txt` joined to the folder; `ZViewPathName` states its name |
| Eis.ZViewPathName | electrochemistry/eis.py:220-226 | The export path lies in the folder and its file name is the input's stem followed by "-for ZView.txt" |
| Eis.ProcessInputs | electrochemistry/eis.py:219-249 | The loop returns the ZView outputs and spectra of the inputs, in order |
| Eis.FindRsEntry | electrochemistry/eis.py:320-409 | The per-spectrum step returns `RsEntry` |
| Eis.RsEntry | electrochemistry/eis.py:320-409 | Specification of one Rs entry: (file id, Rs) when Rs exists; `RsEntryFits` bounds it |
| Eis.RsEntries | electrochemistry/eis.py:404-409 | The loop returns every spectrum's `RsEntry`, in order |
| Eis.ProcessEisFiles | electrochemistry/eis.py:194-534 | The batch returns `EisReportOf`: no Rs list for no inputs or no data, the ZView outputs in every case |
| Eis.EisReportOf | electrochemistry/eis.py:194-534 | No Rs list (None) with no input path or when no file yields data, as the program returns the workbook alone there; otherwise one Rs entry per spectrum (`RsForEverySpectrum`) |
| Eis.EisFilesMembers | electrochemistry/eis.py:554-569 | A path is found iff it joins the folder with a `.txt` entry whose first 1024 characters contain "A.C. Impedance" |
| Eis.IsEisCandidate | electrochemistry/eis.py:554-569 | Specification of the EIS search test: the first 1024 characters contain "A.C. Impedance"; `EisCandidateTail` shows the rest is irrelevant |
| Eis.EisCandidateTail | electrochemistry/eis.py:567 | Text after the first 1024 characters never changes the verdict |
| Eis.FindEisFiles | electrochemistry/eis.py:544-579 | The search returns `EisFiles`: empty for a missing folder |
| Eis.EisFiles | electrochemistry/eis.py:544-579 | Specification of find_eis_files: nothing for a missing folder, else the passing `.txt` entries in listing order; characterised by `EisFilesMembers` |
| Lsv.LastNonBreak | electrochemistry/lsv.py:79 | Finds the last non-line-break position of a span, or reports that there is none |
| Lsv.FileIdAt | electrochemistry/lsv.py:79 | A `File:\s*([^\r\n,]+)` match at p is well formed, its group starts at the last possible start (the greedy `\s*`), and there is none exactly when no group can start |
| Lsv.NoStartPastRun | electrochemistry/lsv.py:79 | No group starts after the end of the whitespace run that follows `File:` |
| Lsv.NoStartInBreaks | electrochemistry/lsv.py:79 | No group starts on line breaks or at a character outside the group class |
| Lsv.FirstIdMatch | electrochemistry/lsv.py:79 | `re.search` reports a position where the pattern matches |
| Lsv.FirstIdMatchLeftmost | electrochemistry/lsv.py:79 | No position before the reported one matches |
| Lsv.SearchMatchUnique | electrochemistry/lsv.py:79 | The leftmost, greedy, maximal match is unique |
| Lsv.GreedyGroup | electrochemistry/lsv.py:79 | For "File: \n abc" the `\s*` takes the line break and the blank, and the group is [8, 11) |
| Lsv.LabelledIdGreedy | electrochemistry/lsv.py:79-81 | The identifier of "File: \n abc" is "abc" |
| Lsv.LabelledId | electrochemistry/lsv.py:79-81 | None exactly when the pattern matches nowhere; otherwise the stripped group of the leftmost, greedy match, free of line breaks and commas |
| Lsv.FileIdFallback | electrochemistry/lsv.py:82-85 | Without a `File:` label the identifier is the file-name stem |
| Lsv.FileId | electrochemistry/lsv.py:78-85 | Specification of file_id: `LabelledId` when present, else the file stem; `FileIdFallback` states the fallback |
| Lsv.GroupChars | electrochemistry/lsv.py:81 | The stripped group has no line break and no comma |
| Lsv.ExtractLsvData | electrochemistry/lsv.py:63-146 | An unreadable file gives ([], [], None); otherwise the identifier and the shared parser's samples |
| Lsv.ClosestIn | electrochemistry/lsv.py:166 | `argmin \|v − t\|`: an index of least distance, and the first such index |
| Lsv.ClosestUnique | electrochemistry/lsv.py:166 | Any first index of least distance is the argmin |
| Lsv.ClosestIndices | electrochemistry/lsv.py:148-169 | Empty values or targets give []; otherwise, for each target, the first nearest index |
| Lsv.ArgMinDistance | electrochemistry/lsv.py:166 | The scan computes the argmin |
| Lsv.FindClosestValues | electrochemistry/lsv.py:148-169 | The loop returns `ClosestIndices` |
| Lsv.AnalyzeCurve | electrochemistry/lsv.py:312-340 | The analysis keeps the file id, and all three overpotentials are N/A without currents |
| Lsv.Overpotential | electrochemistry/lsv.py:322 | Specification of one overpotential: (E − 1.23) × 1000 in mV |
| Lsv.OverpotentialAtNearest | electrochemistry/lsv.py:317-336 | For a non-empty curve, each target gets (E − 1.23) × 1000 at a sample of nearest current |
| Lsv.OverpotentialAt | electrochemistry/lsv.py:317-336 | Specification of one lookup: the overpotential at the k-th nearest index, or N/A on the IndexError branch; `OverpotentialAtNearest` states where it is taken |
| Lsv.AnalysisComplete | electrochemistry/lsv.py:312-340 | A non-empty curve gets all three overpotentials at its nearest samples |
| Lsv.AnalyzeCurveData | electrochemistry/lsv.py:312-340 | The method returns `AnalyzeCurve` |
| Lsv.CurveOf | electrochemistry/lsv.py:191-204 | A curve exists iff samples were read; it is shifted by +0.903 V and scaled by −1000 element by element |
| Lsv.Analyses | electrochemistry/lsv.py:251-340 | One analysis per curve, in order |
| Lsv.Report | electrochemistry/lsv.py:212-347 | No curves give None; otherwise the curves, their analyses and the analysis column 1 + 2n + 1 |
| Lsv.CurvesWellFormed | electrochemistry/lsv.py:195-204 | Every collected curve is non-empty with equal-length columns |
| Lsv.AnalysisRowsComplete | electrochemistry/lsv.py:191-340 | Every reported curve has a complete analysis with its own file id |
| Lsv.ProcessLsvFile | electrochemistry/lsv.py:191-204 | The per-file step returns `CurveOf` the file |
| Lsv.CollectCurves | electrochemistry/lsv.py:191-210 | The loop returns every input's `CurveOf`, in order |
| Lsv.ProcessLsvFiles | electrochemistry/lsv.py:171-464 | The batch returns `LsvReportOf` the inputs |
| Lsv.LsvReportOf | electrochemistry/lsv.py:171-464 | Specification of the LSV batch: None without curves, else curves, analyses and end column; `Report`, `CurvesWellFormed` and `AnalysisRowsComplete` state it |
| Lsv.ReportCurves | electrochemistry/lsv.py:212-347 | The method returns `Report` of the curves |
| Lsv.AnalyzeCurves | electrochemistry/lsv.py:251-347 | The loop computes the analyses and the analysis column |
| Lsv.LsvColumnWidths | electrochemistry/lsv.py:430-452 | Widths are set for columns 1 to the analysis end column, 5 for the separator and 18 elsewhere |
| Lsv.LsvWidth | electrochemistry/lsv.py:430-452 | Specification of the LSV column widths: 5 for the separator column, 18 elsewhere; `SeparatorColumn` locates the separator |
| Lsv.SeparatorColumn | electrochemistry/lsv.py:347-452 | Exactly the column before the analysis block is narrow, and it lies after every data column |
| Lsv.IsLsvCandidate | electrochemistry/lsv.py:505-528 | True iff the file is readable, has an LSV keyword and has none of the seven exclusions |
| Lsv.LsvCandidateStricter | electrochemistry/lsv.py:512-525 | The search test implies is_lsv_file, and a header containing "CV" is always rejected |
| Lsv.LsvFilesMembers | electrochemistry/lsv.py:492-529 | A path is found iff it joins the folder with a `.txt` entry the search test accepts |
| Lsv.FindLsvFiles | electrochemistry/lsv.py:484-540 | The search returns `LsvFiles` |
| Lsv.LsvFiles | electrochemistry/lsv.py:484-540 | Specification of find_lsv_files: the passing `.txt` entries in listing order; characterised by `LsvFilesMembers` |
| Tafel.Insert | electrochemistry/tafel.py:63 | Inserting into an ascending list keeps it ascending and adds exactly x |
| Tafel.SortedUnique | electrochemistry/tafel.py:63 | `sorted(set(...))` is ascending with the same elements |
| Tafel.UniqueRs | electrochemistry/tafel.py:60-66 | The Rs values are ascending, without duplicates, and are exactly the numeric rs entries |
| Tafel.AscendingDetermined | electrochemistry/tafel.py:63 | Two ascending lists with the same elements are equal |
| Tafel.UniqueRsOrderFree | electrochemistry/tafel.py:60-66 | The Rs list depends only on which numeric values occur, not on order or repetition |
| Tafel.ColumnCells | electrochemistry/tafel.py:32-33 | The cells of a column from the start row to the last row |
| Tafel.ReadCellsMembers | electrochemistry/tafel.py:32-44 | A value is read iff it comes from a convertible cell before the first empty cell |
| Tafel.CellFloat | electrochemistry/tafel.py:39-41 | Specification of float(cell value): a number as it is, text through float() |
| Tafel.ReadCellsLength | electrochemistry/tafel.py:32-44 | At most one value is read per cell |
| Tafel.ReadCells | electrochemistry/tafel.py:32-43 | Specification of the read loop: stop at the first empty cell, skip non-convertible values; characterised by `ReadCellsMembers` and `ReadCellsLength` |
| Tafel.ReadColumnData | electrochemistry/tafel.py:26-44 | The loop returns `ColumnData`: none for a missing column |
| Tafel.ColumnData | electrochemistry/tafel.py:26-44 | Specification of _read_column_data: nothing for a missing column, else the column's numbers from the start row; `ReadColumnData` is proved equal to it |
| Tafel.HeaderRow | electrochemistry/tafel.py:122-134 | The stripped string labels of the first row, one per column |
| Tafel.Label | electrochemistry/tafel.py:122-134 | Specification of a header label: the stripped text, "" for an empty cell; `HeaderRow` tabulates it |
| Tafel.IsDatasetAtMeaning | electrochemistry/tafel.py:136 | A dataset starts at c iff row 1 reads "Potential" at c and "Current Density" at c + 1 |
| Tafel.PairsApart | electrochemistry/tafel.py:126-136 | A pair needs a next column, and no pair starts inside another |
| Tafel.DatasetStartsFound | electrochemistry/tafel.py:120-255 | The scan visits exactly the pair starts, in increasing order |
| Tafel.MatchedFrom | electrochemistry/tafel.py:120-255 | Specification of the starts the +2/+1 column scan finds; through `PairColumns`, `DatasetStartsFound` states they are exactly the dataset columns |
| Tafel.Zip | electrochemistry/tafel.py:156-157 | Pairs up the potential and current columns element by element |
| Tafel.DatasetAt | electrochemistry/tafel.py:156-172 | A dataset is read iff both columns are non-empty and of equal length; it pairs their values |
| Tafel.SheetDatasetsMeaning | electrochemistry/tafel.py:120-255 | A dataset is found iff it is read at some pair start |
| Tafel.SheetDatasets | electrochemistry/tafel.py:120-255 | Specification of one sheet's datasets in column order; characterised by `SheetDatasetsMeaning` |
| Tafel.ReadHeaderRow | electrochemistry/tafel.py:122-134 | The loop computes the header labels |
| Tafel.ReadLabels | electrochemistry/tafel.py:122-134 | The label loop returns the label of every column 1..n, in order |
| Tafel.ReadDataset | electrochemistry/tafel.py:156-172 | The method returns `DatasetAt` the column |
| Tafel.ReadPair | electrochemistry/tafel.py:140-172 | The step yields the dataset at the column, if any |
| Tafel.ScanColumn | electrochemistry/tafel.py:120-255 | One scan step advances the column, and what it finds plus the rest of the scan is the scan from here |
| Tafel.ScanSheet | electrochemistry/tafel.py:117-255 | The column loop returns `SheetDatasets` |
| Tafel.ScanFrom | electrochemistry/tafel.py:117-255 | Specification of the column scan collecting what each start reads; `ScanCollects` equates it with reading at the `MatchedFrom` starts |
| Tafel.CollectDatasets | electrochemistry/tafel.py:107-114 | The sheet loop collects the datasets of the listed sheets present in the workbook |
| Tafel.AllDatasets | electrochemistry/tafel.py:107-114 | Specification of the workbook's datasets, sheet by sheet, skipping absent sheets; `CollectDatasets` is proved equal to it |
| Tafel.WrittenValue | electrochemistry/tafel.py:238-240 | NaN is written as the text "NaN", and only NaN is |
| Tafel.LogJ | electrochemistry/tafel.py:174-175 | log10\|j\| is NaN exactly when the current is zero |
| Tafel.Overpotential | electrochemistry/tafel.py:188 | The overpotential \|E − 1.23 − j·Rs·0.001\| is non-negative, and zero exactly on the iR-corrected equilibrium |
| Tafel.DatasetColumns | electrochemistry/tafel.py:180-194 | One log j column plus one overpotential column per Rs, each as long as the dataset |
| Tafel.NaNWhereZero | electrochemistry/tafel.py:175-240 | "NaN" is written in the log j column at exactly the zero-current rows |
| Tafel.LayoutFrom | electrochemistry/tafel.py:251 | There is one block per dataset |
| Tafel.LayoutStarts | electrochemistry/tafel.py:251 | Block k starts at start + k·(width + 1) |
| Tafel.LayOutBlocks | electrochemistry/tafel.py:194-251 | The loop computes the blocks and the next free column |
| Tafel.Layout | electrochemistry/tafel.py:194-251 | Specification of the Tafel blocks, one per dataset; `LayoutFrom` and `LayoutStarts` state their columns |
| Tafel.TafelColumnWidths | electrochemistry/tafel.py:266-285 | Widths are set for columns 1 to before the next free column, by position in the block |
| Tafel.TafelWidth | electrochemistry/tafel.py:266-285 | Specification of the Tafel widths by position in a block: 20, 25 or 5; characterised by `BlockWidths` |
| Tafel.BlockWidths | electrochemistry/tafel.py:272-284 | Within each block: 20 for log j, 25 for the overpotentials, 5 for the separator |
| Tafel.ProcessTafelData | electrochemistry/tafel.py:46-298 | The sheet holds the laid-out blocks of all datasets and the Rs list; widths are set only when something was written |

## Left out

- File and workbook I/O are not modelled: opening and reading files, directory listing, `os.makedirs`, Excel cell writing, styles, merged cells, borders, fonts and saving. Files become their text, and the workbook becomes the datasets and layout the program computes.
- The folder dialog, logging, progress bars, the GUI and the `main.py` driver are not modelled.
- Floating point is modelled as exact reals. NaN appears only where the program makes it (the zero-current log j); overflow and rounding of floats are not modelled.
- Python's `float()`, the numeric-pair `findall` fallback, `numpy.polyfit` and `log10` are uninterpreted parameters (`Common.Env`).
- Decoding with `errors='ignore'`: text is a sequence of characters, and undecodable bytes are assumed already dropped.
- Paths follow Windows rules without drive letters or UNC prefixes. `os.path.isfile` in the EIS search is not modelled; listing entries are taken to be files.
- `CvAnalysis.RSquared`: when ss_tot = 0 the program divides by zero; the model returns None there instead.
- LSV and Tafel file-id header text, the Tafel "Rs=…" labels and the maximum-row bookkeeping (`max_length`, `max_data_rows_written_overall`) only format cells. They are not modelled.
- `tafel.py` removes an existing "Tafel Data" sheet before writing; the model builds the sheet's contents from nothing.
- `_find_column_indices` (tafel.py:13-24) is not called by the Tafel pass and is not modelled.
- `excel_utils.py` and `main.py` are not part of this model.
- `CvParse.ExtractScanRate`: a `float()` failure on the matched digits is reported as a rate error that skips the file, matching the exception path of the batch; what was logged is not modelled.
- `Text.Lower`: `str.lower()` is modelled on ASCII letters only; a non-ASCII letter that Python lower-cases (such as the Kelvin sign to `k`) is left unchanged, so a keyword or `.txt` test can differ for such names and headers.
- `\d` in the regular expressions and the digits of the scan-rate group are ASCII only; Python also accepts other Unicode decimal digits there.
- `Eis.EisReportOf`: with no input path or no usable spectrum the program returns the workbook alone (`wb if wb else None`, `return wb`) instead of a (workbook, Rs list) pair; the model records that return as an absent Rs list and does not model the workbook object.
- `Tafel.Label`: a numeric header cell is modelled as the empty label; the program compares `str(value).strip()`, which for a number is never one of the two header texts, so the scan behaves the same.
