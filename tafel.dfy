/**
  The Tafel sheet: the sorted, de-duplicated solution resistances taken
  from the impedance results, the scan of a voltammetry sheet's first row
  for "Potential"/"Current Density" column pairs, the column reader that
  stops at the first empty cell, the log j and per-Rs overpotential columns
  of each dataset, and the block and column-width arithmetic of the sheet
  the datasets are laid out on.
 */
module Tafel {
  import opened Common
  import opened Text

  // ---------------------------------------------------------------------
  // Solution resistances
  // ---------------------------------------------------------------------

  /** The 'rs' entry of one impedance result: missing or None, a number, or
      a value of any other type. */
  datatype RsField = NoRs | NumericRs(value: real) | OtherRs

  predicate Ascending(s: seq<real>)
  {
    forall i, j :: 0 <= i < j < |s| ==> s[i] < s[j]
  }

  function RsNumber(f: RsField): Option<real>
  {
    if f.NumericRs? then Some(f.value) else None
  }

  /** x put into its place in an ascending list, unless it is there already. */
  function Insert(x: real, s: seq<real>): (r: seq<real>)
    requires Ascending(s)
    ensures Ascending(r)
    ensures forall y :: y in r <==> y == x || y in s
  {
    if s == [] then [x]
    else if x < s[0] then [x] + s
    else if x == s[0] then s
    else
      var rest := Insert(x, s[1..]);
      assert forall y :: y in s <==> y == s[0] || y in s[1..];
      assert forall k :: 0 <= k < |s[1..]| ==> s[0] < s[1..][k];
      assert forall y :: y in rest ==> s[0] < y;
      var r := [s[0]] + rest;
      assert forall j :: 0 < j < |r| ==> r[j] == rest[j - 1] && r[j] in rest;
      r
  }

  /** sorted(set(s)). */
  function SortedUnique(s: seq<real>): (r: seq<real>)
    ensures Ascending(r)
    ensures forall y :: y in r <==> y in s
  {
    if s == [] then []
    else
      assert forall y :: y in s <==> y == s[0] || y in s[1..];
      Insert(s[0], SortedUnique(s[1..]))
  }

  /** The resistances used by every overpotential column: ascending, without
      repeats, and exactly the numeric 'rs' entries of the results. */
  function UniqueRs(results: seq<RsField>): (r: seq<real>)
    ensures Ascending(r)
    ensures forall x :: x in r <==> NumericRs(x) in results
  {
    var numbers := Collect(RsNumber, results);
    forall x ensures x in numbers <==> NumericRs(x) in results {
      CollectMembers(RsNumber, results, x);
    }
    SortedUnique(numbers)
  }

  /** An ascending list is fixed by its set of elements, so the sorted,
      de-duplicated list does not depend on the order of the results. */
  lemma {:induction false} AscendingDetermined(a: seq<real>, b: seq<real>)
    requires Ascending(a) && Ascending(b)
    requires forall x :: x in a <==> x in b
    ensures a == b
  {
    assert a != [] ==> a[0] in a;
    assert b != [] ==> b[0] in b;
    if a != [] && b != [] {
      assert a[0] == b[0] by {
        assert a[0] in b && b[0] in a;
        assert forall y :: y in a ==> a[0] <= y;
        assert forall y :: y in b ==> b[0] <= y;
      }
      forall x ensures x in a[1..] <==> x in b[1..] {
        assert x in a[1..] <==> x in a && x != a[0];
        assert x in b[1..] <==> x in b && x != b[0];
      }
      AscendingDetermined(a[1..], b[1..]);
      assert a == [a[0]] + a[1..] && b == [b[0]] + b[1..];
    }
  }

  lemma UniqueRsOrderFree(r1: seq<RsField>, r2: seq<RsField>)
    requires forall x :: NumericRs(x) in r1 <==> NumericRs(x) in r2
    ensures UniqueRs(r1) == UniqueRs(r2)
  {
    AscendingDetermined(UniqueRs(r1), UniqueRs(r2));
  }

  // ---------------------------------------------------------------------
  // Worksheets
  // ---------------------------------------------------------------------

  /** The value of a non-empty worksheet cell. */
  datatype Cell = NumberCell(n: real) | TextCell(t: string)

  /** columns[c - 1][r - 1] is the cell at row r of column c; every cell
      outside the sheet's rows and columns is empty. */
  datatype Sheet = Sheet(maxRow: nat, columns: seq<seq<Option<Cell>>>)

  function CellAt(ws: Sheet, row: nat, col: nat): Option<Cell>
  {
    if 1 <= col <= |ws.columns| && 1 <= row <= ws.maxRow && row <= |ws.columns[col - 1]|
    then ws.columns[col - 1][row - 1]
    else None
  }

  /** float(cell value): a number is kept, text goes through float(). */
  function CellFloat(env: Env, v: Cell): Option<real>
  {
    match v
    case NumberCell(n) => Some(n)
    case TextCell(t) => env.parseFloat(t)
  }

  /** The cells of column col from startRow down to the sheet's last row. */
  function ColumnCells(ws: Sheet, col: nat, startRow: nat): (r: seq<Option<Cell>>)
    ensures startRow <= ws.maxRow ==> |r| == ws.maxRow + 1 - startRow
    ensures startRow > ws.maxRow ==> r == []
    ensures forall k :: 0 <= k < |r| ==> r[k] == CellAt(ws, startRow + k, col)
  {
    if startRow > ws.maxRow then []
    else seq(ws.maxRow + 1 - startRow, (k: nat) => CellAt(ws, startRow + k, col))
  }

  /** The numbers read from a run of cells: reading stops at the first empty
      cell and skips a cell whose value does not convert. */
  function ReadCells(env: Env, cells: seq<Option<Cell>>): seq<real>
  {
    if cells == [] then []
    else
      match cells[0]
      case None => []
      case Some(v) =>
        (match CellFloat(env, v) case None => [] case Some(x) => [x]) + ReadCells(env, cells[1..])
  }

  /** No cell before position k is empty. */
  predicate FilledBefore(cells: seq<Option<Cell>>, k: int)
  {
    forall j :: 0 <= j < k && j < |cells| ==> cells[j].Some?
  }

  /** A number is read exactly when its cell holds a convertible value and no
      empty cell comes before it: an unconvertible cell does not stop the
      reading, an empty one does. */
  lemma {:induction false} ReadCellsMembers(env: Env, cells: seq<Option<Cell>>, x: real)
    ensures x in ReadCells(env, cells) <==>
      exists k :: 0 <= k < |cells| && FilledBefore(cells, k) && cells[k].Some? && CellFloat(env, cells[k].value) == Some(x)
  {
    if cells != [] && cells[0].Some? {
      var rest := cells[1..];
      ReadCellsMembers(env, rest, x);
      if x in ReadCells(env, rest) {
        var k :| 0 <= k < |rest| && FilledBefore(rest, k) && rest[k].Some? && CellFloat(env, rest[k].value) == Some(x);
        assert FilledBefore(cells, k + 1) by {
          forall j | 0 <= j < k + 1 && j < |cells| ensures cells[j].Some? {
            if j > 0 { assert cells[j] == rest[j - 1]; }
          }
        }
        assert cells[k + 1] == rest[k];
      }
      if exists k :: 0 <= k < |cells| && FilledBefore(cells, k) && cells[k].Some? && CellFloat(env, cells[k].value) == Some(x) {
        var k :| 0 <= k < |cells| && FilledBefore(cells, k) && cells[k].Some? && CellFloat(env, cells[k].value) == Some(x);
        if k > 0 {
          assert FilledBefore(rest, k - 1) by {
            forall j | 0 <= j < k - 1 && j < |rest| ensures rest[j].Some? {
              assert rest[j] == cells[j + 1];
            }
          }
          assert rest[k - 1] == cells[k];
        }
      }
    }
  }

  lemma {:induction false} ReadCellsLength(env: Env, cells: seq<Option<Cell>>)
    ensures |ReadCells(env, cells)| <= |cells|
  {
    if cells != [] && cells[0].Some? {
      ReadCellsLength(env, cells[1..]);
    }
  }

  /** _read_column_data: nothing for a missing column, otherwise the numbers
      of the column from startRow on. */
  function ColumnData(env: Env, ws: Sheet, colIdx: Option<nat>, startRow: nat): seq<real>
  {
    if colIdx.None? then [] else ReadCells(env, ColumnCells(ws, colIdx.value, startRow))
  }

  method ReadColumnData(env: Env, ws: Sheet, colIdx: Option<nat>, startRow: nat) returns (data: seq<real>)
    ensures data == ColumnData(env, ws, colIdx, startRow)
  {
    if colIdx.None? {
      return [];
    }
    var col := colIdx.value;
    ghost var cells := ColumnCells(ws, col, startRow);
    data := [];
    var r := startRow;
    while r <= ws.maxRow
      invariant startRow <= r && r - startRow <= |cells|
      invariant data + ReadCells(env, cells[r - startRow..]) == ReadCells(env, cells)
      decreases ws.maxRow + 1 - r
    {
      var v := CellAt(ws, r, col);
      assert r - startRow < |cells| == ws.maxRow + 1 - startRow;
      assert cells[r - startRow..][0] == v;
      assert cells[r - startRow..][1..] == cells[r + 1 - startRow..];
      if v.None? {
        assert ReadCells(env, cells[r - startRow..]) == [] && data + [] == data;
        break;
      }
      var x := CellFloat(env, v.value);
      ghost var rest := ReadCells(env, cells[r + 1 - startRow..]);
      if x.Some? {
        assert data + [x.value] + rest == data + ([x.value] + rest);
        data := data + [x.value];
      } else {
        assert [] + rest == rest;
      }
      r := r + 1;
    }
    assert r > ws.maxRow ==> cells[r - startRow..] == [] && data + [] == data;
  }

  // ---------------------------------------------------------------------
  // Scanning the first row for datasets
  // ---------------------------------------------------------------------

  const PotentialHeader := "Potential"
  const CurrentDensityHeader := "Current Density"
  /** Data rows of the voltammetry sheet start at row 5. */
  const DataStartRow: nat := 5

  /** str(value).strip() of a header cell, "" for an empty one. A number's
      printed form is a numeral, which is neither header word, so numbers
      are given the empty label. */
  function Label(v: Option<Cell>): string
  {
    match v
    case None => ""
    case Some(TextCell(t)) => Strip(t)
    case Some(NumberCell(_)) => ""
  }

  /** The labels of the first row, column by column (column c at c - 1). */
  function HeaderRow(ws: Sheet): (r: seq<string>)
    ensures |r| == |ws.columns|
    ensures forall k :: 0 <= k < |r| ==> r[k] == Label(CellAt(ws, 1, k + 1))
  {
    Tabulate(LabelReader(ws), |ws.columns|)
  }

  /** f at 1, 2, ..., n. */
  function Tabulate<T>(f: nat -> T, n: nat): (r: seq<T>)
    ensures |r| == n && forall k :: 0 <= k < n ==> r[k] == f(k + 1)
  {
    seq(n, k requires 0 <= k < n => f(k + 1))
  }

  /** The label of column c of the first row. */
  function LabelReader(ws: Sheet): nat -> string
  {
    (c: nat) => Label(CellAt(ws, 1, c))
  }

  /** In a row of labels, column c reads "Potential" and column c + 1,
      which must exist, reads "Current Density". */
  predicate PairStartsAt(labels: seq<string>, c: nat)
  {
    1 <= c && c + 1 <= |labels| && labels[c - 1] == PotentialHeader && labels[c] == CurrentDensityHeader
  }

  function PairTest(labels: seq<string>): nat -> bool
  {
    (c: nat) => PairStartsAt(labels, c)
  }

  /** A dataset starts at column c of the sheet. */
  predicate IsDatasetAt(ws: Sheet, c: nat)
  {
    PairStartsAt(HeaderRow(ws), c)
  }

  /** The test the scan applies: column c's label is "Potential" and the
      next column's is "Current Density", a missing column reading "". */
  lemma IsDatasetAtMeaning(ws: Sheet, c: nat)
    ensures IsDatasetAt(ws, c)
      <==> Label(CellAt(ws, 1, c)) == PotentialHeader && Label(CellAt(ws, 1, c + 1)) == CurrentDensityHeader
  {
    assert |CurrentDensityHeader| != 0 && |PotentialHeader| != 0;
  }

  function StartTest(ws: Sheet): nat -> bool
  {
    PairTest(HeaderRow(ws))
  }

  /** The columns, from col on, where the scan finds a start: after a match
      it moves on by two columns, otherwise by one. */
  function MatchedFrom(isStart: nat -> bool, maxColumn: nat, col: nat): seq<nat>
    decreases maxColumn + 1 - col
  {
    if col > maxColumn then []
    else if isStart(col) then [col] + MatchedFrom(isStart, maxColumn, col + 2)
    else MatchedFrom(isStart, maxColumn, col + 1)
  }

  /** r lies between lo and hi, in increasing order, at least two apart. */
  predicate Spread(r: seq<nat>, lo: nat, hi: nat)
  {
    (forall i :: 0 <= i < |r| ==> lo <= r[i] <= hi)
    && (forall i, j :: 0 <= i < j < |r| ==> r[i] + 2 <= r[j])
  }

  /** The columns found lie between col and the last column, in increasing
      order, at least two apart. */
  lemma {:induction false} MatchedOrdered(isStart: nat -> bool, maxColumn: nat, col: nat)
    ensures Spread(MatchedFrom(isStart, maxColumn, col), col, maxColumn)
    decreases maxColumn + 1 - col
  {
    if col <= maxColumn {
      if isStart(col) {
        MatchedOrdered(isStart, maxColumn, col + 2);
        var rest := MatchedFrom(isStart, maxColumn, col + 2);
        var r := [col] + rest;
        assert MatchedFrom(isStart, maxColumn, col) == r;
        assert forall i :: 0 < i < |r| ==> r[i] == rest[i - 1];
        assert forall i :: 0 <= i < |rest| ==> col + 2 <= rest[i] <= maxColumn;
        assert forall i :: 0 <= i < |r| ==> col <= r[i] <= maxColumn;
      } else {
        MatchedOrdered(isStart, maxColumn, col + 1);
        assert MatchedFrom(isStart, maxColumn, col) == MatchedFrom(isStart, maxColumn, col + 1);
      }
    }
  }

  /** When a start is never followed by another start, the scan finds every
      start and nothing else. */
  lemma {:induction false} MatchedExactly(isStart: nat -> bool, maxColumn: nat, col: nat, c: nat)
    requires forall d: nat :: isStart(d) ==> d + 1 <= maxColumn && !isStart(d + 1)
    ensures c in MatchedFrom(isStart, maxColumn, col) <==> col <= c && isStart(c)
    decreases maxColumn + 1 - col
  {
    if col <= maxColumn {
      if isStart(col) {
        MatchedExactly(isStart, maxColumn, col + 2, c);
        assert !isStart(col + 1);
      } else {
        MatchedExactly(isStart, maxColumn, col + 1, c);
      }
    }
  }

  /** The scan proper: from col on, a start contributes what read yields
      there, if anything, and the scan resumes two columns on; any other
      column is passed over. */
  function ScanFrom<D>(isStart: nat -> bool, read: nat -> Option<D>, maxColumn: nat, col: nat): seq<D>
    decreases maxColumn + 1 - col
  {
    if col > maxColumn then []
    else if isStart(col) then
      (match read(col) case None => [] case Some(d) => [d]) + ScanFrom(isStart, read, maxColumn, col + 2)
    else ScanFrom(isStart, read, maxColumn, col + 1)
  }

  /** The scan yields what read gives at the matched columns, in order. */
  lemma {:induction false} ScanCollects<D>(isStart: nat -> bool, read: nat -> Option<D>, maxColumn: nat, col: nat)
    ensures ScanFrom(isStart, read, maxColumn, col) == Collect(read, MatchedFrom(isStart, maxColumn, col))
    decreases maxColumn + 1 - col
  {
    if col <= maxColumn {
      if isStart(col) {
        ScanCollects(isStart, read, maxColumn, col + 2);
        CollectCons(read, col, MatchedFrom(isStart, maxColumn, col + 2));
      } else {
        ScanCollects(isStart, read, maxColumn, col + 1);
      }
    }
  }

  /** One step of the scan: at a start it takes what read yields there and
      resumes two columns on; elsewhere it resumes at the next column. */
  lemma ScanUnfold<D>(isStart: nat -> bool, read: nat -> Option<D>, maxColumn: nat, col: nat)
    requires col <= maxColumn
    ensures isStart(col) ==> (ScanFrom(isStart, read, maxColumn, col)
      == (if read(col).Some? then [read(col).value] else []) + ScanFrom(isStart, read, maxColumn, col + 2))
    ensures !isStart(col) ==> ScanFrom(isStart, read, maxColumn, col) == ScanFrom(isStart, read, maxColumn, col + 1)
  {
  }

  /** The columns where the scan of a sheet finds a dataset. */
  function PairColumns(ws: Sheet): seq<nat>
  {
    MatchedFrom(StartTest(ws), |ws.columns|, 1)
  }

  /** A pair never starts in the column right after another pair's start,
      which holds "Current Density", and a pair's second column exists. */
  lemma PairsApart(ws: Sheet, d: nat)
    requires IsDatasetAt(ws, d)
    ensures d + 1 <= |ws.columns| && !IsDatasetAt(ws, d + 1)
  {
    assert |CurrentDensityHeader| != |PotentialHeader| && |CurrentDensityHeader| != 0;
  }

  /** The scan of a sheet finds a dataset at exactly the columns whose first
      row reads "Potential" followed by "Current Density", and finds them in
      increasing order, at least two columns apart. */
  lemma DatasetStartsFound(ws: Sheet, c: nat)
    ensures c in PairColumns(ws) <==> IsDatasetAt(ws, c)
    ensures Spread(PairColumns(ws), 1, |ws.columns|)
  {
    forall d: nat | StartTest(ws)(d) ensures d + 1 <= |ws.columns| && !StartTest(ws)(d + 1) {
      PairsApart(ws, d);
    }
    MatchedExactly(StartTest(ws), |ws.columns|, 1, c);
    MatchedOrdered(StartTest(ws), |ws.columns|, 1);
    if IsDatasetAt(ws, c) {
      assert |PotentialHeader| != 0;
    }
  }

  /** One Potential and current-density pair per data row. */
  datatype Dataset = Dataset(points: seq<(real, real)>)

  /** The rows of two columns of the same length, side by side. */
  function Zip(p: seq<real>, j: seq<real>): (r: seq<(real, real)>)
    requires |p| == |j|
    ensures |r| == |p| && forall k :: 0 <= k < |p| ==> r[k] == (p[k], j[k])
  {
    seq(|p|, k requires 0 <= k < |p| => (p[k], j[k]))
  }

  /** The dataset whose columns start at c, or None when either column
      reads empty or the two differ in length. */
  function DatasetAt(env: Env, ws: Sheet, c: nat): (r: Option<Dataset>)
    ensures
      var p := ColumnData(env, ws, Some(c), DataStartRow);
      var j := ColumnData(env, ws, Some(c + 1), DataStartRow);
      (r.Some? <==> 0 < |p| && 0 < |j| && |p| == |j|)
      && (r.Some? ==> |r.value.points| == |p| && forall k :: 0 <= k < |p| ==> r.value.points[k] == (p[k], j[k]))
  {
    var p := ColumnData(env, ws, Some(c), DataStartRow);
    var j := ColumnData(env, ws, Some(c + 1), DataStartRow);
    if |p| == 0 || |j| == 0 || |p| != |j| then None else Some(Dataset(Zip(p, j)))
  }

  function DatasetReader(env: Env, ws: Sheet): nat -> Option<Dataset>
  {
    (c: nat) => DatasetAt(env, ws, c)
  }

  /** The datasets of one sheet, in column order. */
  function SheetDatasets(env: Env, ws: Sheet): seq<Dataset>
  {
    ScanFrom(StartTest(ws), DatasetReader(env, ws), |ws.columns|, 1)
  }

  /** The datasets of a sheet are those read at its dataset columns, in
      column order; so a dataset is found exactly when some column starts a
      pair whose two columns read non-empty and of equal length. */
  lemma SheetDatasetsMeaning(env: Env, ws: Sheet, d: Dataset)
    ensures SheetDatasets(env, ws) == Collect(DatasetReader(env, ws), PairColumns(ws))
    ensures d in SheetDatasets(env, ws) <==> exists c :: IsDatasetAt(ws, c) && DatasetAt(env, ws, c) == Some(d)
  {
    var cols := PairColumns(ws);
    ScanCollects(StartTest(ws), DatasetReader(env, ws), |ws.columns|, 1);
    CollectMembers(DatasetReader(env, ws), cols, d);
    if d in SheetDatasets(env, ws) {
      var j :| 0 <= j < |cols| && DatasetReader(env, ws)(cols[j]) == Some(d);
      DatasetStartsFound(ws, cols[j]);
    }
    if exists c :: IsDatasetAt(ws, c) && DatasetAt(env, ws, c) == Some(d) {
      var c :| IsDatasetAt(ws, c) && DatasetAt(env, ws, c) == Some(d);
      DatasetStartsFound(ws, c);
      var j :| 0 <= j < |cols| && cols[j] == c;
      assert DatasetReader(env, ws)(cols[j]) == Some(d);
    }
  }

  /** str(value).strip() of every first-row cell, column by column. */
  method ReadHeaderRow(ws: Sheet) returns (labels: seq<string>)
    ensures labels == HeaderRow(ws)
  {
    labels := ReadLabels(LabelReader(ws), |ws.columns|);
    assert HeaderRow(ws) == Tabulate(LabelReader(ws), |ws.columns|);
  }

  /** The labels of columns 1 to n, in order. */
  method ReadLabels(labelOf: nat -> string, n: nat) returns (labels: seq<string>)
    ensures labels == Tabulate(labelOf, n)
  {
    labels := [];
    for c := 1 to n + 1
      invariant |labels| == c - 1
      invariant forall k :: 0 <= k < c - 1 ==> labels[k] == labelOf(k + 1)
    {
      labels := labels + [labelOf(c)];
    }
  }

  /** The two columns of the pair at col, read from the first data row. */
  method ReadDataset(env: Env, ws: Sheet, col: nat) returns (d: Option<Dataset>)
    ensures d == DatasetAt(env, ws, col)
  {
    var p := ReadColumnData(env, ws, Some(col), DataStartRow);
    var j := ReadColumnData(env, ws, Some(col + 1), DataStartRow);
    if |p| == 0 || |j| == 0 || |p| != |j| {
      return None;
    }
    d := Some(Dataset(Zip(p, j)));
  }

  /** The pair found at col: its dataset, if its data is usable. */
  method ReadPair(env: Env, ws: Sheet, col: nat) returns (found: seq<Dataset>)
    ensures found == (if DatasetReader(env, ws)(col).Some? then [DatasetReader(env, ws)(col).value] else [])
  {
    var d := ReadDataset(env, ws, col);
    // a pair whose data is unusable is passed over like a good one
    found := if d.Some? then [d.value] else [];
  }

  /** One step of the scan at col, with the first-row labels at hand: the
      dataset found there, if any, and the column where the scan resumes. */
  method ScanColumn(env: Env, ws: Sheet, labels: seq<string>, col: nat) returns (found: seq<Dataset>, next: nat)
    requires col <= |ws.columns|
    ensures col < next
    ensures found + ScanFrom(PairTest(labels), DatasetReader(env, ws), |ws.columns|, next)
      == ScanFrom(PairTest(labels), DatasetReader(env, ws), |ws.columns|, col)
  {
    var potentialLabel := if 1 <= col <= |labels| then labels[col - 1] else "";
    // the next column is looked at only when the sheet has it
    var densityLabel := if 1 <= col && col + 1 <= |labels| then labels[col] else "";
    var isPair := potentialLabel == PotentialHeader && densityLabel == CurrentDensityHeader;
    assert isPair == PairTest(labels)(col) by {
      assert |PotentialHeader| != 0 && |CurrentDensityHeader| != 0;
    }
    ScanUnfold(PairTest(labels), DatasetReader(env, ws), |ws.columns|, col);
    if isPair {
      found := ReadPair(env, ws, col);
      next := col + 2;
    } else {
      found := [];
      next := col + 1;
      ghost var rest := ScanFrom(PairTest(labels), DatasetReader(env, ws), |ws.columns|, next);
      assert [] + rest == rest;
    }
  }

  method ScanSheet(env: Env, ws: Sheet) returns (datasets: seq<Dataset>)
    ensures datasets == SheetDatasets(env, ws)
  {
    var labels := ReadHeaderRow(ws);
    var maxColumn := |ws.columns|;
    var col: nat := 1;
    datasets := [];
    while col <= maxColumn
      invariant datasets + ScanFrom(PairTest(labels), DatasetReader(env, ws), maxColumn, col)
        == ScanFrom(PairTest(labels), DatasetReader(env, ws), maxColumn, 1)
      decreases maxColumn + 1 - col
    {
      var found, next := ScanColumn(env, ws, labels, col);
      ghost var rest := ScanFrom(PairTest(labels), DatasetReader(env, ws), maxColumn, next);
      assert datasets + found + rest == datasets + (found + rest);
      datasets := datasets + found;
      col := next;
    }
  }

  /** The datasets of every named sheet the workbook holds, sheet by sheet;
      a name without a sheet is skipped. */
  function AllDatasets(env: Env, wb: map<string, Sheet>, names: seq<string>): seq<Dataset>
  {
    if names == [] then []
    else (if names[0] in wb then SheetDatasets(env, wb[names[0]]) else []) + AllDatasets(env, wb, names[1..])
  }

  method CollectDatasets(env: Env, wb: map<string, Sheet>, names: seq<string>) returns (datasets: seq<Dataset>)
    ensures datasets == AllDatasets(env, wb, names)
  {
    datasets := [];
    for i := 0 to |names|
      invariant datasets + AllDatasets(env, wb, names[i..]) == AllDatasets(env, wb, names)
    {
      assert names[i..][1..] == names[i + 1..];
      ghost var rest := AllDatasets(env, wb, names[i + 1..]);
      if names[i] in wb {
        var found := ScanSheet(env, wb[names[i]]);
        assert datasets + found + rest == datasets + (found + rest);
        datasets := datasets + found;
      } else {
        assert [] + rest == rest;
      }
    }
  }

  // ---------------------------------------------------------------------
  // Columns of one dataset
  // ---------------------------------------------------------------------

  /** A value written to the sheet: a number, or NaN. */
  datatype Value = NaN | Val(x: real)

  /** What a cell receives: NaN is written as the text "NaN". */
  datatype Written = WrittenText(s: string) | WrittenNumber(x: real)

  function WrittenValue(v: Value): (w: Written)
    ensures w == WrittenText("NaN") <==> v.NaN?
  {
    match v
    case NaN => WrittenText("NaN")
    case Val(x) => WrittenNumber(x)
  }

  const EquilibriumPotential := 1.23

  /** log10 |j| with j in A cm⁻² (the mA value over 1000), NaN where j is 0. */
  function LogJ(env: Env, jmA: real): (v: Value)
    ensures v.NaN? <==> jmA == 0.0
  {
    var ja := jmA / 1000.0;
    if Abs(ja) > 0.0 then Val(env.log10(Abs(ja))) else NaN
  }

  /** |(E − 1.23) − j·Rs·0.001| with j in mA cm⁻². */
  function Overpotential(potential: real, jmA: real, rs: real): (eta: real)
    ensures eta >= 0.0
    ensures eta == 0.0 <==> potential - EquilibriumPotential == jmA * rs * 0.001
  {
    Abs((potential - EquilibriumPotential) - jmA * rs * 0.001)
  }

  /** The log j column followed by one overpotential column per resistance. */
  function DatasetColumns(env: Env, d: Dataset, rsValues: seq<real>): (r: seq<seq<Value>>)
    ensures |r| == 1 + |rsValues|
    ensures forall c :: 0 <= c < |r| ==> |r[c]| == |d.points|
    ensures forall k :: 0 <= k < |d.points| ==> (r[0][k].NaN? <==> d.points[k].1 == 0.0)
    ensures forall i :: 0 <= i < |rsValues| ==> forall k :: 0 <= k < |d.points| ==>
      r[i + 1][k] == Val(Overpotential(d.points[k].0, d.points[k].1, rsValues[i]))
  {
    var logColumn := Map((pt: (real, real)) => LogJ(env, pt.1), d.points);
    var overpotentials := Map((rs: real) => Map((pt: (real, real)) => Val(Overpotential(pt.0, pt.1, rs)), d.points), rsValues);
    [logColumn] + overpotentials
  }

  /** Where log j is NaN, and so where the text "NaN" is written: exactly the
      rows whose current density is zero. */
  lemma NaNWhereZero(env: Env, d: Dataset, rsValues: seq<real>, k: nat)
    requires k < |d.points|
    ensures WrittenValue(DatasetColumns(env, d, rsValues)[0][k]) == WrittenText("NaN") <==> d.points[k].1 == 0.0
  {
  }

  // ---------------------------------------------------------------------
  // Block layout and column widths
  // ---------------------------------------------------------------------

  /** A dataset's columns, placed from column start on. */
  datatype Block = Block(start: nat, columns: seq<seq<Value>>)

  /** The blocks of the datasets, the first at column start, each of width
      columns and followed by one blank separator column. */
  function LayoutFrom(columnsOf: Dataset -> seq<seq<Value>>, width: nat, ds: seq<Dataset>, start: nat): (r: seq<Block>)
    ensures |r| == |ds|
  {
    if ds == [] then []
    else [Block(start, columnsOf(ds[0]))] + LayoutFrom(columnsOf, width, ds[1..], start + width + 1)
  }

  function ColumnsOf(env: Env, rsValues: seq<real>): Dataset -> seq<seq<Value>>
  {
    d => DatasetColumns(env, d, rsValues)
  }

  /** The Tafel sheet's blocks: one per dataset, 1 + |rsValues| columns wide. */
  function Layout(env: Env, ds: seq<Dataset>, rsValues: seq<real>): seq<Block>
  {
    LayoutFrom(ColumnsOf(env, rsValues), 1 + |rsValues|, ds, 1)
  }

  /** One block per dataset; block k holds the columns of dataset k and
      starts k·(width + 1) columns after the first. */
  lemma {:induction false} LayoutStarts(columnsOf: Dataset -> seq<seq<Value>>, width: nat, ds: seq<Dataset>, start: nat, k: nat)
    requires k < |ds|
    ensures |LayoutFrom(columnsOf, width, ds, start)| == |ds|
    ensures LayoutFrom(columnsOf, width, ds, start)[k] == Block(start + k * (width + 1), columnsOf(ds[k]))
  {
    if k > 0 {
      LayoutStarts(columnsOf, width, ds[1..], start + width + 1, k - 1);
      assert (k - 1) * (width + 1) + width + 1 == k * (width + 1);
    } else if |ds| > 1 {
      LayoutStarts(columnsOf, width, ds[1..], start + width + 1, 0);
    }
  }

  method LayOutBlocks(columnsOf: Dataset -> seq<seq<Value>>, width: nat, ds: seq<Dataset>) returns (blocks: seq<Block>, nextStart: nat)
    ensures blocks == LayoutFrom(columnsOf, width, ds, 1)
    ensures nextStart == 1 + |ds| * (width + 1)
  {
    blocks := [];
    nextStart := 1;
    for k := 0 to |ds|
      invariant nextStart == 1 + k * (width + 1)
      invariant blocks + LayoutFrom(columnsOf, width, ds[k..], nextStart) == LayoutFrom(columnsOf, width, ds, 1)
    {
      assert ds[k..][1..] == ds[k + 1..];
      blocks := blocks + [Block(nextStart, columnsOf(ds[k]))];
      assert (k + 1) * (width + 1) == k * (width + 1) + width + 1;
      nextStart := nextStart + width + 1;
    }
    assert ds[|ds|..] == [];
  }

  const LogWidth: nat := 20
  const OverpotentialWidth: nat := 25
  const SeparatorWidth: nat := 5

  /** The width of sheet column c when every dataset has cols columns. */
  function TafelWidth(cols: nat, c: nat): nat
    requires c >= 1
  {
    var pos := (c - 1) % (cols + 1);
    if pos == 0 then LogWidth
    else if pos < cols then OverpotentialWidth
    else SeparatorWidth
  }

  /** The widths of columns 1 .. nextStart - 1. */
  method TafelColumnWidths(nextStart: nat, cols: nat) returns (widths: map<nat, nat>)
    ensures forall c :: c in widths <==> 1 <= c < nextStart
    ensures forall c :: c in widths ==> c >= 1 && widths[c] == TafelWidth(cols, c)
  {
    widths := map[];
    var c: nat := 1;
    while c < nextStart
      invariant 1 <= c && (c == 1 || c <= nextStart)
      invariant forall d :: d in widths <==> 1 <= d < c
      invariant forall d :: d in widths ==> d >= 1 && widths[d] == TafelWidth(cols, d)
    {
      var pos := (c - 1) % (cols + 1);
      if pos == 0 {
        widths := widths[c := LogWidth];
      } else if pos < cols {
        widths := widths[c := OverpotentialWidth];
      } else if pos == cols {
        widths := widths[c := SeparatorWidth];
      }
      c := c + 1;
    }
  }

  lemma MulBetween(g: int, t: int)
    requires g > 0 && -g < t * g < g
    ensures t == 0
  {
    if t >= 1 {
      MulMonotone(g, 1, t);
    } else if t <= -1 {
      MulMonotone(g, t, -1);
    }
  }

  /** Dafny's remainder, like Python's for a positive divisor, of q·g + off. */
  lemma ModOffset(q: nat, g: nat, off: nat)
    requires off < g
    ensures (q * g + off) % g == off
  {
    var x := q * g + off;
    var d := x / g;
    var r := x % g;
    assert x == d * g + r && 0 <= r < g;
    assert (d - q) * g == off - r;
    MulBetween(g, d - q);
  }

  /** Column off of block k gets the log width at its first column, the
      overpotential width at the others, and the separator width just after
      the block, and every such column lies before the next free column. */
  lemma BlockWidths(columnsOf: Dataset -> seq<seq<Value>>, width: nat, ds: seq<Dataset>, k: nat, off: nat)
    requires k < |ds| && off <= width
    ensures
      var b := LayoutFrom(columnsOf, width, ds, 1)[k];
      b.start == 1 + k * (width + 1)
      && b.start + off < 1 + |ds| * (width + 1)
      && TafelWidth(width, b.start + off)
         == (if off == 0 then LogWidth else if off < width then OverpotentialWidth else SeparatorWidth)
  {
    var g := width + 1;
    LayoutStarts(columnsOf, width, ds, 1, k);
    ModOffset(k, g, off);
    assert (k + 1) * g == k * g + g;
    MulMonotone(g, k + 1, |ds|);
  }

  // ---------------------------------------------------------------------
  // The Tafel sheet
  // ---------------------------------------------------------------------

  /** The blocks of every dataset, the next free column, and the column
      widths, which are set only when some block was written. */
  method ProcessTafelData(env: Env, wb: map<string, Sheet>, results: seq<RsField>, names: seq<string>)
    returns (blocks: seq<Block>, nextStart: nat, widths: map<nat, nat>)
    ensures blocks == Layout(env, AllDatasets(env, wb, names), UniqueRs(results))
    ensures nextStart == 1 + |blocks| * (|UniqueRs(results)| + 2)
    ensures nextStart == 1 ==> widths == map[]
    ensures nextStart > 1 ==> forall c :: c in widths <==> 1 <= c < nextStart
    ensures forall c :: c in widths ==> c >= 1 && widths[c] == TafelWidth(|UniqueRs(results)| + 1, c)
  {
    var rsValues := UniqueRs(results);
    var datasets := CollectDatasets(env, wb, names);
    blocks, nextStart := LayOutBlocks(ColumnsOf(env, rsValues), 1 + |rsValues|, datasets);
    widths := map[];
    if nextStart > 1 {
      widths := TafelColumnWidths(nextStart, 1 + |rsValues|);
    }
  }
}
