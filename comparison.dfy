/** The comparison walk of `compare_files` once both workbooks are loaded
    (src/compare.py:99-130), as functions that give the findings it
    reports. `Reporting.Report` runs the walk step by step and is proved to
    report exactly these; the modules `ColumnProperties` and
    `BookProperties` prove what the walk promises. */
module Comparison {
  import opened Wrappers
  import opened Cells
  import opened Workbooks

  /** The bounded cell loop stops once more than this many mismatches have
      been reported (`diffs > 3`, src/compare.py:125). */
  const BreakAfter := 3

  function Min(a: nat, b: nat): nat {
    if a <= b then a else b
  }

  /** A cell's term in the column sum: the sum skips NaN. */
  function Contribution(c: Cell): int {
    match ConvertToFloat(c)
    case Value(v) => v
    case NaN => 0
  }

  /** `column.map(convert_to_float).sum()` (src/compare.py:115-116). */
  function ColumnSum(col: Column): int
    decreases |col|
  {
    if col == [] then 0 else ColumnSum(col[..|col| - 1]) + Contribution(col[|col| - 1])
  }

  /** The rows below `n` whose cells mismatch. */
  function MismatchRows(c1: Column, c2: Column, n: nat): set<int>
    requires n <= |c1| && n <= |c2|
  {
    set r | 0 <= r < n && IsMismatch(c1[r], c2[r])
  }

  /** The cell findings of rows `0 .. n - 1`, in row order: one per
      mismatching row, the row counted from 1 (src/compare.py:121-124). */
  function CellDiffs(sheet: string, col: nat, c1: Column, c2: Column, n: nat): seq<Finding>
    requires n <= |c1| && n <= |c2|
    decreases n
  {
    if n == 0 then []
    else
      CellDiffs(sheet, col, c1, c2, n - 1)
      + (if IsMismatch(c1[n - 1], c2[n - 1]) then [CellDiffers(sheet, col, n, c1[n - 1], c2[n - 1])] else [])
  }

  /** Every cell finding of the rows the two columns share. */
  function AllCellDiffs(sheet: string, col: nat, c1: Column, c2: Column): seq<Finding> {
    CellDiffs(sheet, col, c1, c2, Min(|c1|, |c2|))
  }

  /** The findings the cell loop reports out of `diffs`: all of them in full
      mode, otherwise those up to the one at which it breaks. */
  function Bounded(diffs: seq<Finding>, fullComp: bool): seq<Finding> {
    if fullComp || |diffs| <= BreakAfter + 1 then diffs else diffs[..BreakAfter + 1]
  }

  /** One column present in both sheets (src/compare.py:113-126): nothing if
      the checksums agree; otherwise the sum finding, followed, when cell
      comparison is asked for, by the cell findings. */
  function ColumnFindings(sheet: string, col: nat, c1: Column, c2: Column, cellComp: bool, fullComp: bool): seq<Finding> {
    var sum1, sum2 := ColumnSum(c1), ColumnSum(c2);
    if sum1 == sum2 then []
    else
      [ColumnSumDiffers(sheet, col, sum1, sum2)]
      + (if cellComp || fullComp then Bounded(AllCellDiffs(sheet, col, c1, c2), fullComp) else [])
  }

  /** Column `j` of the first sheet, `c1`, against the second sheet's
      columns: compared if the second sheet has that index, otherwise
      reported missing with its first cell (src/compare.py:112-128). */
  function ColumnEntry(sheet: string, j: nat, c1: Column, cols2: seq<Column>, cellComp: bool, fullComp: bool): seq<Finding>
    requires j >= |cols2| ==> |c1| > 0
  {
    if j < |cols2| then ColumnFindings(sheet, j, c1, cols2[j], cellComp, fullComp)
    else [ColumnMissing(sheet, j, c1[0])]
  }

  /** The first `n` columns of the first sheet, in index order
      (src/compare.py:110). */
  function ColumnsUpTo(sheet: string, cols1: seq<Column>, cols2: seq<Column>, cellComp: bool, fullComp: bool, n: nat): seq<Finding>
    requires ColumnsReadable(cols1, cols2) && n <= |cols1|
    decreases n
  {
    if n == 0 then []
    else ColumnsUpTo(sheet, cols1, cols2, cellComp, fullComp, n - 1) + ColumnEntry(sheet, n - 1, cols1[n - 1], cols2, cellComp, fullComp)
  }

  /** A report holding the first `n` columns' findings, extended by those of
      column `n`, holds the first `n + 1` columns' findings. */
  lemma ColumnsUpToExtend(log: seq<Finding>, sheet: string, cols1: seq<Column>, cols2: seq<Column>, cellComp: bool, fullComp: bool, n: nat)
    requires ColumnsReadable(cols1, cols2) && n < |cols1|
    ensures log + ColumnsUpTo(sheet, cols1, cols2, cellComp, fullComp, n + 1)
      == (log + ColumnsUpTo(sheet, cols1, cols2, cellComp, fullComp, n)) + ColumnEntry(sheet, n, cols1[n], cols2, cellComp, fullComp)
  {
    AppendAssoc(log, ColumnsUpTo(sheet, cols1, cols2, cellComp, fullComp, n), ColumnEntry(sheet, n, cols1[n], cols2, cellComp, fullComp));
  }

  /** Every column of the first sheet. */
  function ColumnsFindings(sheet: string, cols1: seq<Column>, cols2: seq<Column>, cellComp: bool, fullComp: bool): seq<Finding>
    requires ColumnsReadable(cols1, cols2)
  {
    ColumnsUpTo(sheet, cols1, cols2, cellComp, fullComp, |cols1|)
  }

  /** Two sheets of the same name (src/compare.py:105-128): the column count
      is compared, then the row count, and only equal row counts go on to
      the columns. */
  function SheetFindings(sheet: string, s1: Sheet, s2: Sheet, cellComp: bool, fullComp: bool): seq<Finding>
    requires SheetsReadable(s1, s2)
  {
    (if |s1.columns| != |s2.columns| then [ColumnCount(sheet, |s1.columns|, |s2.columns|)] else [])
    + (if s1.rows != s2.rows then [RowCount(sheet, s1.rows, s2.rows)]
       else ColumnsFindings(sheet, s1.columns, s2.columns, cellComp, fullComp))
  }

  /** One sheet of the first workbook: compared with the second workbook's
      sheet of that name, or reported not found (src/compare.py:103-104, 129-130). */
  function SheetEntry(name: string, s1: Sheet, b2: Book, cellComp: bool, fullComp: bool): seq<Finding>
    requires Lookup(b2, name).Some? ==> SheetsReadable(s1, Lookup(b2, name).value)
  {
    match Lookup(b2, name)
    case Some(s2) => SheetFindings(name, s1, s2, cellComp, fullComp)
    case None => [SheetMissing(name)]
  }

  /** The first `n` sheets of `b1`, in order (src/compare.py:102). */
  function SheetsUpTo(b1: Book, b2: Book, cellComp: bool, fullComp: bool, n: nat): seq<Finding>
    requires BooksReadable(b1, b2) && n <= |b1|
    decreases n
  {
    if n == 0 then []
    else SheetsUpTo(b1, b2, cellComp, fullComp, n - 1) + SheetEntry(b1[n - 1].0, b1[n - 1].1, b2, cellComp, fullComp)
  }

  /** A report holding the first `n` sheets' findings, extended by those of
      sheet `n`, holds the first `n + 1` sheets' findings. */
  lemma SheetsUpToExtend(log: seq<Finding>, b1: Book, b2: Book, cellComp: bool, fullComp: bool, n: nat)
    requires BooksReadable(b1, b2) && n < |b1|
    ensures log + SheetsUpTo(b1, b2, cellComp, fullComp, n + 1)
      == (log + SheetsUpTo(b1, b2, cellComp, fullComp, n)) + SheetEntry(b1[n].0, b1[n].1, b2, cellComp, fullComp)
  {
    AppendAssoc(log, SheetsUpTo(b1, b2, cellComp, fullComp, n), SheetEntry(b1[n].0, b1[n].1, b2, cellComp, fullComp));
  }

  /** Every sheet of `b1`. */
  function SheetsFindings(b1: Book, b2: Book, cellComp: bool, fullComp: bool): seq<Finding>
    requires BooksReadable(b1, b2)
  {
    SheetsUpTo(b1, b2, cellComp, fullComp, |b1|)
  }

  /** The sheet-count line (src/compare.py:99-100). */
  function CountFinding(b1: Book, b2: Book): seq<Finding> {
    if |b1| != |b2| then [SheetCount(|b1|, |b2|)] else []
  }

  /** Everything the walk reports for two loaded workbooks (src/compare.py:99-130). */
  function BookFindings(b1: Book, b2: Book, cellComp: bool, fullComp: bool): seq<Finding>
    requires BooksReadable(b1, b2)
  {
    CountFinding(b1, b2) + SheetsFindings(b1, b2, cellComp, fullComp)
  }

  /** What `compare_files` reports after its two heading lines
      (src/compare.py:88-130): a missing file, or the walk over the loaded
      workbooks. */
  function FileOutcome(path1: string, path2: string, exists1: bool, exists2: bool,
                       b1: Book, b2: Book, cellComp: bool, fullComp: bool): seq<Finding>
    requires exists1 && exists2 ==> BooksReadable(b1, b2)
  {
    if !exists1 then [FileMissing(path1)]
    else if !exists2 then [FileMissing(path2)]
    else BookFindings(b1, b2, cellComp, fullComp)
  }

  /** `compare_files` as a whole (src/compare.py:85-130): the two heading
      lines, then the outcome. */
  function FileFindings(path1: string, path2: string, exists1: bool, exists2: bool,
                        b1: Book, b2: Book, cellComp: bool, fullComp: bool): seq<Finding>
    requires exists1 && exists2 ==> BooksReadable(b1, b2)
  {
    [Comparing(path1), ComparedWith(path2)] + FileOutcome(path1, path2, exists1, exists2, b1, b2, cellComp, fullComp)
  }
}
