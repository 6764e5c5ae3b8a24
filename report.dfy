/** The report that `compare_files` and `compare_dirs` write line by line
    (src/compare.py:51-130), as an object whose list of findings every
    `out` call extends. Each method runs the source's loops and is proved
    to append exactly the findings the functions of module `Comparison`
    give, so everything proved about those holds of the report. */
module Reporting {
  import opened Wrappers
  import opened Cells
  import opened Workbooks
  import opened Comparison
  import opened ColumnProperties
  import opened Directories

  class Report {
    /** The lines written so far, in order. */
    var findings: seq<Finding>

    constructor ()
      ensures findings == []
    {
      findings := [];
    }

    /** `out` (src/compare.py:51-55): one more line. */
    method Out(f: Finding)
      modifies this
      ensures findings == old(findings) + [f]
    {
      findings := findings + [f];
    }

    /** The cell loop (src/compare.py:120-126): report each mismatching
        row; without full mode, stop after the fourth report. */
    method DiffCells(sheet: string, col: nat, c1: Column, c2: Column, fullComp: bool)
      modifies this
      ensures findings == old(findings) + Bounded(AllCellDiffs(sheet, col, c1, c2), fullComp)
    {
      ghost var start := findings;
      var n := Min(|c1|, |c2|);
      var diffs := 0;
      var row := 0;
      while row < n
        invariant 0 <= row <= n
        invariant diffs == |CellDiffs(sheet, col, c1, c2, row)|
        invariant findings == start + CellDiffs(sheet, col, c1, c2, row)
        invariant !fullComp ==> diffs <= BreakAfter
      {
        if PyEq(c1[row], c1[row]) && !PyEq(c1[row], c2[row]) {
          diffs := diffs + 1;
          Out(CellDiffers(sheet, col, row + 1, c1[row], c2[row]));
        }
        row := row + 1;
        if !fullComp && diffs > BreakAfter {
          break;
        }
      }
      CellDiffsPrefix(sheet, col, c1, c2, row, n);
    }

    /** One column present in both sheets (src/compare.py:113-126). */
    method CompareColumns(sheet: string, col: nat, c1: Column, c2: Column, cellComp: bool, fullComp: bool)
      modifies this
      ensures findings == old(findings) + ColumnFindings(sheet, col, c1, c2, cellComp, fullComp)
    {
      ghost var start := findings;
      var sum1 := ColumnSum(c1);
      var sum2 := ColumnSum(c2);
      if sum1 != sum2 {
        Out(ColumnSumDiffers(sheet, col, sum1, sum2));
        if cellComp || fullComp {
          DiffCells(sheet, col, c1, c2, fullComp);
          AppendAssoc(start, [ColumnSumDiffers(sheet, col, sum1, sum2)], Bounded(AllCellDiffs(sheet, col, c1, c2), fullComp));
        }
      }
    }

    /** One pass of the column loop (src/compare.py:111-128): column `col`
        of the first sheet, compared if the second sheet has that column,
        otherwise reported missing with its first cell. */
    method CompareColumnEntry(sheet: string, cols1: seq<Column>, cols2: seq<Column>, col: nat, cellComp: bool, fullComp: bool)
      requires ColumnsReadable(cols1, cols2) && col < |cols1|
      modifies this
      ensures findings == old(findings) + ColumnEntry(sheet, col, cols1[col], cols2, cellComp, fullComp)
    {
      if col < |cols2| {
        CompareColumns(sheet, col, cols1[col], cols2[col], cellComp, fullComp);
      } else {
        Out(ColumnMissing(sheet, col, cols1[col][0]));
      }
    }

    /** The column loop of two sheets with equal row counts
        (src/compare.py:110-128): each column of the first sheet, in index
        order, compared or reported missing. */
    method CompareColumnList(sheet: string, cols1: seq<Column>, cols2: seq<Column>, cellComp: bool, fullComp: bool)
      requires ColumnsReadable(cols1, cols2)
      modifies this
      ensures findings == old(findings) + ColumnsFindings(sheet, cols1, cols2, cellComp, fullComp)
    {
      ghost var start := findings;
      var col := 0;
      while col < |cols1|
        invariant 0 <= col <= |cols1|
        invariant findings == start + ColumnsUpTo(sheet, cols1, cols2, cellComp, fullComp, col)
      {
        ColumnsUpToExtend(start, sheet, cols1, cols2, cellComp, fullComp, col);
        CompareColumnEntry(sheet, cols1, cols2, col, cellComp, fullComp);
        col := col + 1;
      }
    }

    /** Two sheets of the same name (src/compare.py:105-128). */
    method CompareSheets(sheet: string, s1: Sheet, s2: Sheet, cellComp: bool, fullComp: bool)
      requires SheetsReadable(s1, s2)
      modifies this
      ensures findings == old(findings) + SheetFindings(sheet, s1, s2, cellComp, fullComp)
    {
      if |s1.columns| != |s2.columns| {
        Out(ColumnCount(sheet, |s1.columns|, |s2.columns|));
      }
      if s1.rows != s2.rows {
        Out(RowCount(sheet, s1.rows, s2.rows));
      } else {
        CompareColumnList(sheet, s1.columns, s2.columns, cellComp, fullComp);
      }
    }

    /** One pass of the sheet loop (src/compare.py:103-104, 129-130): the
        sheet at index `k` of the first workbook, compared with the second
        workbook's sheet of that name, or reported not found. */
    method CompareSheetEntry(b1: Book, b2: Book, k: nat, cellComp: bool, fullComp: bool)
      requires BooksReadable(b1, b2) && k < |b1|
      modifies this
      ensures findings == old(findings) + SheetEntry(b1[k].0, b1[k].1, b2, cellComp, fullComp)
    {
      var name := b1[k].0;
      match Lookup(b2, name) {
        case Some(s2) =>
          CompareSheets(name, b1[k].1, s2, cellComp, fullComp);
        case None =>
          Out(SheetMissing(name));
      }
    }

    /** The sheet loop (src/compare.py:102-130): each sheet of the first
        workbook, in order. */
    method CompareSheetList(b1: Book, b2: Book, cellComp: bool, fullComp: bool)
      requires BooksReadable(b1, b2)
      modifies this
      ensures findings == old(findings) + SheetsFindings(b1, b2, cellComp, fullComp)
    {
      ghost var start := findings;
      var k := 0;
      while k < |b1|
        invariant 0 <= k <= |b1|
        invariant findings == start + SheetsUpTo(b1, b2, cellComp, fullComp, k)
      {
        SheetsUpToExtend(start, b1, b2, cellComp, fullComp, k);
        CompareSheetEntry(b1, b2, k, cellComp, fullComp);
        k := k + 1;
      }
    }

    /** The walk over two loaded workbooks (src/compare.py:99-130). */
    method CompareBooks(b1: Book, b2: Book, cellComp: bool, fullComp: bool)
      requires BooksReadable(b1, b2)
      modifies this
      ensures findings == old(findings) + BookFindings(b1, b2, cellComp, fullComp)
    {
      ghost var start := findings;
      if |b1| != |b2| {
        Out(SheetCount(|b1|, |b2|));
      }
      CompareSheetList(b1, b2, cellComp, fullComp);
      AppendAssoc(start, CountFinding(b1, b2), SheetsFindings(b1, b2, cellComp, fullComp));
    }

    /** `compare_files` (src/compare.py:85-130) on two paths, whether each
        exists, and the workbooks read from them. */
    method CompareFiles(path1: string, path2: string, exists1: bool, exists2: bool,
                        b1: Book, b2: Book, cellComp: bool, fullComp: bool)
      requires exists1 && exists2 ==> BooksReadable(b1, b2)
      modifies this
      ensures findings == old(findings) + FileFindings(path1, path2, exists1, exists2, b1, b2, cellComp, fullComp)
    {
      ghost var start := findings;
      Out(Comparing(path1));
      Out(ComparedWith(path2));
      ghost var headed := findings;
      assert headed == start + [Comparing(path1), ComparedWith(path2)] by {
        AppendAssoc(start, [Comparing(path1)], [ComparedWith(path2)]);
        assert [Comparing(path1)] + [ComparedWith(path2)] == [Comparing(path1), ComparedWith(path2)];
      }
      ghost var outcome := FileOutcome(path1, path2, exists1, exists2, b1, b2, cellComp, fullComp);
      AppendAssoc(start, [Comparing(path1), ComparedWith(path2)], outcome);
      if !exists1 {
        Out(FileMissing(path1));
        return;
      }
      if !exists2 {
        Out(FileMissing(path2));
        return;
      }
      CompareBooks(b1, b2, cellComp, fullComp);
    }

    /** `compare_dirs` (src/compare.py:57-72) on two directories, whether
        each exists, and their listings: a missing directory is reported
        (under the second directory's path in both cases, as the source
        writes it); otherwise the pairs to hand to `compare_dir_or_file`
        are returned, in the order they are visited. `dir1IsDir` is the
        file system's `is_dir` for a path under `dir1` whose name the first
        listing lacks. */
    method CompareDirs(dir1: string, dir2: string, exists1: bool, exists2: bool,
                       es1: seq<Entry>, es2: seq<Entry>, dir1IsDir: string -> bool)
      returns (visits: seq<Visit>)
      modifies this
      ensures !exists1 || !exists2 ==> findings == old(findings) + [DirMissing(dir2)] && visits == []
      ensures exists1 && exists2 ==> findings == old(findings) && visits == VisitOrder(es1, es2, dir1IsDir)
    {
      if !exists1 {
        Out(DirMissing(dir2));
        return [];
      }
      if !exists2 {
        Out(DirMissing(dir2));
        return [];
      }
      visits := PairEntries(es1, es2, dir1IsDir);
    }
  }
}
