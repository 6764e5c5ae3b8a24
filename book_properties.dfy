/** What the comparison walk of src/compare.py:99-130 promises above the
    level of one column: which columns and sheets are reported, under
    which headings, and that a workbook compared with itself reports
    nothing. */
module BookProperties {
  import opened Wrappers
  import opened Cells
  import opened Workbooks
  import opened Comparison
  import opened ColumnProperties

  /** The findings of one column entry name its sheet and column index; they
      are a missing-column finding, carrying the first cell, exactly when
      the second sheet has no column of that index. */
  lemma ColumnEntryTagged(sheet: string, j: nat, c1: Column, cols2: seq<Column>, cellComp: bool, fullComp: bool)
    requires j >= |cols2| ==> |c1| > 0
    ensures forall f :: f in ColumnEntry(sheet, j, c1, cols2, cellComp, fullComp) ==>
      && SheetOf(f) == Some(sheet) && IsColumnLevel(f) && f.col == j
      && (f.ColumnMissing? <==> j >= |cols2|)
      && (f.ColumnMissing? ==> f.first == c1[0])
    ensures j >= |cols2| ==> ColumnEntry(sheet, j, c1, cols2, cellComp, fullComp) == [ColumnMissing(sheet, j, c1[0])]
  {
    if j < |cols2| {
      ColumnFindingsTagged(sheet, j, c1, cols2[j], cellComp, fullComp);
    }
  }

  /** Every finding of a column entry is among the column loop's findings. */
  lemma {:induction false} EntryInColumnsFindings(sheet: string, cols1: seq<Column>, cols2: seq<Column>, cellComp: bool, fullComp: bool, j: nat, n: nat)
    requires ColumnsReadable(cols1, cols2) && j < n <= |cols1|
    ensures forall f :: f in ColumnEntry(sheet, j, cols1[j], cols2, cellComp, fullComp) ==>
      f in ColumnsUpTo(sheet, cols1, cols2, cellComp, fullComp, n)
    decreases n
  {
    if j < n - 1 {
      EntryInColumnsFindings(sheet, cols1, cols2, cellComp, fullComp, j, n - 1);
    }
  }

  /** Every finding of the column loop comes from the entry of one of the
      first sheet's columns, the one at index `j`. */
  lemma {:induction false} ColumnsFindingsFromEntry(sheet: string, cols1: seq<Column>, cols2: seq<Column>, cellComp: bool, fullComp: bool, n: nat, f: Finding)
      returns (j: nat)
    requires ColumnsReadable(cols1, cols2) && n <= |cols1|
    requires f in ColumnsUpTo(sheet, cols1, cols2, cellComp, fullComp, n)
    ensures j < n && f in ColumnEntry(sheet, j, cols1[j], cols2, cellComp, fullComp)
    decreases n
  {
    var prev := ColumnsUpTo(sheet, cols1, cols2, cellComp, fullComp, n - 1);
    if f in prev {
      j := ColumnsFindingsFromEntry(sheet, cols1, cols2, cellComp, fullComp, n - 1, f);
    } else {
      j := n - 1;
    }
  }

  /** Every finding of the column loop names its sheet, is about one column
      of the first sheet, and is a missing-column finding exactly when the
      second sheet lacks that column. */
  lemma ColumnsFindingsTagged(sheet: string, cols1: seq<Column>, cols2: seq<Column>, cellComp: bool, fullComp: bool)
    requires ColumnsReadable(cols1, cols2)
    ensures forall f :: f in ColumnsFindings(sheet, cols1, cols2, cellComp, fullComp) ==>
      && SheetOf(f) == Some(sheet) && IsColumnLevel(f) && f.col < |cols1|
      && (f.ColumnMissing? <==> f.col >= |cols2|)
      && (f.ColumnMissing? ==> f.first == cols1[f.col][0])
  {
    forall f | f in ColumnsFindings(sheet, cols1, cols2, cellComp, fullComp)
      ensures && SheetOf(f) == Some(sheet) && IsColumnLevel(f) && f.col < |cols1|
        && (f.ColumnMissing? <==> f.col >= |cols2|)
        && (f.ColumnMissing? ==> f.first == cols1[f.col][0])
    {
      var j := ColumnsFindingsFromEntry(sheet, cols1, cols2, cellComp, fullComp, |cols1|, f);
      ColumnEntryTagged(sheet, j, cols1[j], cols2, cellComp, fullComp);
    }
  }

  /** A column of the first sheet is reported missing, with its first cell,
      if and only if its index is past the second sheet's columns
      (src/compare.py:112, 127-128). */
  lemma MissingColumnReported(sheet: string, cols1: seq<Column>, cols2: seq<Column>, cellComp: bool, fullComp: bool, j: nat)
    requires ColumnsReadable(cols1, cols2) && j < |cols1|
    ensures (exists f :: f in ColumnsFindings(sheet, cols1, cols2, cellComp, fullComp) && f.ColumnMissing? && f.col == j)
      <==> j >= |cols2|
    ensures j >= |cols2| ==> ColumnMissing(sheet, j, cols1[j][0]) in ColumnsFindings(sheet, cols1, cols2, cellComp, fullComp)
  {
    ColumnsFindingsTagged(sheet, cols1, cols2, cellComp, fullComp);
    if j >= |cols2| {
      var f := ColumnMissing(sheet, j, cols1[j][0]);
      ColumnEntryTagged(sheet, j, cols1[j], cols2, cellComp, fullComp);
      EntryInColumnsFindings(sheet, cols1, cols2, cellComp, fullComp, j, |cols1|);
    }
  }

  /** A column's sums are reported different if and only if the second
      sheet has that column and the two checksums differ
      (src/compare.py:112-118). */
  lemma SumCheckedOnlySharedColumns(sheet: string, cols1: seq<Column>, cols2: seq<Column>, cellComp: bool, fullComp: bool, j: nat)
    requires ColumnsReadable(cols1, cols2) && j < |cols1|
    ensures (exists f :: f in ColumnsFindings(sheet, cols1, cols2, cellComp, fullComp) && f.ColumnSumDiffers? && f.col == j)
      <==> j < |cols2| && ColumnSum(cols1[j]) != ColumnSum(cols2[j])
    ensures j < |cols2| && ColumnSum(cols1[j]) != ColumnSum(cols2[j]) ==>
      ColumnSumDiffers(sheet, j, ColumnSum(cols1[j]), ColumnSum(cols2[j])) in ColumnsFindings(sheet, cols1, cols2, cellComp, fullComp)
  {
    var cf := ColumnsFindings(sheet, cols1, cols2, cellComp, fullComp);
    if f :| f in cf && f.ColumnSumDiffers? && f.col == j {
      var i := ColumnsFindingsFromEntry(sheet, cols1, cols2, cellComp, fullComp, |cols1|, f);
      ColumnEntryTagged(sheet, i, cols1[i], cols2, cellComp, fullComp);
      assert i == j;
    }
    if j < |cols2| && ColumnSum(cols1[j]) != ColumnSum(cols2[j]) {
      var f := ColumnSumDiffers(sheet, j, ColumnSum(cols1[j]), ColumnSum(cols2[j]));
      assert ColumnEntry(sheet, j, cols1[j], cols2, cellComp, fullComp)[0] == f;
      EntryInColumnsFindings(sheet, cols1, cols2, cellComp, fullComp, j, |cols1|);
    }
  }

  /** The indices of the missing-column findings of a report, in order. */
  function MissingCols(fs: seq<Finding>): seq<int>
    decreases |fs|
  {
    if fs == [] then []
    else
      var f := fs[|fs| - 1];
      MissingCols(fs[..|fs| - 1]) + (if f.ColumnMissing? then [f.col] else [])
  }

  lemma {:induction false} MissingColsAppend(a: seq<Finding>, b: seq<Finding>)
    ensures MissingCols(a + b) == MissingCols(a) + MissingCols(b)
    decreases |b|
  {
    if b != [] {
      var b' := b[..|b| - 1];
      assert (a + b)[..|a + b| - 1] == a + b';
      MissingColsAppend(a, b');
    } else {
      assert a + b == a;
    }
  }

  /** A report without missing-column findings names no column missing. */
  lemma {:induction false} MissingColsNone(fs: seq<Finding>)
    requires forall k :: 0 <= k < |fs| ==> !fs[k].ColumnMissing?
    ensures MissingCols(fs) == []
    decreases |fs|
  {
    if fs != [] {
      MissingColsNone(fs[..|fs| - 1]);
    }
  }

  /** A column's entry names that column missing exactly when the second
      sheet lacks it, and names no other column missing. */
  lemma ColumnEntryMissing(sheet: string, j: nat, c1: Column, cols2: seq<Column>, cellComp: bool, fullComp: bool)
    requires j >= |cols2| ==> |c1| > 0
    ensures MissingCols(ColumnEntry(sheet, j, c1, cols2, cellComp, fullComp)) == if j < |cols2| then [] else [j]
  {
    var e := ColumnEntry(sheet, j, c1, cols2, cellComp, fullComp);
    ColumnEntryTagged(sheet, j, c1, cols2, cellComp, fullComp);
    if j < |cols2| {
      assert forall k :: 0 <= k < |e| ==> e[k] in e;
      MissingColsNone(e);
    } else {
      assert MissingCols([ColumnMissing(sheet, j, c1[0])]) == MissingCols([]) + [j];
    }
  }

  /** The run of column indices `base, base + 1, .., n - 1`. */
  function IndexRun(base: nat, n: nat): seq<int>
    decreases n
  {
    if n <= base then [] else IndexRun(base, n - 1) + [n - 1]
  }

  lemma {:induction false} IndexRunMeaning(base: nat, n: nat)
    ensures |IndexRun(base, n)| == if n > base then n - base else 0
    ensures forall k :: 0 <= k < |IndexRun(base, n)| ==> IndexRun(base, n)[k] == base + k
    decreases n
  {
    if n > base {
      IndexRunMeaning(base, n - 1);
    }
  }

  /** Among the first `n` columns, those reported missing are the ones past
      the second sheet's last column, in index order. */
  lemma {:induction false} MissingColumnsUpTo(sheet: string, cols1: seq<Column>, cols2: seq<Column>, cellComp: bool, fullComp: bool, n: nat)
    requires ColumnsReadable(cols1, cols2) && n <= |cols1|
    ensures MissingCols(ColumnsUpTo(sheet, cols1, cols2, cellComp, fullComp, n)) == IndexRun(|cols2|, n)
    decreases n
  {
    if n > 0 {
      MissingColumnsUpTo(sheet, cols1, cols2, cellComp, fullComp, n - 1);
      MissingColumnStep(sheet, cols1, cols2, cellComp, fullComp, n);
    }
  }

  /** One step of the column loop: the missing columns among the first
      `n - 1` columns, extended by those of column `n - 1`. */
  lemma MissingColumnStep(sheet: string, cols1: seq<Column>, cols2: seq<Column>, cellComp: bool, fullComp: bool, n: nat)
    requires ColumnsReadable(cols1, cols2) && 0 < n <= |cols1|
    ensures MissingCols(ColumnsUpTo(sheet, cols1, cols2, cellComp, fullComp, n - 1)) == IndexRun(|cols2|, n - 1)
      ==> MissingCols(ColumnsUpTo(sheet, cols1, cols2, cellComp, fullComp, n)) == IndexRun(|cols2|, n)
  {
    var prev := ColumnsUpTo(sheet, cols1, cols2, cellComp, fullComp, n - 1);
    var e := ColumnEntry(sheet, n - 1, cols1[n - 1], cols2, cellComp, fullComp);
    assert ColumnsUpTo(sheet, cols1, cols2, cellComp, fullComp, n) == prev + e;
    ColumnEntryMissing(sheet, n - 1, cols1[n - 1], cols2, cellComp, fullComp);
    MissingColsAppend(prev, e);
  }

  /** The columns reported missing are exactly those of the first sheet past
      the second sheet's last column, once each, in index order
      (src/compare.py:110, 127-128). */
  lemma MissingColumnsInOrder(sheet: string, cols1: seq<Column>, cols2: seq<Column>, cellComp: bool, fullComp: bool)
    requires ColumnsReadable(cols1, cols2)
    ensures var m := MissingCols(ColumnsFindings(sheet, cols1, cols2, cellComp, fullComp));
      && |m| == (if |cols1| > |cols2| then |cols1| - |cols2| else 0)
      && forall k :: 0 <= k < |m| ==> m[k] == |cols2| + k
  {
    MissingColumnsUpTo(sheet, cols1, cols2, cellComp, fullComp, |cols1|);
    IndexRunMeaning(|cols2|, |cols1|);
  }

  /** Two sheets of the same name: the column-count and row-count findings
      appear exactly when those counts differ, unequal row counts leave
      the columns unexamined, and every finding names the sheet
      (src/compare.py:105-110). */
  lemma SheetFindingsTagged(sheet: string, s1: Sheet, s2: Sheet, cellComp: bool, fullComp: bool)
    requires SheetsReadable(s1, s2)
    ensures var fs := SheetFindings(sheet, s1, s2, cellComp, fullComp);
      && (ColumnCount(sheet, |s1.columns|, |s2.columns|) in fs <==> |s1.columns| != |s2.columns|)
      && (RowCount(sheet, s1.rows, s2.rows) in fs <==> s1.rows != s2.rows)
      && (s1.rows != s2.rows ==> forall f :: f in fs ==> !IsColumnLevel(f))
      && (forall f :: f in fs ==> SheetOf(f) == Some(sheet) && !f.SheetMissing?)
  {
    if s1.rows == s2.rows {
      ColumnsFindingsTagged(sheet, s1.columns, s2.columns, cellComp, fullComp);
    }
  }

  /** Equal row counts run the column loop whatever the column counts
      (src/compare.py:105-110): a column the second sheet lacks is reported
      missing, and a shared column whose sums differ is reported. */
  lemma EqualRowsExamineColumns(sheet: string, s1: Sheet, s2: Sheet, cellComp: bool, fullComp: bool, j: nat)
    requires SheetsReadable(s1, s2) && s1.rows == s2.rows && j < |s1.columns|
    ensures j >= |s2.columns| ==> ColumnMissing(sheet, j, s1.columns[j][0]) in SheetFindings(sheet, s1, s2, cellComp, fullComp)
    ensures j < |s2.columns| && ColumnSum(s1.columns[j]) != ColumnSum(s2.columns[j]) ==>
      ColumnSumDiffers(sheet, j, ColumnSum(s1.columns[j]), ColumnSum(s2.columns[j])) in SheetFindings(sheet, s1, s2, cellComp, fullComp)
  {
    MissingColumnReported(sheet, s1.columns, s2.columns, cellComp, fullComp, j);
    SumCheckedOnlySharedColumns(sheet, s1.columns, s2.columns, cellComp, fullComp, j);
  }

  /** A sheet's entry reports that sheet only. */
  lemma SheetEntryTagged(name: string, s1: Sheet, b2: Book, cellComp: bool, fullComp: bool)
    requires Lookup(b2, name).Some? ==> SheetsReadable(s1, Lookup(b2, name).value)
    ensures forall f :: f in SheetEntry(name, s1, b2, cellComp, fullComp) ==> SheetOf(f) == Some(name)
    ensures Lookup(b2, name).Some? ==> forall f :: f in SheetEntry(name, s1, b2, cellComp, fullComp) ==> !f.SheetMissing?
    ensures Lookup(b2, name).None? ==> SheetEntry(name, s1, b2, cellComp, fullComp) == [SheetMissing(name)]
  {
    if Lookup(b2, name).Some? {
      SheetFindingsTagged(name, s1, Lookup(b2, name).value, cellComp, fullComp);
    }
  }

  /** The names of the first `n` sheets, one at a time. */
  lemma NamesPrefixSnoc(b: Book, n: nat)
    requires 0 < n <= |b|
    ensures Names(b)[..n] == Names(b)[..n - 1] + [b[n - 1].0]
  {
    PrefixSnoc(Names(b), n);
  }

  /** Every finding of the sheet loop names one of the sheets it has gone
      over. */
  lemma {:induction false} SheetsFindingsTagged(b1: Book, b2: Book, cellComp: bool, fullComp: bool, n: nat)
    requires BooksReadable(b1, b2) && n <= |b1|
    ensures forall f :: f in SheetsUpTo(b1, b2, cellComp, fullComp, n) ==>
      SheetOf(f).Some? && SheetOf(f).value in Names(b1)[..n]
    decreases n
  {
    if n > 0 {
      SheetsFindingsTagged(b1, b2, cellComp, fullComp, n - 1);
      SheetEntryTagged(b1[n - 1].0, b1[n - 1].1, b2, cellComp, fullComp);
      NamesPrefixSnoc(b1, n);
    }
  }

  /** A sheet that only the second workbook has is never mentioned: the walk
      goes over the first workbook's sheets only (src/compare.py:102). */
  lemma Book2OnlySheetsUnreported(b1: Book, b2: Book, cellComp: bool, fullComp: bool, name: string)
    requires BooksReadable(b1, b2) && name !in Names(b1)
    ensures forall f :: f in BookFindings(b1, b2, cellComp, fullComp) ==> SheetOf(f) != Some(name)
  {
    SheetsFindingsTagged(b1, b2, cellComp, fullComp, |b1|);
    assert Names(b1)[..|b1|] == Names(b1);
  }

  /** The names of the not-found findings of a report, in order. */
  function MissingNames(fs: seq<Finding>): seq<string>
    decreases |fs|
  {
    if fs == [] then []
    else
      var f := fs[|fs| - 1];
      MissingNames(fs[..|fs| - 1]) + (if f.SheetMissing? then [f.sheet] else [])
  }

  lemma {:induction false} MissingNamesAppend(a: seq<Finding>, b: seq<Finding>)
    ensures MissingNames(a + b) == MissingNames(a) + MissingNames(b)
    decreases |b|
  {
    if b != [] {
      var b' := b[..|b| - 1];
      assert (a + b)[..|a + b| - 1] == a + b';
      MissingNamesAppend(a, b');
    } else {
      assert a + b == a;
    }
  }

  /** A report without not-found findings names no sheet as not found. */
  lemma {:induction false} MissingNamesNone(fs: seq<Finding>)
    requires forall k :: 0 <= k < |fs| ==> !fs[k].SheetMissing?
    ensures MissingNames(fs) == []
    decreases |fs|
  {
    if fs != [] {
      MissingNamesNone(fs[..|fs| - 1]);
    }
  }

  /** A sheet's entry names that sheet as not found exactly when the second
      workbook has no sheet of that name, and names nothing else. */
  lemma SheetEntryMissing(name: string, s1: Sheet, b2: Book, cellComp: bool, fullComp: bool)
    requires Lookup(b2, name).Some? ==> SheetsReadable(s1, Lookup(b2, name).value)
    ensures MissingNames(SheetEntry(name, s1, b2, cellComp, fullComp))
      == if name in Names(b2) then [] else [name]
  {
    var e := SheetEntry(name, s1, b2, cellComp, fullComp);
    SheetEntryTagged(name, s1, b2, cellComp, fullComp);
    LookupMeaning(b2, name);
    if name in Names(b2) {
      assert forall k :: 0 <= k < |e| ==> e[k] in e;
      MissingNamesNone(e);
    } else {
      assert MissingNames([SheetMissing(name)]) == MissingNames([]) + [name];
    }
  }

  /** The list algebra of one step of the sheet loop: the not-found names
      of the sheets so far, extended by those of one more sheet. */
  lemma MissingStep(prev: seq<Finding>, e: seq<Finding>, done: seq<string>, others: seq<string>, name: string)
    requires MissingNames(prev) == Without(done, others)
    requires MissingNames(e) == if name in others then [] else [name]
    ensures MissingNames(prev + e) == Without(done + [name], others)
  {
    MissingNamesAppend(prev, e);
    WithoutSnoc(done, name, others);
  }

  /** The sheets the loop names not found, among the first `n`, are exactly
      those of them that the second workbook lacks, once each, in order. */
  lemma {:induction false} MissingSheetsUpTo(b1: Book, b2: Book, cellComp: bool, fullComp: bool, n: nat)
    requires BooksReadable(b1, b2) && n <= |b1|
    ensures MissingNames(SheetsUpTo(b1, b2, cellComp, fullComp, n)) == Without(Names(b1)[..n], Names(b2))
    decreases n
  {
    if n == 0 {
      assert Names(b1)[..0] == [];
    } else {
      MissingSheetsUpTo(b1, b2, cellComp, fullComp, n - 1);
      var prev := SheetsUpTo(b1, b2, cellComp, fullComp, n - 1);
      var e := SheetEntry(b1[n - 1].0, b1[n - 1].1, b2, cellComp, fullComp);
      assert SheetsUpTo(b1, b2, cellComp, fullComp, n) == prev + e;
      SheetEntryMissing(b1[n - 1].0, b1[n - 1].1, b2, cellComp, fullComp);
      NamesPrefixSnoc(b1, n);
      MissingStep(prev, e, Names(b1)[..n - 1], Names(b2), b1[n - 1].0);
    }
  }

  /** The sheets reported not found are exactly the first workbook's sheets
      that the second lacks, once each, in the first workbook's order
      (src/compare.py:103, 129-130). */
  lemma MissingSheetsInOrder(b1: Book, b2: Book, cellComp: bool, fullComp: bool)
    requires BooksReadable(b1, b2)
    ensures MissingNames(BookFindings(b1, b2, cellComp, fullComp)) == Without(Names(b1), Names(b2))
  {
    var c, sf := CountFinding(b1, b2), SheetsFindings(b1, b2, cellComp, fullComp);
    assert BookFindings(b1, b2, cellComp, fullComp) == c + sf;
    MissingSheetsUpTo(b1, b2, cellComp, fullComp, |b1|);
    assert Names(b1)[..|b1|] == Names(b1);
    MissingNamesAppend(c, sf);
    MissingNamesNone(c);
  }

  /** The sheet-count finding is reported once, first, exactly when the
      workbooks have different numbers of sheets (src/compare.py:99-100). */
  lemma SheetCountOnce(b1: Book, b2: Book, cellComp: bool, fullComp: bool)
    requires BooksReadable(b1, b2)
    ensures var fs := BookFindings(b1, b2, cellComp, fullComp);
      && (|b1| != |b2| ==> |fs| > 0 && fs[0] == SheetCount(|b1|, |b2|))
      && forall k :: 0 <= k < |fs| ==> (fs[k].SheetCount? <==> k == 0 && |b1| != |b2|)
  {
    var c, sf := CountFinding(b1, b2), SheetsFindings(b1, b2, cellComp, fullComp);
    var fs := BookFindings(b1, b2, cellComp, fullComp);
    assert fs == c + sf;
    SheetsFindingsTagged(b1, b2, cellComp, fullComp, |b1|);
    forall k | |c| <= k < |fs| ensures !fs[k].SheetCount? {
      assert fs[k] == sf[k - |c|];
      assert sf[k - |c|] in sf;
    }
  }

  /** Columns equal to the other sheet's columns of the same index report
      nothing. */
  lemma {:induction false} SharedColumnsUnreported(sheet: string, cols1: seq<Column>, cols2: seq<Column>, cellComp: bool, fullComp: bool, n: nat)
    requires n <= |cols1| <= |cols2| && forall j :: 0 <= j < |cols1| ==> cols1[j] == cols2[j]
    ensures ColumnsReadable(cols1, cols2)
    ensures ColumnsUpTo(sheet, cols1, cols2, cellComp, fullComp, n) == []
    decreases n
  {
    if n > 0 {
      SharedColumnsUnreported(sheet, cols1, cols2, cellComp, fullComp, n - 1);
      SameCellsUnreported(sheet, n - 1, cols1[n - 1], cols2[n - 1], cellComp, fullComp);
    }
  }

  /** A sheet compared with itself reports nothing. */
  lemma SameSheetUnreported(sheet: string, s: Sheet, cellComp: bool, fullComp: bool)
    ensures SheetsReadable(s, s)
    ensures SheetFindings(sheet, s, s, cellComp, fullComp) == []
  {
    SharedColumnsUnreported(sheet, s.columns, s.columns, cellComp, fullComp, |s.columns|);
  }

  /** Sheets each found under their own name in `b2`, with the same
      contents, can be compared. */
  lemma FoundSheetsReadable(b1: Book, b2: Book)
    requires forall i :: 0 <= i < |b1| ==> Lookup(b2, b1[i].0) == Some(b1[i].1)
    ensures BooksReadable(b1, b2)
  {
    forall i | 0 <= i < |b1| ensures SheetsReadable(b1[i].1, b1[i].1) {
      SameSheetUnreported(b1[i].0, b1[i].1, false, false);
    }
  }

  /** A sheet found under its own name in `b2`, with the same contents,
      reports nothing. */
  lemma FoundSheetUnreported(name: string, s: Sheet, b2: Book, cellComp: bool, fullComp: bool)
    requires Lookup(b2, name) == Some(s)
    ensures SheetsReadable(s, s)
    ensures SheetEntry(name, s, b2, cellComp, fullComp) == []
  {
    SameSheetUnreported(name, s, cellComp, fullComp);
  }

  /** Sheets each found under their own name in `b2`, with the same
      contents, report nothing. */
  lemma {:induction false} FoundSheetsUnreported(b1: Book, b2: Book, cellComp: bool, fullComp: bool, n: nat)
    requires n <= |b1| && BooksReadable(b1, b2)
    requires forall i :: 0 <= i < n ==> Lookup(b2, b1[i].0) == Some(b1[i].1)
    ensures SheetsUpTo(b1, b2, cellComp, fullComp, n) == []
    decreases n
  {
    if n > 0 {
      FoundSheetsUnreported(b1, b2, cellComp, fullComp, n - 1);
      FoundSheetUnreported(b1[n - 1].0, b1[n - 1].1, b2, cellComp, fullComp);
    }
  }

  /** A workbook compared with itself reports nothing. */
  lemma IdenticalBooksUnreported(b: Book, cellComp: bool, fullComp: bool)
    requires UniqueNames(b)
    ensures BooksReadable(b, b)
    ensures BookFindings(b, b, cellComp, fullComp) == []
  {
    forall i | 0 <= i < |b| ensures Lookup(b, b[i].0) == Some(b[i].1) {
      LookupOwnName(b, i);
    }
    FoundSheetsReadable(b, b);
    FoundSheetsUnreported(b, b, cellComp, fullComp, |b|);
  }

  /** The first workbook has one more sheet than the second, which otherwise
      matches: the sheet counts are reported, then that sheet, as not found. */
  lemma ExtraSheetInFirst(n1: string, n2: string, s: Sheet, t: Sheet, cellComp: bool, fullComp: bool)
    requires n1 != n2
    ensures BooksReadable([(n1, s), (n2, t)], [(n1, s)])
    ensures BookFindings([(n1, s), (n2, t)], [(n1, s)], cellComp, fullComp) == [SheetCount(2, 1), SheetMissing(n2)]
  {
    var b1, b2 := [(n1, s), (n2, t)], [(n1, s)];
    assert Lookup(b2, n1) == Some(s);
    assert Names(b2) == [n1];
    assert Lookup(b2, n2) == None;
    SameSheetUnreported(n1, s, cellComp, fullComp);
    assert SheetsUpTo(b1, b2, cellComp, fullComp, 1) == [];
  }

  /** The second workbook has one more sheet than the first, which otherwise
      matches: only the sheet counts are reported. */
  lemma ExtraSheetInSecond(n1: string, n2: string, s: Sheet, t: Sheet, cellComp: bool, fullComp: bool)
    requires n1 != n2
    ensures BooksReadable([(n1, s)], [(n1, s), (n2, t)])
    ensures BookFindings([(n1, s)], [(n1, s), (n2, t)], cellComp, fullComp) == [SheetCount(1, 2)]
  {
    var b1, b2 := [(n1, s)], [(n1, s), (n2, t)];
    assert Lookup(b2, n1) == Some(s);
    FoundSheetsReadable(b1, b2);
    FoundSheetsUnreported(b1, b2, cellComp, fullComp, 1);
  }

  /** `compare_files` always opens with the two heading lines; a missing
      file is reported instead of any comparison, and files that both
      exist report no missing file (src/compare.py:86-94). */
  lemma FileFindingsShape(path1: string, path2: string, exists1: bool, exists2: bool,
                          b1: Book, b2: Book, cellComp: bool, fullComp: bool)
    requires exists1 && exists2 ==> BooksReadable(b1, b2)
    ensures var fs := FileFindings(path1, path2, exists1, exists2, b1, b2, cellComp, fullComp);
      && |fs| >= 2 && fs[..2] == [Comparing(path1), ComparedWith(path2)]
      && (!exists1 ==> fs == [Comparing(path1), ComparedWith(path2), FileMissing(path1)])
      && (exists1 && !exists2 ==> fs == [Comparing(path1), ComparedWith(path2), FileMissing(path2)])
      && (exists1 && exists2 ==> forall f :: f in fs[2..] ==> !f.FileMissing? && !f.Comparing? && !f.ComparedWith?)
  {
    if exists1 && exists2 {
      SheetsFindingsTagged(b1, b2, cellComp, fullComp, |b1|);
      var fs := FileFindings(path1, path2, exists1, exists2, b1, b2, cellComp, fullComp);
      assert fs[2..] == BookFindings(b1, b2, cellComp, fullComp);
    }
  }
}
