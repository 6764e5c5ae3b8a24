/** The data the comparison engine works on and what it reports: loaded
    sheets and workbooks, and one finding per report line of
    src/compare.py:85-130 and src/compare.py:57-63. */
module Workbooks {
  import opened Wrappers
  import opened Cells

  /** One column of a sheet, its cells by zero-based row. */
  type Column = seq<Cell>

  /** A loaded sheet: its row count (`len(sheet)`) and its columns, which are
      addressed by zero-based index (`len(sheet.columns)` of them). */
  datatype Sheet = Sheet(rows: nat, columns: seq<Column>)

  /** A loaded workbook: its sheets by name, in file order. */
  type Book = seq<(string, Sheet)>

  /** The sheet names of a workbook, in order. */
  function Names(b: Book): seq<string> {
    seq(|b|, i requires 0 <= i < |b| => b[i].0)
  }

  /** A workbook read from a file names each sheet once. */
  predicate UniqueNames(b: Book) {
    NoDup(Names(b))
  }

  /** `name in book` and `book[name]`: the sheet of that name, if any (the
      first one, should a name occur twice). */
  function Lookup(b: Book, name: string): Option<Sheet>
    decreases |b|
  {
    if b == [] then None
    else if b[0].0 == name then Some(b[0].1)
    else Lookup(b[1..], name)
  }

  /** A sheet is found exactly when the workbook has a sheet of that name,
      and what is found is a sheet of the workbook under that name. */
  lemma {:induction false} LookupMeaning(b: Book, name: string)
    ensures Lookup(b, name).Some? <==> name in Names(b)
    ensures Lookup(b, name).Some? ==> exists i :: 0 <= i < |b| && b[i] == (name, Lookup(b, name).value)
    decreases |b|
  {
    if b != [] && b[0].0 != name {
      LookupMeaning(b[1..], name);
      assert forall i :: 0 < i < |b| ==> b[1..][i - 1] == b[i];
      assert forall i :: 0 < i < |b| ==> Names(b)[i] == Names(b[1..])[i - 1];
      if name in Names(b[1..]) {
        var j :| 0 <= j < |b| - 1 && Names(b[1..])[j] == name;
        assert Names(b)[j + 1] == name;
      }
      if name in Names(b) {
        var j :| 0 <= j < |b| && Names(b)[j] == name;
        assert Names(b[1..])[j - 1] == name;
      }
    } else if b != [] {
      assert Names(b)[0] == name;
    }
  }

  /** With unique names, looking up a sheet's own name finds that sheet. */
  lemma {:induction false} LookupOwnName(b: Book, i: nat)
    requires UniqueNames(b) && i < |b|
    ensures Lookup(b, b[i].0) == Some(b[i].1)
    decreases i
  {
    if i > 0 {
      assert Names(b)[0] != Names(b)[i];
      var t := b[1..];
      assert UniqueNames(t) by {
        forall p, q | 0 <= p < q < |t| ensures Names(t)[p] != Names(t)[q] {
          assert Names(b)[p + 1] != Names(b)[q + 1];
        }
      }
      LookupOwnName(t, i - 1);
    }
  }

  /** `sheet1[col][0]` (src/compare.py:128) can be read: every column of
      `cols1` past the end of `cols2` has a first row. */
  predicate ColumnsReadable(cols1: seq<Column>, cols2: seq<Column>) {
    forall j :: |cols2| <= j < |cols1| ==> |cols1[j]| > 0
  }

  /** Columns are compared only when the row counts agree. */
  predicate SheetsReadable(s1: Sheet, s2: Sheet) {
    s1.rows == s2.rows ==> ColumnsReadable(s1.columns, s2.columns)
  }

  /** Every sheet of `b1` that `b2` also has can be compared with it. */
  predicate BooksReadable(b1: Book, b2: Book) {
    forall i :: 0 <= i < |b1| ==>
      (Lookup(b2, b1[i].0).Some? ==> SheetsReadable(b1[i].1, Lookup(b2, b1[i].0).value))
  }

  /** One line of the report. Rows are reported from 1, columns by index
      (their letter label is `ColumnNames.ColNumToName(col)`). */
  datatype Finding =
    | Comparing(path: string)                                  // "Comparing %s"
    | ComparedWith(path: string)                               // "      and %s"
    | FileMissing(path: string)                                // "ERROR: File %s doesn't exist"
    | DirMissing(path: string)                                 // "ERROR: Directory %s doesn't exist"
    | SheetCount(count1: nat, count2: nat)                     // "ERROR: Different number of sheets"
    | ColumnCount(sheet: string, count1: nat, count2: nat)     // "Different number of columns"
    | RowCount(sheet: string, count1: nat, count2: nat)        // "Different number of rows"
    | ColumnSumDiffers(sheet: string, col: nat, sum1: int, sum2: int)  // "Different column .. sum"
    | CellDiffers(sheet: string, col: nat, row: nat, value1: Cell, value2: Cell)  // "Different value in .."
    | ColumnMissing(sheet: string, col: nat, first: Cell)     // "Column .. missing"
    | SheetMissing(sheet: string)                              // "ERROR: %s not found"

  /** The sheet a finding is about, if it is about one. */
  function SheetOf(f: Finding): Option<string> {
    match f
    case ColumnCount(s, _, _) => Some(s)
    case RowCount(s, _, _) => Some(s)
    case ColumnSumDiffers(s, _, _, _) => Some(s)
    case CellDiffers(s, _, _, _, _) => Some(s)
    case ColumnMissing(s, _, _) => Some(s)
    case SheetMissing(s) => Some(s)
    case _ => None
  }

  /** Findings at the level of one column: a sum, a cell or a missing column. */
  predicate IsColumnLevel(f: Finding) {
    f.ColumnSumDiffers? || f.CellDiffers? || f.ColumnMissing?
  }
}
