# xlscompare comparison engine, modelled in Dafny

`src/compare.py` compares two Excel workbooks, or two directories of them,
and writes one report line per discrepancy it finds:

- a different number of sheets;
- a sheet of the first workbook that the second lacks;
- different numbers of columns or rows in a sheet;
- a column that the second sheet lacks;
- a column whose checksum differs, followed, when asked for, by the rows
  whose cells differ.

This project models the comparison engine of that file:

- the per-cell checksum `convert_to_float` and its unused sibling
  `float_or_zero`;
- the column labels of `col_num_to_name`;
- the walk of `compare_files` over two loaded workbooks;
- the pairing and dispatch of directory entries in `compare_dirs` and
  `compare_dir_or_file`.

It also proves what these promise. The modules:

- `Cells` (`cells.dfy`) holds:
  - loaded cell values: integers, booleans, text, and the NaN of an empty
    cell;
  - Python's `str.strip`;
  - Python's `==` on cell values;
  - the two conversions.
- `ColumnNames` (`column_names.dfy`) holds `col_num_to_name`, with its
  inverse on one- and two-letter labels.
- `Workbooks` (`workbooks.dfy`) holds:
  - sheets, as a row count and columns by index;
  - workbooks, as sheets by name in file order;
  - lookup by name;
  - one `Finding` per kind of report line.
- `Comparison` (`comparison.dfy`) gives, as functions, the findings that
  the walk over two loaded workbooks reports, in order.
- `Reporting` (`report.dfy`) holds the report as an object. It has these
  methods:
  - `out`, which appends a finding;
  - the walk itself, written as the source's loops;
  - `CompareFiles` and `CompareDirs`.

  Each method of the walk, and `CompareFiles`, is proved to append
  exactly what the matching `Comparison` function gives. `Out` appends
  its one finding. `CompareDirs` appends at most one missing-directory
  line and returns the visits that `Directories.VisitOrder` gives.
- `ColumnProperties` and `BookProperties` prove what the walk promises
  about those functions:
  - the checksum ignores cell order;
  - the cell scan reports exactly the mismatching rows, at most four
    without full mode;
  - missing columns and sheets are reported exactly when absent, once
    each, in order;
  - with equal row counts the columns are compared whatever the column
    counts;
  - a workbook compared with itself reports nothing;
  - a sheet only the second workbook has is never mentioned.
- `Directories` (`directories.dfy`) pairs the entries of two directory
  listings:
  - it visits every name once;
  - names of the first directory come first, in order;
  - an entry is walked as a directory exactly when its path under the
    first directory is one; for a name the first listing lacks, that is
    the file system's answer, taken as an input, which is no on a file
    system that matches names exactly;
  - `.xlsx` and `.xls` files are compared, and everything else is
    skipped.

Three behaviours of the code are reproduced as written:

- A missing first directory is reported under the second directory's
  path (src/compare.py:58-59).
- A sheet of the first workbook that the second lacks is reported as
  "not found" (src/compare.py:129-130), even when the sheet counts
  already differ. Sheets {S1, S2} against {S1} give the sheet-count line
  and then "S2 not found".
- An empty cell is a float NaN. `convert_to_float` passes floats through,
  so an empty cell adds nothing to the column sum, which skips NaN. It
  does not add the length of the text "nan".

## Model

| member | source | states |
|---|---|---|
| Cells.ConvertToFloat | src/compare.py:170-173 | numbers other than booleans pass through; the result is NaN exactly for an empty cell; text and booleans become a length between 0 and that of their `str` |
| Cells.FloatOrZero | src/compare.py:165-168 | numbers pass through, an empty cell stays NaN, text and booleans become 0 |
| Cells.ConvertBooleans | src/compare.py:170-173 | a boolean is not a number to the checksum: `True` counts 4 and `False` counts 5 |
| Cells.ConvertIgnoresSurroundingSpace | src/compare.py:173 | surrounding whitespace does not change the checksum of a text cell |
| Cells.ConvertVersusFloatOrZero | src/compare.py:165-173 | the two conversions agree exactly on numbers, empty cells and whitespace-only text |
| Cells.TrimStart | src/compare.py:173 | the leading-whitespace removal of `strip` gives a suffix that starts with a non-space, only whitespace having been removed |
| Cells.TrimEnd | src/compare.py:173 | the trailing-whitespace removal of `strip` gives a prefix that ends with a non-space, only whitespace having been removed |
| Cells.StripEmpty | src/compare.py:173 | a string strips to nothing if and only if it is all whitespace |
| Cells.StripSurrounding | src/compare.py:173 | whitespace added around a string does not change what it strips to |
| Cells.StripUnchanged | src/compare.py:173 | a string that neither starts nor ends with whitespace strips to itself |
| Cells.IsSpace | src/compare.py:173 | defines the characters `str.strip` removes, those `str.isspace` accepts; `TrimStart`, `TrimEnd` and the `Strip` lemmas state what stripping does with them |
| Cells.Strip | src/compare.py:173 | defines `str.strip` as `TrimEnd` after `TrimStart`; `StripEmpty`, `StripSurrounding` and `StripUnchanged` state its meaning |
| Cells.PyEq | src/compare.py:122 | defines Python's `==` on two cell values, with NaN unequal to everything and `1 == True`; `MismatchMeaning` states its meaning |
| Cells.IsMismatch | src/compare.py:122 | defines the row test `v1 == v1 and v1 != v2`; `MismatchMeaning` states exactly which rows pass it |
| Cells.MismatchMeaning | src/compare.py:122 | `v1 == v1` fails exactly for an empty cell; a row mismatches iff its first value is not empty and differs from the second, a number and a boolean of equal value counting as equal |
| ColumnNames.ColNumToName | src/compare.py:159-163 | the label has one character exactly below 26 and at most two otherwise; its last character is `chr(n % 26 + 65)`; it is undefined (`ValueError`) exactly when `chr` gets a code point past the last one |
| ColumnNames.LabelExamples | src/compare.py:159-163 | 0, 25, 26 and 701 are labelled "A", "Z", "AA" and "ZZ" |
| ColumnNames.LabelsUpToZZ | src/compare.py:159-163 | up to 701 every label is one or two upper-case letters and reads back as its column index |
| ColumnNames.EveryLabelReached | src/compare.py:159-163 | every one- or two-letter upper-case label is the label of an index of at most 701 |
| ColumnNames.LabelsInjective | src/compare.py:159-163 | distinct column indices get distinct labels |
| ColumnNames.BeyondZZ | src/compare.py:159-163 | past 701 the first character of a label is no longer a letter A-Z |
| Workbooks.Lookup | src/compare.py:103-104 | defines `name in book2` and `book2[name]` on a workbook held as a list; `LookupMeaning` and `LookupOwnName` state its meaning |
| Workbooks.LookupMeaning | src/compare.py:103-104 | `name in book2` holds exactly when the workbook has a sheet of that name, and `book2[name]` is a sheet stored under that name |
| Workbooks.LookupOwnName | src/compare.py:103-104 | in a workbook with unique sheet names, looking up a sheet's own name finds that sheet |
| Comparison.Contribution | src/compare.py:115-116 | defines a cell's term in the sum: its `convert_to_float` value, or nothing for NaN, which `sum` skips |
| Comparison.ColumnSum | src/compare.py:115-116 | defines `column.map(convert_to_float).sum()`; `ColumnSumAppend` and `ColumnSumPermutation` state its properties |
| Comparison.CellDiffs | src/compare.py:121-124 | defines the cell findings of the first `n` rows, in row order; `CellDiffsSound`, `CellDiffsComplete`, `CellDiffsCount` and `CellDiffsPrefix` state their meaning |
| Comparison.AllCellDiffs | src/compare.py:120-124 | defines the cell findings of every row the two columns share (`range(min(len(column1), len(column2)))`) |
| Comparison.Bounded | src/compare.py:125-126 | defines what the `break` after the fourth report leaves: everything in full mode, else the first four; `BoundedReportsFirstFour` and `FullReportsEveryMismatch` state it |
| Comparison.ColumnFindings | src/compare.py:113-126 | defines a shared column's findings; `ColumnFindingsTagged`, `ColumnCellReports`, `CellReportCount` and `SameCellsUnreported` state their meaning |
| Comparison.ColumnEntry | src/compare.py:112-128 | defines one pass of the column loop; `ColumnEntryTagged` states its meaning |
| Comparison.ColumnsUpTo | src/compare.py:110-128 | defines the findings of the first `n` columns, in index order; `MissingColumnsUpTo` states which are reported missing |
| Comparison.ColumnsFindings | src/compare.py:110-128 | defines the whole column loop; `ColumnsFindingsTagged`, `MissingColumnReported`, `MissingColumnsInOrder` and `SumCheckedOnlySharedColumns` state its meaning |
| Comparison.SheetFindings | src/compare.py:105-128 | defines the findings for two sheets of one name; `SheetFindingsTagged`, `EqualRowsExamineColumns` and `SameSheetUnreported` state their meaning |
| Comparison.SheetEntry | src/compare.py:103-130 | defines one pass of the sheet loop; `SheetEntryTagged` states its meaning |
| Comparison.SheetsUpTo | src/compare.py:102-130 | defines the findings of the first `n` sheets of the first workbook, in order; `SheetsFindingsTagged` states its meaning |
| Comparison.SheetsFindings | src/compare.py:102-130 | defines the whole sheet loop; `MissingSheetsInOrder` and `Book2OnlySheetsUnreported` state its meaning |
| Comparison.CountFinding | src/compare.py:99-100 | defines the sheet-count line, present when the sheet counts differ; `SheetCountOnce` states its place |
| Comparison.BookFindings | src/compare.py:99-130 | defines the walk over two loaded workbooks; `IdenticalBooksUnreported`, `ExtraSheetInFirst` and `ExtraSheetInSecond` state its meaning |
| Comparison.FileOutcome | src/compare.py:89-130 | defines what follows the two headings: a missing-file line, or the walk |
| Comparison.FileFindings | src/compare.py:85-130 | defines everything `compare_files` reports; `FileFindingsShape` states its meaning |
| ColumnProperties.ColumnSumAppend | src/compare.py:115-116 | the column sum of two stacked columns is the sum of their sums |
| ColumnProperties.ColumnSumPermutation | src/compare.py:115-117 | columns holding the same cells in any order have the same checksum |
| ColumnProperties.SameCellsUnreported | src/compare.py:113-118 | a column compared with a reordering of itself reports nothing, even when its cells differ row by row |
| ColumnProperties.TextLengthBlindSpot | src/compare.py:113-118 | text columns whose cells strip, row by row, to strings of equal length have equal sums and report nothing, whatever the letters |
| ColumnProperties.NumericExample | src/compare.py:113-126 | [1, 2, 3] against [1, 2, 4] reports the sums 6 and 7, then one cell finding, at row 3 |
| ColumnProperties.CellDiffsSound | src/compare.py:121-124 | every cell finding is for a mismatching row, numbered from 1, with that row's two values, rows strictly increasing |
| ColumnProperties.CellDiffsComplete | src/compare.py:121-124 | every mismatching row of the scanned range is reported |
| ColumnProperties.CellDiffsCount | src/compare.py:121-124 | the scan reports one finding per mismatching row |
| ColumnProperties.CellDiffsPrefix | src/compare.py:120-126 | scanning fewer rows reports a prefix of what scanning more rows reports |
| ColumnProperties.BoundedReportsFirstFour | src/compare.py:120-126 | without full mode the scan reports the first four mismatching rows, or all of them when there are fewer |
| ColumnProperties.FullReportsEveryMismatch | src/compare.py:119-126 | in full mode the scan reports every mismatching row of the shared rows, once each and in row order, and nothing else |
| ColumnProperties.ColumnFindingsTagged | src/compare.py:113-126 | a shared column's findings are sum or cell findings naming its sheet and column |
| ColumnProperties.ColumnCellReports | src/compare.py:117-126 | cell findings appear exactly when the sums differ and cell or full comparison is on, and they are then the bounded scan |
| ColumnProperties.CellReportCount | src/compare.py:119-126 | at most four cell findings per column without full mode; in full mode as many as there are mismatching rows when the sums differ, none otherwise |
| BookProperties.ColumnEntryTagged | src/compare.py:112-128 | a column's findings name its sheet and index; they are a missing-column finding carrying the first cell exactly when the second sheet has no column of that index |
| BookProperties.ColumnsFindingsTagged | src/compare.py:110-128 | every finding of the column loop names the sheet and a column of the first sheet, and is a missing-column finding exactly when the second sheet lacks that column |
| BookProperties.MissingColumnReported | src/compare.py:112-128 | a column is reported missing, with its first cell, if and only if the second sheet has fewer columns than its index needs |
| BookProperties.MissingColumnsInOrder | src/compare.py:110-128 | the columns reported missing are exactly the first sheet's columns past the second sheet's last column, once each, in index order |
| BookProperties.SumCheckedOnlySharedColumns | src/compare.py:112-118 | a column sum is reported different if and only if both sheets have that column and the sums differ |
| BookProperties.SheetFindingsTagged | src/compare.py:105-110 | column- and row-count findings appear exactly when those counts differ; different row counts leave the columns unexamined; every finding names the sheet |
| BookProperties.EqualRowsExamineColumns | src/compare.py:105-128 | with equal row counts the column loop runs even when the column counts differ: a column the second sheet lacks is reported missing, and a shared column whose sums differ is reported |
| BookProperties.SheetEntryTagged | src/compare.py:103-130 | a sheet's findings name that sheet; a sheet the second workbook lacks gives exactly one not-found finding |
| BookProperties.SheetsFindingsTagged | src/compare.py:102-130 | every finding of the sheet loop names one of the first workbook's sheets it has gone over |
| BookProperties.Book2OnlySheetsUnreported | src/compare.py:102 | a sheet that only the second workbook has is never mentioned |
| BookProperties.MissingSheetsInOrder | src/compare.py:102-130 | the sheets reported not found are exactly the first workbook's sheets that the second lacks, once each, in the first workbook's order |
| BookProperties.SheetCountOnce | src/compare.py:99-100 | the sheet-count finding comes first and appears once, exactly when the sheet counts differ |
| BookProperties.SameSheetUnreported | src/compare.py:105-128 | a sheet compared with itself reports nothing |
| BookProperties.FoundSheetsUnreported | src/compare.py:102-130 | sheets each found in the second workbook under their own name with the same contents report nothing |
| BookProperties.IdenticalBooksUnreported | src/compare.py:99-130 | a workbook whose sheet names are distinct, compared with itself, reports nothing |
| BookProperties.ExtraSheetInFirst | src/compare.py:99-130 | sheets {S1, S2} against {S1}: the sheet counts 2 and 1, then "S2 not found" |
| BookProperties.ExtraSheetInSecond | src/compare.py:99-130 | sheets {S1} against {S1, S2}: only the sheet counts 1 and 2 |
| BookProperties.FileFindingsShape | src/compare.py:86-94 | the two heading lines always come first; a missing first or second file is reported alone after them; existing files report no missing file |
| Directories.Dispatch | src/compare.py:76-81 | a directory is walked; otherwise a name ending in ".xlsx" or ".xls" is compared as workbooks; anything else is skipped |
| Directories.EndsWith | src/compare.py:79 | defines Python's `str.endswith`: the last characters equal the suffix exactly, case included; `WorkbookNameExamples` shows it |
| Directories.IsWorkbookName | src/compare.py:79 | defines the test `name.endswith(".xlsx") or name.endswith(".xls")` with `EndsWith`; `Dispatch` and `WorkbookNameExamples` state how it is used |
| Directories.WorkbookNameExamples | src/compare.py:79 | the suffix test is exact and case-sensitive: "a.XLSX" and "a.xlsm" are skipped |
| Directories.FirstVisits | src/compare.py:67-69 | defines the visits of the first loop; `FirstVisitsMatchEntries` states their meaning |
| Directories.LaterVisits | src/compare.py:70-78 | defines the visits of the second loop, each dispatched on the file system's `is_dir` of `dir_1/name`, an input; `LaterVisitsMatchEntries` states their meaning |
| Directories.VisitOrder | src/compare.py:65-72 | defines every visit of one walk, in order; `VisitNamesInOrder`, `VisitsCoverBothDirectories`, `RecursionFollowsFirstDirectory` and `OnlyFirstDirectoryRecursed` state its meaning |
| Directories.PairEntries | src/compare.py:65-72 | the two loops with their `visited` list produce the visit order: every entry of the first directory, then the entries of the second not yet visited |
| Directories.FirstVisitsMatchEntries | src/compare.py:67-69 | the first loop visits the first directory's entries in order, each dispatched on its own entry |
| Directories.LaterVisitsMatchEntries | src/compare.py:70-78 | the second loop visits the second directory's names that the first lacks, in order, each dispatched on whether the file system says `dir_1/name` is a directory |
| Directories.VisitNamesInOrder | src/compare.py:65-72 | the visited names are the first directory's names in order, followed by the second directory's new names in order |
| Directories.VisitsCoverBothDirectories | src/compare.py:65-72 | a name is visited if and only if it is in either directory; with listings that name each entry once, each name is visited once |
| Directories.RecursionFollowsFirstDirectory | src/compare.py:67-78 | a first-loop visit walks a subdirectory exactly when its entry is a directory; a second-loop visit exactly when the file system says `dir_1/name` is a directory |
| Directories.OnlyFirstDirectoryRecursed | src/compare.py:67-78 | on a file system that matches names exactly, where no name missing from the first listing is a directory under the first directory, the second loop never walks a subdirectory |
| Directories.CaseInsensitiveTwice | src/compare.py:67-78 | on a file system that ignores case, a directory "Sub" of the first directory and "sub" of the second are each walked, so the pair is walked twice |
| Reporting.Report.Out | src/compare.py:51-55 | one more line at the end of the report |
| Reporting.Report.DiffCells | src/compare.py:120-126 | the cell loop with its `diffs` counter and `break` appends exactly the bounded cell scan |
| Reporting.Report.CompareColumns | src/compare.py:113-126 | comparing a shared column appends exactly that column's findings |
| Reporting.Report.CompareColumnEntry | src/compare.py:111-128 | one pass of the column loop appends that column's findings, or its missing-column line |
| Reporting.Report.CompareColumnList | src/compare.py:110-128 | the column loop appends the findings of every column of the first sheet, in index order |
| Reporting.Report.CompareSheets | src/compare.py:105-128 | two sheets of one name append the count lines, then the columns when the row counts agree |
| Reporting.Report.CompareSheetEntry | src/compare.py:103-130 | one pass of the sheet loop appends that sheet's findings, or its not-found line |
| Reporting.Report.CompareSheetList | src/compare.py:102-130 | the sheet loop appends the findings of every sheet of the first workbook, in order |
| Reporting.Report.CompareBooks | src/compare.py:99-130 | the walk over two loaded workbooks appends exactly the findings `Comparison.BookFindings` gives |
| Reporting.Report.CompareFiles | src/compare.py:85-130 | `compare_files` appends the headings, then a missing-file line or the walk's findings |
| Reporting.Report.CompareDirs | src/compare.py:57-72 | a missing directory appends one line naming the second directory and visits nothing; otherwise nothing is appended and the visits come in the walk's order, second-loop entries dispatched on the given `is_dir` of `dir_1/name` |

## Left out

- Loading workbooks (`read_file`, `unlock`, `is_locked`, src/compare.py:132-157). The model takes the loaded workbooks as parameters. So the "INFO: Unlocking" and "FATAL ERROR: Failed to unlock" lines and the Excel automation are left out.
- `main` (src/compare.py:17-49): argument parsing, the output file, the timing and the "DONE" line are I/O.
- Output: `out` writes a line to the console and the output file. The model appends a `Finding` that carries the line's values instead of the formatted text.
- The existence of files and directories is a boolean parameter.
- Comparison.ColumnSum: the model's sum is an exact, unbounded integer. pandas sums the mapped column in fixed width (src/compare.py:115-116): as int64, which wraps past 2^63, or as float64 once a NaN is present, which rounds past 2^53. The model does not capture either effect.
- Cell values other than integers, booleans, text and empty cells (floats, complex numbers, dates) are left out. `round(..., 4)` leaves integer sums unchanged, so it is not modelled.
- The `try`/`except` of `compare_dir_or_file` (src/compare.py:80-83) is left out. So is the `ValueError` that `col_num_to_name` would raise inside the walk past 28 million columns. Findings carry the zero-based column index; `ColumnNames.ColNumToName` gives its label and models that error as `None`.
- Recursion into real directory trees: `Reporting.Report.CompareDirs` returns the visits with their actions. Walking a subdirectory, or running `compare_files` with cell comparison off on a pair of workbooks, is left to its caller, because both need the file system.
- The `full_comp` of directory mode and of single-file mode is whatever `main` passes, i.e. whether an output file was given (src/compare.py:40, 42). The model takes it as a parameter.
- The file system's `is_dir` of `dir_1/name` for a name of the second directory alone: `Directories.LaterVisits` takes it as the input `dir1IsDir`, because whether that path resolves (it does not on a file system that matches names exactly; it can on one that ignores case) depends on the file system.
- A loaded sheet's columns all have as many cells as the sheet has rows. The model does not tie column length to the row count. Instead, the walk requires that every column reported missing has a first cell to show (src/compare.py:128), which the loader guarantees.
- A loaded workbook cannot hold two sheets of one name. The model's workbook is a sequence, and lookup finds the first sheet of a name.
