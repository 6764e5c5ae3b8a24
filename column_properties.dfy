/** What the column checksum and the cell loop promise
    (src/compare.py:113-126). */
module ColumnProperties {
  import opened Wrappers
  import opened Cells
  import opened Workbooks
  import opened Comparison

  lemma {:induction false} ColumnSumAppend(a: Column, b: Column)
    ensures ColumnSum(a + b) == ColumnSum(a) + ColumnSum(b)
    decreases |b|
  {
    if b == [] {
      assert a + b == a;
    } else {
      var b' := b[..|b| - 1];
      assert (a + b)[..|a + b| - 1] == a + b';
      ColumnSumAppend(a, b');
    }
  }

  lemma ColumnSumPair(x: Cell, y: Cell)
    ensures ColumnSum([x, y]) == Contribution(x) + Contribution(y)
  {
    assert [x, y][..1] == [x];
    assert [x][..0] == [];
    assert ColumnSum([x]) == ColumnSum([]) + Contribution(x);
  }

  /** Taking one cell out of a column takes its term out of the sum. */
  lemma ColumnSumRemove(b: Column, k: nat)
    requires k < |b|
    ensures ColumnSum(b) == Contribution(b[k]) + ColumnSum(b[..k] + b[k + 1..])
  {
    var p, x, q := b[..k], b[k], b[k + 1..];
    SplitAt(b, k);
    ColumnSumAppend(p + [x], q);
    ColumnSumAppend(p, [x]);
    ColumnSumAppend(p, q);
    ColumnSumSingle(x);
  }

  lemma ColumnSumCons(a: Column)
    requires 0 < |a|
    ensures ColumnSum(a) == Contribution(a[0]) + ColumnSum(a[1..])
  {
    HeadTail(a);
    ColumnSumAppend([a[0]], a[1..]);
    ColumnSumSingle(a[0]);
  }

  lemma ColumnSumSingle(x: Cell)
    ensures ColumnSum([x]) == Contribution(x)
  {
    assert [x][..0] == [];
  }

  /** The checksum does not see the order of the cells: columns holding the
      same cells in any order have the same sum. */
  lemma {:induction false} ColumnSumPermutation(a: Column, b: Column)
    requires multiset(a) == multiset(b)
    ensures ColumnSum(a) == ColumnSum(b)
    decreases |a|
  {
    SameLength(a, b);
    if a != [] {
      var k := MatchHead(a, b);
      ColumnSumPermutation(a[1..], b[..k] + b[k + 1..]);
      ColumnSumRemove(b, k);
      ColumnSumCons(a);
    }
  }

  /** Each of `d` is a cell finding of this sheet and column for a row from
      1 to `n`, carrying the two cells of that row, which mismatch; and the
      rows strictly increase. */
  predicate SoundCellReports(d: seq<Finding>, sheet: string, col: nat, c1: Column, c2: Column, n: nat)
    requires n <= |c1| && n <= |c2|
  {
    && (forall k :: 0 <= k < |d| ==>
          d[k].CellDiffers? && d[k].sheet == sheet && d[k].col == col && 1 <= d[k].row <= n
          && d[k].value1 == c1[d[k].row - 1] && d[k].value2 == c2[d[k].row - 1]
          && IsMismatch(d[k].value1, d[k].value2))
    && (forall i, j :: 0 <= i < j < |d| ==> d[i].row < d[j].row)
  }

  /** The cell scan reports only mismatching rows, in increasing order. */
  lemma {:induction false} CellDiffsSound(sheet: string, col: nat, c1: Column, c2: Column, n: nat)
    requires n <= |c1| && n <= |c2|
    ensures SoundCellReports(CellDiffs(sheet, col, c1, c2, n), sheet, col, c1, c2, n)
    decreases n
  {
    if n > 0 {
      CellDiffsSound(sheet, col, c1, c2, n - 1);
      var prev := CellDiffs(sheet, col, c1, c2, n - 1);
      var d := CellDiffs(sheet, col, c1, c2, n);
      if IsMismatch(c1[n - 1], c2[n - 1]) {
        assert d == prev + [CellDiffers(sheet, col, n, c1[n - 1], c2[n - 1])];
      } else {
        assert d == prev;
      }
    }
  }

  /** Every mismatching row below `n` is reported, as row index + 1. */
  lemma {:induction false} CellDiffsComplete(sheet: string, col: nat, c1: Column, c2: Column, n: nat)
    requires n <= |c1| && n <= |c2|
    ensures forall r :: 0 <= r < n && IsMismatch(c1[r], c2[r]) ==>
      CellDiffers(sheet, col, r + 1, c1[r], c2[r]) in CellDiffs(sheet, col, c1, c2, n)
    decreases n
  {
    if n > 0 {
      CellDiffsComplete(sheet, col, c1, c2, n - 1);
    }
  }

  /** One finding per mismatching row. */
  lemma {:induction false} CellDiffsCount(sheet: string, col: nat, c1: Column, c2: Column, n: nat)
    requires n <= |c1| && n <= |c2|
    ensures |CellDiffs(sheet, col, c1, c2, n)| == |MismatchRows(c1, c2, n)|
    decreases n
  {
    if n == 0 {
      assert MismatchRows(c1, c2, 0) == {};
    } else {
      CellDiffsCount(sheet, col, c1, c2, n - 1);
      if IsMismatch(c1[n - 1], c2[n - 1]) {
        assert MismatchRows(c1, c2, n) == MismatchRows(c1, c2, n - 1) + {n - 1};
      } else {
        assert MismatchRows(c1, c2, n) == MismatchRows(c1, c2, n - 1);
      }
    }
  }

  /** Scanning fewer rows reports a prefix of what scanning more reports. */
  lemma {:induction false} CellDiffsPrefix(sheet: string, col: nat, c1: Column, c2: Column, i: nat, j: nat)
    requires i <= j <= |c1| && j <= |c2|
    ensures |CellDiffs(sheet, col, c1, c2, i)| <= |CellDiffs(sheet, col, c1, c2, j)|
    ensures CellDiffs(sheet, col, c1, c2, i) == CellDiffs(sheet, col, c1, c2, j)[..|CellDiffs(sheet, col, c1, c2, i)|]
    decreases j
  {
    if i < j {
      CellDiffsPrefix(sheet, col, c1, c2, i, j - 1);
    }
  }

  /** Bounded mode reports the first four mismatching rows, or all of them
      when there are fewer. */
  lemma BoundedReportsFirstFour(sheet: string, col: nat, c1: Column, c2: Column)
    ensures var all := AllCellDiffs(sheet, col, c1, c2);
      var r := Bounded(all, false);
      |r| == Min(|MismatchRows(c1, c2, Min(|c1|, |c2|))|, BreakAfter + 1) && r == all[..|r|]
  {
    CellDiffsCount(sheet, col, c1, c2, Min(|c1|, |c2|));
  }

  /** Full mode reports every mismatching row, once each and in row order,
      and nothing else. */
  lemma FullReportsEveryMismatch(sheet: string, col: nat, c1: Column, c2: Column)
    ensures var n := Min(|c1|, |c2|);
      var r := Bounded(AllCellDiffs(sheet, col, c1, c2), true);
      && |r| == |MismatchRows(c1, c2, n)|
      && (forall row :: 0 <= row < n && IsMismatch(c1[row], c2[row]) ==> CellDiffers(sheet, col, row + 1, c1[row], c2[row]) in r)
      && (forall k :: 0 <= k < |r| ==> r[k].CellDiffers? && 1 <= r[k].row <= n && IsMismatch(c1[r[k].row - 1], c2[r[k].row - 1]))
      && (forall i, j :: 0 <= i < j < |r| ==> r[i].row < r[j].row)
  {
    var n := Min(|c1|, |c2|);
    CellDiffsCount(sheet, col, c1, c2, n);
    CellDiffsComplete(sheet, col, c1, c2, n);
    CellDiffsSound(sheet, col, c1, c2, n);
  }

  /** A column's findings name its sheet and index, and are sum or cell findings. */
  lemma ColumnFindingsTagged(sheet: string, col: nat, c1: Column, c2: Column, cellComp: bool, fullComp: bool)
    ensures forall f :: f in ColumnFindings(sheet, col, c1, c2, cellComp, fullComp) ==>
      SheetOf(f) == Some(sheet) && (f.ColumnSumDiffers? || f.CellDiffers?) && f.col == col
  {
    var all := AllCellDiffs(sheet, col, c1, c2);
    CellDiffsSound(sheet, col, c1, c2, Min(|c1|, |c2|));
    var b := Bounded(all, fullComp);
    forall f | f in ColumnFindings(sheet, col, c1, c2, cellComp, fullComp)
      ensures SheetOf(f) == Some(sheet) && (f.ColumnSumDiffers? || f.CellDiffers?) && f.col == col
    {
      if f in b {
        var k :| 0 <= k < |b| && b[k] == f;
        assert all[k] == f;
      }
    }
  }

  /** The cell findings of a report, in order. */
  function CellReports(fs: seq<Finding>): seq<Finding>
    decreases |fs|
  {
    if fs == [] then []
    else
      var f := fs[|fs| - 1];
      CellReports(fs[..|fs| - 1]) + (if f.CellDiffers? then [f] else [])
  }

  lemma {:induction false} CellReportsAppend(a: seq<Finding>, b: seq<Finding>)
    ensures CellReports(a + b) == CellReports(a) + CellReports(b)
    decreases |b|
  {
    if b == [] {
      assert a + b == a;
    } else {
      var b' := b[..|b| - 1];
      assert (a + b)[..|a + b| - 1] == a + b';
      CellReportsAppend(a, b');
    }
  }

  /** A report of cell findings only is its own cell findings. */
  lemma {:induction false} CellReportsAll(fs: seq<Finding>)
    requires forall k :: 0 <= k < |fs| ==> fs[k].CellDiffers?
    ensures CellReports(fs) == fs
    decreases |fs|
  {
    if fs != [] {
      CellReportsAll(fs[..|fs| - 1]);
    }
  }

  /** The bounded cell scan holds cell findings only. */
  lemma BoundedCellsAreCellReports(sheet: string, col: nat, c1: Column, c2: Column, fullComp: bool)
    ensures CellReports(Bounded(AllCellDiffs(sheet, col, c1, c2), fullComp)) == Bounded(AllCellDiffs(sheet, col, c1, c2), fullComp)
  {
    var all := AllCellDiffs(sheet, col, c1, c2);
    var b := Bounded(all, fullComp);
    CellDiffsSound(sheet, col, c1, c2, Min(|c1|, |c2|));
    assert forall k :: 0 <= k < |b| ==> b[k] == all[k];
    CellReportsAll(b);
  }

  /** Cell findings are reported exactly when the sums differ and cell
      comparison is asked for, and then they are the bounded cell scan. */
  lemma ColumnCellReports(sheet: string, col: nat, c1: Column, c2: Column, cellComp: bool, fullComp: bool)
    ensures CellReports(ColumnFindings(sheet, col, c1, c2, cellComp, fullComp))
      == if ColumnSum(c1) != ColumnSum(c2) && (cellComp || fullComp)
         then Bounded(AllCellDiffs(sheet, col, c1, c2), fullComp) else []
  {
    var s1, s2 := ColumnSum(c1), ColumnSum(c2);
    if s1 != s2 {
      var head := [ColumnSumDiffers(sheet, col, s1, s2)];
      var tail := if cellComp || fullComp then Bounded(AllCellDiffs(sheet, col, c1, c2), fullComp) else [];
      assert ColumnFindings(sheet, col, c1, c2, cellComp, fullComp) == head + tail;
      CellReportsAppend(head, tail);
      assert CellReports(head) == CellReports([]) + [];
      BoundedCellsAreCellReports(sheet, col, c1, c2, fullComp);
    }
  }

  /** At most four cell findings per column without full mode; in full mode
      exactly as many as there are mismatching rows, when the sums differ. */
  lemma CellReportCount(sheet: string, col: nat, c1: Column, c2: Column, cellComp: bool, fullComp: bool)
    ensures var cells := CellReports(ColumnFindings(sheet, col, c1, c2, cellComp, fullComp));
      && (!fullComp ==> |cells| <= BreakAfter + 1)
      && (fullComp ==> |cells| == if ColumnSum(c1) == ColumnSum(c2) then 0 else |MismatchRows(c1, c2, Min(|c1|, |c2|))|)
  {
    ColumnCellReports(sheet, col, c1, c2, cellComp, fullComp);
    CellDiffsCount(sheet, col, c1, c2, Min(|c1|, |c2|));
  }

  /** The checksum's blind spot: columns holding the same cells, in any
      order, report nothing, even when the cells differ row by row.
      Identical columns are the special case. */
  lemma SameCellsUnreported(sheet: string, col: nat, c1: Column, c2: Column, cellComp: bool, fullComp: bool)
    requires multiset(c1) == multiset(c2)
    ensures ColumnFindings(sheet, col, c1, c2, cellComp, fullComp) == []
  {
    ColumnSumPermutation(c1, c2);
  }

  /** Text is summed by stripped length: text columns whose cells, row by
      row, strip to equally long strings report nothing, whatever the
      letters (["ab", "cd"] against ["ab", "xy"], say). */
  lemma {:induction false} TextLengthBlindSpot(sheet: string, col: nat, c1: Column, c2: Column, cellComp: bool, fullComp: bool)
    requires |c1| == |c2|
    requires forall i :: 0 <= i < |c1| ==> c1[i].Text? && c2[i].Text? && |Strip(c1[i].s)| == |Strip(c2[i].s)|
    ensures ColumnSum(c1) == ColumnSum(c2)
    ensures ColumnFindings(sheet, col, c1, c2, cellComp, fullComp) == []
    decreases |c1|
  {
    if c1 != [] {
      var k := |c1| - 1;
      TextLengthBlindSpot(sheet, col, c1[..k], c2[..k], cellComp, fullComp);
    }
  }

  /** Numbers [1, 2, 3] against [1, 2, 4]: sums 6 and 7, and one cell
      finding at row 3. */
  lemma NumericExample(sheet: string, col: nat, fullComp: bool)
    ensures ColumnFindings(sheet, col, [Num(1), Num(2), Num(3)], [Num(1), Num(2), Num(4)], true, fullComp)
      == [ColumnSumDiffers(sheet, col, 6, 7), CellDiffers(sheet, col, 3, Num(3), Num(4))]
  {
    var c1, c2 := [Num(1), Num(2), Num(3)], [Num(1), Num(2), Num(4)];
    ColumnSumAppend([Num(1)], [Num(2), Num(3)]);
    ColumnSumAppend([Num(1)], [Num(2), Num(4)]);
    assert c1 == [Num(1)] + [Num(2), Num(3)] && c2 == [Num(1)] + [Num(2), Num(4)];
    ColumnSumPair(Num(2), Num(3));
    ColumnSumPair(Num(2), Num(4));
    assert ColumnSum([Num(1)]) == 1 + ColumnSum([]);
    assert !IsMismatch(c1[0], c2[0]) && !IsMismatch(c1[1], c2[1]) && IsMismatch(c1[2], c2[2]);
    assert CellDiffs(sheet, col, c1, c2, 2) == [];
    assert AllCellDiffs(sheet, col, c1, c2) == [CellDiffers(sheet, col, 3, Num(3), Num(4))];
  }
}
