/** The directory walk of `compare_dirs` and `compare_dir_or_file`
    (src/compare.py:57-81) over the entry lists of the two directories:
    which names are visited, in which order, and what is done with each. */
module Directories {
  import opened Wrappers

  /** One entry of a directory listing: its name and whether it is a
      directory. */
  datatype Entry = Entry(name: string, isDir: bool)

  /** What `compare_dir_or_file` does with the pair `dir_1/name`,
      `dir_2/name`: walk it as a pair of directories, compare it as a pair
      of workbooks (with cell comparison off), or nothing. */
  datatype Action = Recurse | CompareBooks | Skip

  /** One call of `compare_dir_or_file` on `dir_1/name` and `dir_2/name`. */
  datatype Visit = Visit(name: string, action: Action)

  /** `str.endswith`: a case-sensitive test of the last characters. */
  predicate EndsWith(s: string, suffix: string) {
    |suffix| <= |s| && s[|s| - |suffix|..] == suffix
  }

  /** Workbook file names, as src/compare.py:79 recognises them. */
  predicate IsWorkbookName(name: string) {
    EndsWith(name, ".xlsx") || EndsWith(name, ".xls")
  }

  /** `compare_dir_or_file` (src/compare.py:76-81), deciding on the entry of
      the first directory: `isDir` is whether `dir_1/name` is a directory. */
  function Dispatch(isDir: bool, name: string): (r: Action)
    ensures r == Recurse <==> isDir
    ensures r == CompareBooks <==> !isDir && IsWorkbookName(name)
  {
    if isDir then Recurse
    else if IsWorkbookName(name) then CompareBooks
    else Skip
  }

  /** The names of a listing, in order. */
  function EntryNames(es: seq<Entry>): seq<string> {
    seq(|es|, k requires 0 <= k < |es| => es[k].name)
  }

  /** The names of a sequence of visits, in order. */
  function VisitNames(vs: seq<Visit>): seq<string> {
    seq(|vs|, k requires 0 <= k < |vs| => vs[k].name)
  }

  /** The first loop (src/compare.py:67-69): every entry of the first
      directory, dispatched on that entry. */
  function FirstVisits(es1: seq<Entry>): seq<Visit>
    decreases |es1|
  {
    if es1 == [] then []
    else
      var e := es1[|es1| - 1];
      FirstVisits(es1[..|es1| - 1]) + [Visit(e.name, Dispatch(e.isDir, e.name))]
  }

  /** The second loop (src/compare.py:70-72): the entries of the second
      directory whose names were not visited, dispatched on
      `(dir_1 / name).is_dir()`. The file system answers that, and
      `dir1IsDir` stands for its answer: on a file system that matches
      names exactly it is false, since the first listing lacks the name;
      on one that ignores case it can be true ("sub" against "Sub"). */
  function LaterVisits(es2: seq<Entry>, visited: seq<string>, dir1IsDir: string -> bool): seq<Visit>
    decreases |es2|
  {
    if es2 == [] then []
    else
      var e := es2[|es2| - 1];
      LaterVisits(es2[..|es2| - 1], visited, dir1IsDir)
      + (if e.name in visited then [] else [Visit(e.name, Dispatch(dir1IsDir(e.name), e.name))])
  }

  /** Every visit of one directory walk, in order. */
  function VisitOrder(es1: seq<Entry>, es2: seq<Entry>, dir1IsDir: string -> bool): seq<Visit> {
    FirstVisits(es1) + LaterVisits(es2, EntryNames(es1), dir1IsDir)
  }

  /** The two loops of src/compare.py:65-72, with the `visited` list. */
  method PairEntries(es1: seq<Entry>, es2: seq<Entry>, dir1IsDir: string -> bool) returns (visits: seq<Visit>)
    ensures visits == VisitOrder(es1, es2, dir1IsDir)
  {
    var visited: seq<string> := [];
    visits := [];
    var i := 0;
    while i < |es1|
      invariant 0 <= i <= |es1|
      invariant visited == EntryNames(es1[..i])
      invariant visits == FirstVisits(es1[..i])
    {
      assert es1[..i + 1][..i] == es1[..i];
      visited := visited + [es1[i].name];
      visits := visits + [Visit(es1[i].name, Dispatch(es1[i].isDir, es1[i].name))];
      i := i + 1;
    }
    assert es1[..i] == es1;
    var j := 0;
    while j < |es2|
      invariant 0 <= j <= |es2|
      invariant visits == FirstVisits(es1) + LaterVisits(es2[..j], visited, dir1IsDir)
    {
      assert es2[..j + 1][..j] == es2[..j];
      if !(es2[j].name in visited) {
        visits := visits + [Visit(es2[j].name, Dispatch(dir1IsDir(es2[j].name), es2[j].name))];
      }
      j := j + 1;
    }
    assert es2[..j] == es2;
  }

  /** The first loop visits the first directory's names, in order, each
      dispatched on its own entry. */
  lemma {:induction false} FirstVisitsMatchEntries(es1: seq<Entry>)
    ensures |FirstVisits(es1)| == |es1|
    ensures forall k :: 0 <= k < |es1| ==>
      FirstVisits(es1)[k] == Visit(es1[k].name, Dispatch(es1[k].isDir, es1[k].name))
    ensures VisitNames(FirstVisits(es1)) == EntryNames(es1)
    decreases |es1|
  {
    if es1 != [] {
      FirstVisitsMatchEntries(es1[..|es1| - 1]);
    }
  }

  /** The second loop visits the second directory's names that the first
      lacks, in order, each dispatched on whether its path under the first
      directory is a directory. */
  lemma {:induction false} LaterVisitsMatchEntries(es2: seq<Entry>, visited: seq<string>, dir1IsDir: string -> bool)
    ensures VisitNames(LaterVisits(es2, visited, dir1IsDir)) == Without(EntryNames(es2), visited)
    ensures forall v :: v in LaterVisits(es2, visited, dir1IsDir) ==> v.action == Dispatch(dir1IsDir(v.name), v.name)
    decreases |es2|
  {
    if es2 != [] {
      var init := es2[..|es2| - 1];
      var e := es2[|es2| - 1];
      LaterVisitsMatchEntries(init, visited, dir1IsDir);
      EntryNamesSnoc(es2);
      WithoutSnoc(EntryNames(init), e.name, visited);
      var tail := if e.name in visited then [] else [Visit(e.name, Dispatch(dir1IsDir(e.name), e.name))];
      VisitNamesAppend(LaterVisits(init, visited, dir1IsDir), tail);
    }
  }

  lemma EntryNamesSnoc(es: seq<Entry>)
    requires es != []
    ensures EntryNames(es) == EntryNames(es[..|es| - 1]) + [es[|es| - 1].name]
  {
  }

  lemma VisitNamesAppend(a: seq<Visit>, b: seq<Visit>)
    ensures VisitNames(a + b) == VisitNames(a) + VisitNames(b)
  {
  }

  /** The walk visits the first directory's names in order, then the
      second directory's new names in order (src/compare.py:67-72). */
  lemma VisitNamesInOrder(es1: seq<Entry>, es2: seq<Entry>, dir1IsDir: string -> bool)
    ensures VisitNames(VisitOrder(es1, es2, dir1IsDir)) == EntryNames(es1) + Without(EntryNames(es2), EntryNames(es1))
  {
    FirstVisitsMatchEntries(es1);
    LaterVisitsMatchEntries(es2, EntryNames(es1), dir1IsDir);
    VisitNamesAppend(FirstVisits(es1), LaterVisits(es2, EntryNames(es1), dir1IsDir));
  }

  /** Every name of either directory is visited, and nothing else; with
      listings that name each entry once, each name is visited once. */
  lemma VisitsCoverBothDirectories(es1: seq<Entry>, es2: seq<Entry>, dir1IsDir: string -> bool)
    ensures forall x :: x in VisitNames(VisitOrder(es1, es2, dir1IsDir)) <==> x in EntryNames(es1) || x in EntryNames(es2)
    ensures NoDup(EntryNames(es1)) && NoDup(EntryNames(es2)) ==> NoDup(VisitNames(VisitOrder(es1, es2, dir1IsDir)))
  {
    VisitNamesInOrder(es1, es2, dir1IsDir);
    var n1 := EntryNames(es1);
    var w := Without(EntryNames(es2), n1);
    if NoDup(n1) && NoDup(EntryNames(es2)) {
      var a := n1 + w;
      forall i, j | 0 <= i < j < |a| ensures a[i] != a[j] {
        if j >= |n1| && i < |n1| {
          assert a[j] in w;
        }
      }
    }
  }

  /** A visit walks a subdirectory exactly when its path under the first
      directory is one: for the first loop that is the entry's own
      `is_dir`, for the second loop the file system's answer for
      `dir_1/name` (src/compare.py:67-72, 77). */
  lemma RecursionFollowsFirstDirectory(es1: seq<Entry>, es2: seq<Entry>, dir1IsDir: string -> bool)
    ensures var vs := VisitOrder(es1, es2, dir1IsDir);
      && |FirstVisits(es1)| == |es1|
      && (forall k :: 0 <= k < |es1| ==> (vs[k].action == Recurse <==> es1[k].isDir))
      && (forall k :: |es1| <= k < |vs| ==> (vs[k].action == Recurse <==> dir1IsDir(vs[k].name)))
  {
    FirstVisitsMatchEntries(es1);
    LaterVisitsMatchEntries(es2, EntryNames(es1), dir1IsDir);
    var vs := VisitOrder(es1, es2, dir1IsDir);
    forall k | |es1| <= k < |vs| ensures vs[k].action == Recurse <==> dir1IsDir(vs[k].name) {
      assert vs[k] in LaterVisits(es2, EntryNames(es1), dir1IsDir);
    }
  }

  /** On a file system that matches names exactly, a name the first listing
      lacks has no directory under the first directory, so only entries of
      the first directory are walked as directories. */
  lemma OnlyFirstDirectoryRecursed(es1: seq<Entry>, es2: seq<Entry>, dir1IsDir: string -> bool)
    requires forall x :: x !in EntryNames(es1) ==> !dir1IsDir(x)
    ensures var vs := VisitOrder(es1, es2, dir1IsDir);
      forall k :: |es1| <= k < |vs| ==> vs[k].action != Recurse
  {
    RecursionFollowsFirstDirectory(es1, es2, dir1IsDir);
    VisitNamesInOrder(es1, es2, dir1IsDir);
    FirstVisitsMatchEntries(es1);
    var vs := VisitOrder(es1, es2, dir1IsDir);
    forall k | |es1| <= k < |vs| ensures vs[k].action != Recurse {
      var w := Without(EntryNames(es2), EntryNames(es1));
      assert VisitNames(vs)[k] == vs[k].name;
      assert vs[k].name == w[k - |es1|];
      assert w[k - |es1|] in w;
    }
  }

  /** On a file system that ignores case, a directory "Sub" of the first
      directory and "sub" of the second are walked twice, once from each
      loop. */
  lemma CaseInsensitiveTwice()
    ensures VisitOrder([Entry("Sub", true)], [Entry("sub", true)], x => x == "Sub" || x == "sub")
         == [Visit("Sub", Recurse), Visit("sub", Recurse)]
  {
    assert "sub" != "Sub";
    assert EntryNames([Entry("Sub", true)]) == ["Sub"];
  }

  /** The suffix test is case-sensitive and exact: upper-case and
      macro-enabled workbooks are skipped. */
  lemma WorkbookNameExamples()
    ensures Dispatch(false, "a.xlsx") == CompareBooks
    ensures Dispatch(false, "a.xls") == CompareBooks
    ensures Dispatch(false, "a.XLSX") == Skip
    ensures Dispatch(false, "a.xlsm") == Skip
    ensures Dispatch(true, "a.xlsx") == Recurse
  {
    assert "a.xlsx"[1..] == ".xlsx";
    assert "a.xls"[1..] == ".xls";
    assert "a.XLSX"[1..] != ".xlsx";
  }
}
