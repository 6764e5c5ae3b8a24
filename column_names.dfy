/** Spreadsheet-style column labels, `col_num_to_name` (src/compare.py:159-163). */
module ColumnNames {
  import opened Wrappers

  /** A Unicode code point as Python's `chr` accepts it (surrogates included). */
  type CodePoint = x: int | 0 <= x < 0x11_0000

  /** `ord('A')`. */
  const UpperA := 65

  /** The zero-based column index `n` as a label: `divmod(n, 26)` gives
      `(d, m)`; with `d == 0` the label is the one letter `chr(m + 65)`,
      otherwise the two characters `chr(d - 1 + 65)` and `chr(m + 65)`.
      `None` stands for the `ValueError` that `chr` raises once its
      argument passes the last code point. */
  function ColNumToName(n: nat): (r: Option<seq<CodePoint>>)
    ensures r.None? <==> n / 26 - 1 + UpperA >= 0x11_0000
    ensures r.Some? ==> (|r.value| == 1 <==> n < 26) && 1 <= |r.value| <= 2
    ensures r.Some? ==> r.value[|r.value| - 1] == UpperA + n % 26
  {
    var d, m := n / 26, n % 26;
    if d == 0 then Some([m + UpperA])
    else if d - 1 + UpperA < 0x11_0000 then Some([d - 1 + UpperA, m + UpperA])
    else None
  }

  predicate IsUpper(c: CodePoint) {
    UpperA <= c < UpperA + 26
  }

  /** The code points of a string. */
  function CodePoints(s: string): (r: seq<CodePoint>)
    ensures |r| == |s|
  {
    seq(|s|, i requires 0 <= i < |s| => s[i] as int)
  }

  /** The reading of a label of one or two upper-case letters as a column
      index, the inverse of `ColNumToName` ("A" is 0, "AA" is 26). */
  function NameToColNum(name: seq<CodePoint>): Option<nat> {
    if |name| == 1 && IsUpper(name[0]) then Some(name[0] - UpperA)
    else if |name| == 2 && IsUpper(name[0]) && IsUpper(name[1]) then
      Some((name[0] - UpperA + 1) * 26 + (name[1] - UpperA))
    else None
  }

  /** The standard labels: 0, 25, 26 and 701 are "A", "Z", "AA" and "ZZ". */
  lemma LabelExamples()
    ensures ColNumToName(0) == Some(CodePoints("A"))
    ensures ColNumToName(25) == Some(CodePoints("Z"))
    ensures ColNumToName(26) == Some(CodePoints("AA"))
    ensures ColNumToName(701) == Some(CodePoints("ZZ"))
  {
    assert CodePoints("A") == [65];
    assert CodePoints("Z") == [90];
    assert CodePoints("AA") == [65, 65];
    assert CodePoints("ZZ") == [90, 90];
  }

  /** Up to 701 ("ZZ") every name is one or two upper-case letters, one
      exactly below 26, and reads back as the index it came from. */
  lemma {:induction false} LabelsUpToZZ(n: nat)
    requires n <= 701
    ensures ColNumToName(n).Some?
    ensures forall k :: 0 <= k < |ColNumToName(n).value| ==> IsUpper(ColNumToName(n).value[k])
    ensures NameToColNum(ColNumToName(n).value) == Some(n)
  {
    var d, m := n / 26, n % 26;
    assert n == 26 * d + m;
    assert d <= 26;
  }

  /** Every one- or two-letter upper-case name is the name of its index. */
  lemma {:induction false} EveryLabelReached(name: seq<CodePoint>)
    requires NameToColNum(name).Some?
    ensures NameToColNum(name).value <= 701
    ensures ColNumToName(NameToColNum(name).value) == Some(name)
  {
    var n := NameToColNum(name).value;
    if |name| == 1 {
      assert name == [name[0]];
    } else {
      var q, r := name[0] - UpperA + 1, name[1] - UpperA;
      assert n == q * 26 + r && 1 <= q <= 26 && 0 <= r < 26;
      assert n / 26 == q && n % 26 == r;
      assert name == [name[0], name[1]];
    }
  }

  /** Distinct indices get distinct labels. */
  lemma {:induction false} LabelsInjective(a: nat, b: nat)
    requires ColNumToName(a).Some? && ColNumToName(a) == ColNumToName(b)
    ensures a == b
  {
    assert a == 26 * (a / 26) + a % 26;
    assert b == 26 * (b / 26) + b % 26;
  }

  /** Past 701 the first character is no longer a letter A-Z. */
  lemma {:induction false} BeyondZZ(n: nat)
    requires n > 701 && ColNumToName(n).Some?
    ensures |ColNumToName(n).value| == 2 && ColNumToName(n).value[0] > 'Z' as int
  {
    assert n / 26 >= 27;
  }
}
