/** Cell values as the workbook loader hands them over, Python's equality on
    them, and the per-cell checksum `convert_to_float` with its unused
    sibling `float_or_zero` (src/compare.py:165-173). */
module Cells {

  /** One loaded cell. The loader keeps every cell as an untyped object: an
      integer, a boolean, a piece of text, or an empty cell, which it
      represents as a floating-point NaN. */
  datatype Cell = Num(n: int) | Bool(b: bool) | Text(s: string) | Blank

  /** What the checksum gives for one cell: an integer, or the NaN of an
      empty cell, which is a float and so passes through unchanged. */
  datatype Number = Value(v: int) | NaN

  /** Python's `str.isspace` for one character. */
  predicate IsSpace(ch: char) {
    var c := ch as int;
    c == 0x20 || 0x09 <= c <= 0x0D || 0x1C <= c <= 0x1F || c == 0x85 || c == 0xA0
    || c == 0x1680 || 0x2000 <= c <= 0x200A || c == 0x2028 || c == 0x2029
    || c == 0x202F || c == 0x205F || c == 0x3000
  }

  predicate AllSpace(s: string) {
    forall i :: 0 <= i < |s| ==> IsSpace(s[i])
  }

  /** `s` without its leading whitespace: a suffix of `s` that starts with a
      non-space, everything before it being whitespace. */
  function TrimStart(s: string): (r: string)
    ensures |r| <= |s| && r == s[|s| - |r|..]
    ensures AllSpace(s[..|s| - |r|])
    ensures r != [] ==> !IsSpace(r[0])
    decreases |s|
  {
    if s != [] && IsSpace(s[0]) then
      var r := TrimStart(s[1..]);
      var k := |s| - |r|;
      assert s[1..][k - 1..] == s[k..];
      assert forall i :: 1 <= i < k ==> s[i] == s[1..][..k - 1][i - 1];
      r
    else s
  }

  /** `s` without its trailing whitespace: a prefix of `s` that ends with a
      non-space, everything after it being whitespace. */
  function TrimEnd(s: string): (r: string)
    ensures |r| <= |s| && r == s[..|r|]
    ensures AllSpace(s[|r|..])
    ensures r != [] ==> !IsSpace(r[|r| - 1])
    decreases |s|
  {
    if s != [] && IsSpace(s[|s| - 1]) then
      var r := TrimEnd(s[..|s| - 1]);
      assert s[..|s| - 1][..|r|] == s[..|r|];
      assert forall i :: |r| <= i < |s| - 1 ==> s[i] == s[..|s| - 1][|r|..][i - |r|];
      r
    else s
  }

  /** Python's `str.strip()`. */
  function Strip(s: string): string {
    TrimEnd(TrimStart(s))
  }

  lemma {:induction false} TrimStartSpaces(pre: string, x: string)
    requires AllSpace(pre)
    ensures TrimStart(pre + x) == TrimStart(x)
    decreases |pre|
  {
    if pre == [] {
      assert pre + x == x;
    } else {
      assert (pre + x)[0] == pre[0];
      assert (pre + x)[1..] == pre[1..] + x;
      TrimStartSpaces(pre[1..], x);
    }
  }

  lemma {:induction false} TrimStartAppend(s: string, t: string)
    requires !AllSpace(s)
    ensures TrimStart(s + t) == TrimStart(s) + t
    decreases |s|
  {
    var i :| 0 <= i < |s| && !IsSpace(s[i]);
    assert (s + t)[0] == s[0];
    if IsSpace(s[0]) {
      assert s[1..][i - 1] == s[i];
      assert (s + t)[1..] == s[1..] + t;
      TrimStartAppend(s[1..], t);
    }
  }

  lemma {:induction false} TrimEndSpaces(x: string, post: string)
    requires AllSpace(post)
    ensures TrimEnd(x + post) == TrimEnd(x)
    decreases |post|
  {
    if post == [] {
      assert x + post == x;
    } else {
      var p := post[..|post| - 1];
      assert (x + post)[|x + post| - 1] == post[|post| - 1];
      assert (x + post)[..|x + post| - 1] == x + p;
      TrimEndSpaces(x, p);
    }
  }

  /** Only whitespace strips to nothing. */
  lemma StripEmpty(s: string)
    ensures Strip(s) == [] <==> AllSpace(s)
  {
    var t := TrimStart(s);
    assert s == s[..|s| - |t|] + t;
    if Strip(s) == [] {
      assert t[0..] == t;
    }
  }

  /** Whitespace around a string does not change what it strips to. */
  lemma StripSurrounding(pre: string, s: string, post: string)
    requires AllSpace(pre) && AllSpace(post)
    ensures Strip(pre + s + post) == Strip(s)
  {
    assert pre + s + post == pre + (s + post);
    TrimStartSpaces(pre, s + post);
    if AllSpace(s) {
      assert AllSpace(s + post) by {
        forall i | 0 <= i < |s + post| ensures IsSpace((s + post)[i]) {
          if i < |s| { assert (s + post)[i] == s[i]; } else { assert (s + post)[i] == post[i - |s|]; }
        }
      }
      StripEmpty(s + post);
      StripEmpty(s);
    } else {
      TrimStartAppend(s, post);
      TrimEndSpaces(TrimStart(s), post);
    }
  }

  /** A string that neither starts nor ends with whitespace strips to itself. */
  lemma StripUnchanged(s: string)
    requires s == [] || (!IsSpace(s[0]) && !IsSpace(s[|s| - 1]))
    ensures Strip(s) == s
  {
  }

  /** `str(value)` for the cells that are not numbers. */
  function BoolText(b: bool): string {
    if b then "True" else "False"
  }

  /** Python's `1 == True` and `0 == False`: a boolean compares as 1 or 0. */
  function BoolInt(b: bool): int {
    if b then 1 else 0
  }

  /** `convert_to_float` (src/compare.py:170-173): a number that is not a
      boolean passes through; an empty cell is the float NaN and passes
      through too; anything else becomes the length of its stripped `str`. */
  function ConvertToFloat(c: Cell): (r: Number)
    ensures c.Num? ==> r == Value(c.n)
    ensures r.NaN? <==> c.Blank?
    ensures c.Text? ==> 0 <= r.v <= |c.s|
    ensures c.Bool? ==> 0 <= r.v <= |BoolText(c.b)|
  {
    match c
    case Num(n) => Value(n)
    case Blank => NaN
    case Bool(b) => Value(|Strip(BoolText(b))|)
    case Text(s) => Value(|Strip(s)|)
  }

  /** `float_or_zero` (src/compare.py:165-168): like `convert_to_float` on
      numbers, 0 on everything else. It has no caller. */
  function FloatOrZero(c: Cell): (r: Number)
    ensures c.Num? ==> r == Value(c.n)
    ensures r.NaN? <==> c.Blank?
    ensures c.Text? || c.Bool? ==> r == Value(0)
  {
    match c
    case Num(n) => Value(n)
    case Blank => NaN
    case _ => Value(0)
  }

  /** Booleans are text to the checksum: True counts 4, False counts 5. */
  lemma ConvertBooleans()
    ensures ConvertToFloat(Bool(true)) == Value(4)
    ensures ConvertToFloat(Bool(false)) == Value(5)
  {
    assert !IsSpace('T') && !IsSpace('e') && !IsSpace('F');
    assert TrimStart("True") == "True" && TrimEnd("True") == "True";
    assert TrimStart("False") == "False" && TrimEnd("False") == "False";
  }

  /** The text checksum ignores whitespace around the text. */
  lemma ConvertIgnoresSurroundingSpace(pre: string, s: string, post: string)
    requires AllSpace(pre) && AllSpace(post)
    ensures ConvertToFloat(Text(pre + s + post)) == ConvertToFloat(Text(s))
  {
    StripSurrounding(pre, s, post);
  }

  /** The two conversions agree exactly on numbers, empty cells and
      whitespace-only text. */
  lemma ConvertVersusFloatOrZero(c: Cell)
    ensures ConvertToFloat(c) == FloatOrZero(c) <==> c.Num? || c.Blank? || (c.Text? && AllSpace(c.s))
  {
    match c
    case Text(s) => StripEmpty(s);
    case Bool(b) => ConvertBooleans();
    case _ =>
  }

  /** Python's `==` on two loaded values. NaN equals nothing, itself
      included; numbers and booleans compare by value; text equals only
      equal text. */
  predicate PyEq(a: Cell, b: Cell) {
    match (a, b)
    case (Num(x), Num(y)) => x == y
    case (Num(x), Bool(q)) => x == BoolInt(q)
    case (Bool(p), Num(y)) => BoolInt(p) == y
    case (Bool(p), Bool(q)) => p == q
    case (Text(s), Text(t)) => s == t
    case _ => false
  }

  /** The row test `v1 == v1 and v1 != v2` of src/compare.py:122. */
  predicate IsMismatch(v1: Cell, v2: Cell) {
    PyEq(v1, v1) && !PyEq(v1, v2)
  }

  /** The self-equality test singles out exactly the empty (NaN) cells, and a
      row mismatches iff its first value is not empty and differs from the
      second, counting a number and a boolean of the same value as equal. */
  lemma MismatchMeaning(v1: Cell, v2: Cell)
    ensures !PyEq(v1, v1) <==> v1.Blank?
    ensures IsMismatch(v1, v2) <==>
      !v1.Blank? && v1 != v2
      && !(v1.Num? && v2.Bool? && v1.n == BoolInt(v2.b))
      && !(v1.Bool? && v2.Num? && BoolInt(v1.b) == v2.n)
  {
  }
}
