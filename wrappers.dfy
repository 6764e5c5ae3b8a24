/** Small helpers shared by the model: an optional value and a few facts
    about sequences. */
module Wrappers {

  datatype Option<+T> = None | Some(value: T)

  /** No element occurs twice. */
  predicate NoDup<T(==)>(s: seq<T>) {
    forall i, j :: 0 <= i < j < |s| ==> s[i] != s[j]
  }

  /** The elements of `names` that do not occur in `others`, in their order
      (a list-membership test, as in Python's `not x in list`). */
  function Without(names: seq<string>, others: seq<string>): (r: seq<string>)
    ensures forall x :: x in r <==> x in names && x !in others
    ensures NoDup(names) ==> NoDup(r)
    decreases |names|
  {
    if names == [] then []
    else
      var init := names[..|names| - 1];
      var last := names[|names| - 1];
      assert names == init + [last];
      assert forall x :: x in names <==> x in init || x == last;
      Without(init, others) + (if last in others then [] else [last])
  }

  /** The one-step unfolding of `Without`. */
  lemma WithoutSnoc(names: seq<string>, name: string, others: seq<string>)
    ensures Without(names + [name], others) == Without(names, others) + (if name in others then [] else [name])
  {
    assert (names + [name])[..|names|] == names;
  }

  /** Two sequences with the same elements, the first one not empty: the
      second holds the first one's head at some index `k`, and the rests,
      with those two removed, again have the same elements. */
  lemma MatchHead<T>(a: seq<T>, b: seq<T>) returns (k: nat)
    requires multiset(a) == multiset(b) && 0 < |a|
    ensures k < |b| && b[k] == a[0]
    ensures multiset(a[1..]) == multiset(b[..k] + b[k + 1..])
  {
    assert a[0] in multiset(b);
    k :| 0 <= k < |b| && b[k] == a[0];
    assert a == [a[0]] + a[1..];
    assert b == b[..k] + [b[k]] + b[k + 1..];
    assert multiset(a[1..]) == multiset(a) - multiset{a[0]};
    assert multiset(b) == multiset(b[..k]) + multiset{b[k]} + multiset(b[k + 1..]);
  }

  /** Sequences with the same elements have the same length. */
  lemma SameLength<T>(a: seq<T>, b: seq<T>)
    requires multiset(a) == multiset(b)
    ensures |a| == |b|
  {
    assert |a| == |multiset(a)|;
  }

  /** A sequence that is not empty is its head followed by its tail. */
  lemma HeadTail<T>(s: seq<T>)
    requires 0 < |s|
    ensures s == [s[0]] + s[1..]
  {
  }

  /** A sequence is what lies before position `k`, the element there, and
      what lies after it. */
  lemma SplitAt<T>(s: seq<T>, k: nat)
    requires k < |s|
    ensures s == (s[..k] + [s[k]]) + s[k + 1..]
  {
  }

  /** A prefix one element longer. */
  lemma PrefixSnoc<T>(s: seq<T>, n: nat)
    requires 0 < n <= |s|
    ensures s[..n] == s[..n - 1] + [s[n - 1]]
  {
    assert s[..n][..n - 1] == s[..n - 1];
  }

  /** Concatenation is associative; stated once so that loops which extend
      a log need not re-derive it over large element types. */
  lemma AppendAssoc<T>(a: seq<T>, b: seq<T>, c: seq<T>)
    ensures (a + b) + c == a + (b + c)
  {
  }
}
