/** Filtering a sequence, as entity queries do over the stored entities. */
module Sequences {

  /** The elements of `s` satisfying `p`, in their order in `s`. */
  function Filter<T>(s: seq<T>, p: T -> bool): (kept: seq<T>)
    decreases |s|
  {
    if s == [] then [] else (if p(s[0]) then [s[0]] else []) + Filter(s[1..], p)
  }

  /** The filter keeps every element satisfying `p` and nothing else. */
  lemma {:induction false} FilterContents<T>(s: seq<T>, p: T -> bool)
    ensures forall x :: x in Filter(s, p) <==> x in s && p(x)
    ensures |Filter(s, p)| <= |s|
    decreases |s|
  {
    if s != [] {
      FilterContents(s[1..], p);
      assert s == [s[0]] + s[1..];
    }
  }

  /** The first element kept is the first element of `s` satisfying `p`. */
  lemma {:induction false} FilterFirst<T>(s: seq<T>, p: T -> bool)
    ensures Filter(s, p) != [] ==>
              exists i :: 0 <= i < |s| && p(s[i]) && (forall j :: 0 <= j < i ==> !p(s[j])) && Filter(s, p)[0] == s[i]
    decreases |s|
  {
    if s != [] && !p(s[0]) {
      FilterFirst(s[1..], p);
      if Filter(s[1..], p) != [] {
        var i :| 0 <= i < |s[1..]| && p(s[1..][i]) && (forall j :: 0 <= j < i ==> !p(s[1..][j]))
                 && Filter(s[1..], p)[0] == s[1..][i];
        assert forall j :: 1 <= j < i + 1 ==> s[j] == s[1..][j - 1];
        assert 0 <= i + 1 < |s| && p(s[i + 1]) && (forall j :: 0 <= j < i + 1 ==> !p(s[j]));
      }
    } else if s != [] {
      assert p(s[0]) && Filter(s, p)[0] == s[0];
    }
  }

  /** Filtering keeps order: two consecutive stretches give the two results concatenated. */
  lemma {:induction false} FilterAppend<T>(a: seq<T>, b: seq<T>, p: T -> bool)
    ensures Filter(a + b, p) == Filter(a, p) + Filter(b, p)
    decreases |a|
  {
    if a == [] {
      assert a + b == b;
    } else {
      FilterAppend(a[1..], b, p);
      assert (a + b)[0] == a[0];
      assert (a + b)[1..] == a[1..] + b;
    }
  }

  /** A single element is kept exactly when it satisfies `p`. */
  lemma FilterSingle<T>(x: T, p: T -> bool)
    ensures Filter([x], p) == if p(x) then [x] else []
  {
    assert [x][1..] == [];
    assert Filter([x][1..], p) == [];
  }
}
