/**
 * Sequence operations that the Python code gets from list comprehensions
 * (`[x for x in s if keep(x)]`) and from the built-in stable `sorted`.
 */
module Sequences {

  /** `a` is `b` with some elements left out: an order-preserving subsequence. */
  ghost predicate SubsequenceOf<T>(a: seq<T>, b: seq<T>)
    decreases |b|
  {
    a == [] || (b != [] && ((a[0] == b[0] && SubsequenceOf(a[1..], b[1..])) || SubsequenceOf(a, b[1..])))
  }

  lemma {:induction false} SubsequenceOfSelf<T>(s: seq<T>)
    ensures SubsequenceOf(s, s)
  {
    if s != [] {
      SubsequenceOfSelf(s[1..]);
    }
  }

  lemma {:induction false} SubsequenceTransitive<T>(a: seq<T>, b: seq<T>, c: seq<T>)
    requires SubsequenceOf(a, b) && SubsequenceOf(b, c)
    ensures SubsequenceOf(a, c)
    decreases |c|
  {
    if a != [] {
      if b[0] == c[0] && SubsequenceOf(b[1..], c[1..]) {
        if a[0] == b[0] && SubsequenceOf(a[1..], b[1..]) {
          SubsequenceTransitive(a[1..], b[1..], c[1..]);
        } else {
          SubsequenceTransitive(a, b[1..], c[1..]);
        }
      } else {
        SubsequenceTransitive(a, b, c[1..]);
      }
    }
  }

  /**
   * The elements of `s` that satisfy `keep`, in their original order and
   * with their original multiplicities: `[x for x in s if keep(x)]`.
   */
  function Filter<T>(s: seq<T>, keep: T -> bool): (r: seq<T>)
    ensures forall i :: 0 <= i < |r| ==> r[i] in s && keep(r[i])
    ensures forall i :: 0 <= i < |s| && keep(s[i]) ==> s[i] in r && multiset(r)[s[i]] == multiset(s)[s[i]]
    ensures SubsequenceOf(r, s)
  {
    if s == [] then []
    else
      var rest := Filter(s[1..], keep);
      assert s == [s[0]] + s[1..];
      if keep(s[0]) then
        assert ([s[0]] + rest)[1..] == rest;
        [s[0]] + rest
      else
        rest
  }

  /** A filter that every element passes changes nothing. */
  lemma {:induction false} FilterKeepsAll<T>(s: seq<T>, keep: T -> bool)
    requires forall i :: 0 <= i < |s| ==> keep(s[i])
    ensures Filter(s, keep) == s
  {
    if s != [] {
      FilterKeepsAll(s[1..], keep);
    }
  }

  /**
   * `r` holds exactly the elements of `s` that satisfy `select`, in their
   * order and with their multiplicities.
   */
  ghost predicate SelectedBy<T>(r: seq<T>, s: seq<T>, select: T -> bool)
  {
    && SubsequenceOf(r, s)
    && (forall i :: 0 <= i < |r| ==> r[i] in s && select(r[i]))
    && (forall i :: 0 <= i < |s| && select(s[i]) ==> s[i] in r && multiset(r)[s[i]] == multiset(s)[s[i]])
  }

  lemma SelectedByAll<T>(s: seq<T>, select: T -> bool)
    requires forall i :: 0 <= i < |s| ==> select(s[i])
    ensures SelectedBy(s, s, select)
  {
    SubsequenceOfSelf(s);
  }

  /** Filtering a selection by one more condition selects by the conjunction. */
  lemma FilterNarrows<T(!new)>(r: seq<T>, s: seq<T>, before: T -> bool, keep: T -> bool, after: T -> bool)
    requires SelectedBy(r, s, before)
    requires forall x :: after(x) <==> before(x) && keep(x)
    ensures SelectedBy(Filter(r, keep), s, after)
  {
    var f := Filter(r, keep);
    SubsequenceTransitive(f, r, s);
    forall i | 0 <= i < |s| && after(s[i])
      ensures s[i] in f && multiset(f)[s[i]] == multiset(s)[s[i]]
    {
      var j :| 0 <= j < |r| && r[j] == s[i];
      assert keep(r[j]);
    }
  }

  /**
   * One optional filtering stage: when `active`, filtering by `keep` narrows
   * the selection; otherwise the selection already satisfies `after`.
   */
  lemma Narrow<T(!new)>(r: seq<T>, s: seq<T>, before: T -> bool, active: bool, keep: T -> bool, after: T -> bool)
    requires SelectedBy(r, s, before)
    requires forall x :: after(x) <==> before(x) && (active ==> keep(x))
    ensures SelectedBy(if active then Filter(r, keep) else r, s, after)
  {
    if active {
      FilterNarrows(r, s, before, keep, after);
    } else {
      SelectedByEquivalent(r, s, before, after);
    }
  }

  /** A selection by one condition is a selection by any equivalent one. */
  lemma SelectedByEquivalent<T(!new)>(r: seq<T>, s: seq<T>, before: T -> bool, after: T -> bool)
    requires SelectedBy(r, s, before)
    requires forall x :: after(x) <==> before(x)
    ensures SelectedBy(r, s, after)
  {
  }

  /** `precedes` is irreflexive and transitive. */
  ghost predicate StrictOrder<T(!new)>(precedes: (T, T) -> bool)
  {
    && (forall x :: !precedes(x, x))
    && (forall x, y, z :: precedes(x, y) && precedes(y, z) ==> precedes(x, z))
  }

  /** No element of `s` must come before an element to its left. */
  ghost predicate SortedBy<T>(s: seq<T>, precedes: (T, T) -> bool)
  {
    forall i, j :: 0 <= i < j < |s| ==> !precedes(s[j], s[i])
  }

  /**
   * Places `x` in front of the first element it strictly precedes, that is
   * after every element it does not; inserting the elements of a list one by
   * one from left to right is therefore a stable sort.
   */
  function Insert<T>(x: T, s: seq<T>, precedes: (T, T) -> bool): (r: seq<T>)
    ensures |r| == |s| + 1
    ensures multiset(r) == multiset(s) + multiset{x}
  {
    if s == [] || precedes(x, s[0]) then [x] + s
    else
      assert s == [s[0]] + s[1..];
      [s[0]] + Insert(x, s[1..], precedes)
  }

  /** Python's stable `sorted(s)` for the order `precedes`. */
  function Sort<T>(s: seq<T>, precedes: (T, T) -> bool): (r: seq<T>)
    ensures |r| == |s|
    ensures multiset(r) == multiset(s)
  {
    if s == [] then []
    else
      assert s == s[..|s| - 1] + [s[|s| - 1]];
      Insert(s[|s| - 1], Sort(s[..|s| - 1], precedes), precedes)
  }

  /** Two elements already in order stay as they are. */
  lemma SortTwo<T>(x: T, y: T, precedes: (T, T) -> bool)
    requires !precedes(y, x)
    ensures Sort([x, y], precedes) == [x, y]
  {
    assert [x, y][..1] == [x];
  }

  lemma {:induction false} InsertSorted<T(!new)>(x: T, s: seq<T>, precedes: (T, T) -> bool)
    requires StrictOrder(precedes) && SortedBy(s, precedes)
    ensures SortedBy(Insert(x, s, precedes), precedes)
  {
    var r := Insert(x, s, precedes);
    if s == [] || precedes(x, s[0]) {
      assert r == [x] + s;
    } else {
      var t := Insert(x, s[1..], precedes);
      InsertSorted(x, s[1..], precedes);
      forall j | 0 <= j < |t|
        ensures !precedes(t[j], s[0])
      {
        assert t[j] in multiset(t);
        if t[j] != x {
          assert t[j] in s[1..];
        }
      }
    }
  }

  lemma {:induction false} SortSorted<T(!new)>(s: seq<T>, precedes: (T, T) -> bool)
    requires StrictOrder(precedes)
    ensures SortedBy(Sort(s, precedes), precedes)
  {
    if s != [] {
      SortSorted(s[..|s| - 1], precedes);
      InsertSorted(s[|s| - 1], Sort(s[..|s| - 1], precedes), precedes);
    }
  }

  /** Sorting neither adds nor drops an element. */
  lemma SortSameElements<T>(s: seq<T>, precedes: (T, T) -> bool)
    ensures forall i :: 0 <= i < |s| ==> s[i] in Sort(s, precedes)
    ensures forall i :: 0 <= i < |Sort(s, precedes)| ==> Sort(s, precedes)[i] in s
  {
    var r := Sort(s, precedes);
    assert forall i :: 0 <= i < |s| ==> s[i] in multiset(r);
    assert forall i :: 0 <= i < |r| ==> r[i] in multiset(s);
  }

  /** Two distinct positions of `s` never share a `key`. */
  ghost predicate DistinctBy<T, K>(s: seq<T>, key: T -> K)
  {
    forall i, j :: 0 <= i < j < |s| ==> key(s[i]) != key(s[j])
  }

  lemma {:induction false} InsertDistinct<T, K>(x: T, s: seq<T>, precedes: (T, T) -> bool, key: T -> K)
    requires DistinctBy(s, key)
    requires forall i :: 0 <= i < |s| ==> key(s[i]) != key(x)
    ensures DistinctBy(Insert(x, s, precedes), key)
  {
    var r := Insert(x, s, precedes);
    if s == [] || precedes(x, s[0]) {
      assert r == [x] + s;
    } else {
      var t := Insert(x, s[1..], precedes);
      InsertDistinct(x, s[1..], precedes, key);
      forall j | 0 <= j < |t|
        ensures key(t[j]) != key(s[0])
      {
        assert t[j] in multiset(t);
        if t[j] != x {
          assert t[j] in s[1..];
        }
      }
    }
  }

  /** Sorting a list whose keys are pairwise distinct keeps them distinct. */
  lemma {:induction false} SortDistinct<T, K>(s: seq<T>, precedes: (T, T) -> bool, key: T -> K)
    requires DistinctBy(s, key)
    ensures DistinctBy(Sort(s, precedes), key)
  {
    if s != [] {
      var init := s[..|s| - 1];
      SortDistinct(init, precedes, key);
      var sorted := Sort(init, precedes);
      forall i | 0 <= i < |sorted|
        ensures key(sorted[i]) != key(s[|s| - 1])
      {
        assert sorted[i] in multiset(init);
      }
      InsertDistinct(s[|s| - 1], sorted, precedes, key);
    }
  }
}
