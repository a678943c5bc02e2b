/** Sorting a hash set into a vector, as `durable_events` does with `sort`. */
module Sorting {

  ghost predicate StrictOrder<T(!new)>(less: (T, T) -> bool) {
    && (forall x :: !less(x, x))
    && (forall x, y, z :: less(x, y) && less(y, z) ==> less(x, z))
    && (forall x, y :: x == y || less(x, y) || less(y, x))
  }

  ghost predicate SortedBy<T>(less: (T, T) -> bool, s: seq<T>) {
    forall i, j :: 0 <= i < j < |s| ==> less(s[i], s[j])
  }

  ghost predicate SameElements<T(!new)>(a: seq<T>, b: seq<T>) {
    forall x :: x in a <==> x in b
  }

  lemma NothingBefore<T(!new)>(less: (T, T) -> bool, s: seq<T>, x: T)
    requires StrictOrder(less) && SortedBy(less, s) && x in s
    ensures !less(x, s[0])
  {
    var i :| 0 <= i < |s| && s[i] == x;
    assert i == 0 || less(s[0], x);
  }

  /** A set has only one sorted listing. */
  lemma {:induction false} SortedUnique<T(!new)>(less: (T, T) -> bool, a: seq<T>, b: seq<T>)
    requires StrictOrder(less) && SortedBy(less, a) && SortedBy(less, b)
    requires SameElements(a, b)
    ensures a == b
    decreases |a|
  {
    assert |b| > 0 ==> b[0] in b;
    assert |a| > 0 ==> a[0] in a;
    if a != [] {
      assert a[0] == b[0] by { NothingBefore(less, a, b[0]); NothingBefore(less, b, a[0]); }
      forall x ensures x in a[1..] <==> x in b[1..] {
        TailElements(less, a, x);
        TailElements(less, b, x);
      }
      SortedUnique(less, a[1..], b[1..]);
      assert a == [a[0]] + a[1..] && b == [b[0]] + b[1..];
    }
  }

  lemma TailElements<T(!new)>(less: (T, T) -> bool, s: seq<T>, x: T)
    requires StrictOrder(less) && SortedBy(less, s) && s != []
    ensures x in s[1..] <==> x in s && x != s[0]
  {
    if x in s[1..] {
      var i :| 0 <= i < |s[1..]| && s[1..][i] == x;
      assert less(s[0], s[i + 1]);
    }
    if x in s && x != s[0] {
      var i :| 0 <= i < |s| && s[i] == x;
      assert s[1..][i - 1] == x;
    }
  }

  /** Lists the set in any order and sorts the list by insertion. */
  method SortSet<T(!new, ==)>(less: (T, T) -> bool, elements: set<T>) returns (sorted: seq<T>)
    requires StrictOrder(less)
    ensures SortedBy(less, sorted)
    ensures forall x :: x in sorted <==> x in elements
  {
    sorted := [];
    var rest := elements;
    while rest != {}
      invariant rest <= elements
      invariant SortedBy(less, sorted)
      invariant forall x :: x in sorted <==> x in elements - rest
      decreases rest
    {
      var x :| x in rest;
      rest := rest - {x};
      assert x !in sorted;
      var i := 0;
      while i < |sorted| && less(sorted[i], x)
        invariant 0 <= i <= |sorted|
        invariant forall k :: 0 <= k < i ==> less(sorted[k], x)
      {
        i := i + 1;
      }
      assert i < |sorted| ==> sorted[i] != x && less(x, sorted[i]);
      forall k | i <= k < |sorted| ensures less(x, sorted[k]) {
        if k > i { assert less(sorted[i], sorted[k]); }
      }
      ghost var before := sorted;
      sorted := sorted[..i] + [x] + sorted[i..];
      assert before == before[..i] + before[i..];
      forall y ensures y in sorted <==> y in elements - rest {
        assert y in sorted <==> y in before || y == x;
      }
    }
  }
}
