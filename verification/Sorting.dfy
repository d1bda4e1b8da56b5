/** Sorting by a comparison, as the slices package does it. Elements that
    compare equal may come out in either order; nothing relies on which. */
module Sorting {
  predicate Sorted<T(!new)>(items: seq<T>, less: (T, T) -> bool) {
    forall i, j :: 0 <= i < j < |items| ==> !less(items[j], items[i])
  }

  ghost predicate StrictOrder<T(!new)>(less: (T, T) -> bool) {
    && (forall a :: !less(a, a))
    && (forall a, b, c :: less(a, b) && less(b, c) ==> less(a, c))
  }

  function Insert<T>(items: seq<T>, x: T, less: (T, T) -> bool): seq<T> {
    if items == [] then [x]
    else if less(x, items[0]) then [x] + items
    else [items[0]] + Insert(items[1..], x, less)
  }

  function Sort<T>(items: seq<T>, less: (T, T) -> bool): seq<T> {
    if items == [] then [] else Insert(Sort(items[..|items| - 1], less), items[|items| - 1], less)
  }

  lemma {:induction false} InsertMembers<T>(items: seq<T>, x: T, less: (T, T) -> bool)
    ensures multiset(Insert(items, x, less)) == multiset(items) + multiset{x}
  {
    if items != [] {
      assert items == [items[0]] + items[1..];
      if !less(x, items[0]) {
        InsertMembers(items[1..], x, less);
      }
    }
  }

  lemma {:induction false} InsertSorted<T(!new)>(items: seq<T>, x: T, less: (T, T) -> bool)
    requires StrictOrder(less) && Sorted(items, less)
    ensures Sorted(Insert(items, x, less), less)
  {
    if items != [] {
      var head, rest := items[0], items[1..];
      if less(x, head) {
        assert forall j :: 0 < j < |items| ==> !less(items[j], head);
      } else {
        InsertSorted(rest, x, less);
        InsertMembers(rest, x, less);
        var r := Insert(rest, x, less);
        forall j | 0 <= j < |r| ensures !less(r[j], head) {
          assert r[j] in multiset(r);
          assert r[j] == x || r[j] in rest;
        }
      }
    }
  }

  // Sorting leaves an ascending rearrangement.
  lemma {:induction false} SortSorts<T(!new)>(items: seq<T>, less: (T, T) -> bool)
    requires StrictOrder(less)
    ensures Sorted(Sort(items, less), less)
    ensures multiset(Sort(items, less)) == multiset(items)
    decreases |items|
  {
    if items != [] {
      var before, last := items[..|items| - 1], items[|items| - 1];
      SortSorts(before, less);
      InsertSorted(Sort(before, less), last, less);
      InsertMembers(Sort(before, less), last, less);
      assert items == before + [last];
    }
  }

  lemma CancelOne<T>(x: T, a: multiset<T>, b: multiset<T>)
    requires multiset{x} + a == multiset{x} + b
    ensures a == b
  {
    assert a == multiset{x} + a - multiset{x} && b == multiset{x} + b - multiset{x};
  }

  lemma FirstIsLeast<T(!new)>(items: seq<T>, x: T, less: (T, T) -> bool)
    requires StrictOrder(less) && Sorted(items, less) && x in items
    ensures !less(x, items[0])
  {
  }

  // A sorted list is determined by its members, if the order is total.
  lemma {:induction false} SortedOnce<T(!new)>(a: seq<T>, b: seq<T>, less: (T, T) -> bool)
    requires StrictOrder(less) && forall x, y :: less(x, y) || less(y, x) || x == y
    requires Sorted(a, less) && Sorted(b, less) && multiset(a) == multiset(b)
    ensures a == b
    decreases |a|
  {
    assert |multiset(a)| == |a| && |multiset(b)| == |b|;
    if a != [] {
      assert a[0] in multiset(b) && b[0] in multiset(a);
      FirstIsLeast(a, b[0], less);
      FirstIsLeast(b, a[0], less);
      assert a == [a[0]] + a[1..] && b == [b[0]] + b[1..];
      CancelOne(a[0], multiset(a[1..]), multiset(b[1..]));
      SortedOnce(a[1..], b[1..], less);
    }
  }
}
