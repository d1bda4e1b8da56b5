// What "ORDER BY id ASC LIMIT n" returns, as a function of a set of ids.
module Ascending {

  predicate Sorted(r: seq<int>) {
    forall i, j :: 0 <= i < j < |r| ==> r[i] < r[j]
  }

  function Elements(r: seq<int>): set<int> {
    set x | x in r
  }

  lemma SomeMember(s: set<int>)
    ensures s == {} || exists x :: x in s
  {
    if !exists x :: x in s {
      assert s == {};
    }
  }

  lemma {:induction false} FindLeast(s: set<int>) returns (m: int)
    requires s != {}
    ensures m in s
    ensures forall x :: x in s ==> m <= x
    decreases |s|
  {
    SomeMember(s);
    var y :| y in s;
    var rest := s - {y};
    assert forall x :: x in s ==> x == y || x in rest;
    if rest == {} {
      m := y;
    } else {
      var other := FindLeast(rest);
      m := if other < y then other else y;
    }
  }

  function Least(s: set<int>): (m: int)
    requires s != {}
    ensures m in s
    ensures forall x :: x in s ==> m <= x
  {
    assert exists m :: m in s && forall x :: x in s ==> m <= x by {
      var least := FindLeast(s);
    }
    var m :| m in s && forall x :: x in s ==> m <= x;
    m
  }

  // The members of s, smallest first.
  function Ascend(s: set<int>): (r: seq<int>)
    decreases |s|
  {
    if s == {} then [] else [Least(s)] + Ascend(s - {Least(s)})
  }

  lemma SortedCons(m: int, rest: seq<int>)
    requires Sorted(rest) && forall x :: x in Elements(rest) ==> m < x
    ensures Sorted([m] + rest)
    ensures Elements([m] + rest) == {m} + Elements(rest)
  {
    forall j | 0 <= j < |rest| ensures m < rest[j] {
      assert rest[j] in Elements(rest);
    }
    forall x | x in {m} + Elements(rest) ensures x in [m] + rest {
      if x != m { assert x in rest; }
    }
  }

  lemma {:induction false} AscendSorted(s: set<int>)
    ensures Sorted(Ascend(s))
    ensures Elements(Ascend(s)) == s
    ensures |Ascend(s)| == |s|
    decreases |s|
  {
    if s != {} {
      AscendSorted(s - {Least(s)});
      SortedCons(Least(s), Ascend(s - {Least(s)}));
      assert s == {Least(s)} + (s - {Least(s)});
    }
  }

  lemma FirstIsElement(r: seq<int>)
    ensures r != [] ==> r[0] in Elements(r)
    ensures r == [] ==> Elements(r) == {}
  {
    if r != [] {
      assert r[0] in r;
    }
  }

  lemma {:induction false} SortedUnique(a: seq<int>, b: seq<int>)
    requires Sorted(a) && Sorted(b) && Elements(a) == Elements(b)
    ensures a == b
    decreases |a|
  {
    FirstIsElement(a);
    FirstIsElement(b);
    if a != [] {
      assert a[0] == b[0];
      forall x | x in Elements(a[1..]) ensures x in Elements(b[1..]) {
        assert x in Elements(a);
        assert x != a[0];
      }
      forall x | x in Elements(b[1..]) ensures x in Elements(a[1..]) {
        assert x in Elements(b);
        assert x != b[0];
      }
      SortedUnique(a[1..], b[1..]);
      assert a == [a[0]] + a[1..] && b == [b[0]] + b[1..];
    }
  }

  // Any sorted listing of s is the listing of s.
  lemma AscendIs(s: set<int>, r: seq<int>)
    requires Sorted(r) && Elements(r) == s
    ensures r == Ascend(s)
  {
    AscendSorted(s);
    SortedUnique(r, Ascend(s));
  }

  function Above(s: set<int>, low: int): set<int> {
    set x | x in s && low < x
  }

  function Between(s: set<int>, low: int, high: int): set<int> {
    set x | x in s && low < x <= high
  }

  function Take(r: seq<int>, limit: int): seq<int> {
    if limit <= 0 then [] else if |r| <= limit then r else r[..limit]
  }

  // SELECT ... WHERE id > after ORDER BY id ASC LIMIT limit
  function Page(s: set<int>, after: int, limit: int): seq<int> {
    Take(Ascend(Above(s, after)), limit)
  }

  // The cursor a reader holds once it has been given a page.
  function Cursor(page: seq<int>, after: int): int {
    if page == [] then after else page[|page| - 1]
  }

  lemma PrefixMembers(all: seq<int>, n: nat, x: int)
    requires Sorted(all) && 0 < n <= |all|
    ensures x in all[..n] <==> x in all && x <= all[n - 1]
  {
    if x in all {
      var i :| 0 <= i < |all| && all[i] == x;
      if i < n {
        assert all[..n][i] == x;
      }
    }
  }

  // A page holds the ids between its start and its last one.
  lemma PageElements(s: set<int>, after: int, limit: int)
    requires limit >= 1
    ensures Elements(Page(s, after, limit)) == Between(s, after, Cursor(Page(s, after, limit), after))
  {
    var all, page := Ascend(Above(s, after)), Page(s, after, limit);
    AscendSorted(Above(s, after));
    var n := |page|;
    assert page == all[..n];
    if n > 0 {
      forall x ensures x in page <==> x in Between(s, after, all[n - 1]) {
        PrefixMembers(all, n, x);
        assert x in all <==> x in Elements(all);
      }
    }
  }

  // A page is the complete listing of the ids between the cursor it was asked
  // for and the cursor it returns; it is empty only when nothing lies above.
  lemma PageIsBlock(s: set<int>, after: int, limit: int)
    requires limit >= 1
    ensures var page := Page(s, after, limit);
      var next := Cursor(page, after);
      && after <= next
      && Sorted(page)
      && Elements(page) == Between(s, after, next)
      && page == Ascend(Between(s, after, next))
      && |page| <= limit
      && (page == [] ==> Above(s, after) == {})
      && (page != [] ==> after < next && next in s)
  {
    var all := Ascend(Above(s, after));
    AscendSorted(Above(s, after));
    var page := Page(s, after, limit);
    var next := Cursor(page, after);
    PageElements(s, after, limit);
    if page == [] {
      assert all == [];
      assert Elements(all) == {};
    } else {
      assert page[|page| - 1] in Elements(page);
    }
    AscendIs(Between(s, after, next), page);
  }

  // A page is full unless there is no more.
  lemma PageLength(s: set<int>, after: int, limit: nat)
    ensures |Page(s, after, limit)| == if |Above(s, after)| < limit then |Above(s, after)| else limit
  {
    AscendSorted(Above(s, after));
  }

  lemma SortedJoin(a: seq<int>, b: seq<int>)
    requires Sorted(a) && Sorted(b)
    requires forall x, y :: x in Elements(a) && y in Elements(b) ==> x < y
    ensures Sorted(a + b)
    ensures Elements(a + b) == Elements(a) + Elements(b)
  {
    forall i, j | 0 <= i < j < |a + b| ensures (a + b)[i] < (a + b)[j] {
      if i < |a| <= j {
        assert a[i] in Elements(a) && b[j - |a|] in Elements(b);
      }
    }
  }

  // A page and the listing of what lies above its cursor make up the listing.
  lemma PageLeavesRest(s: set<int>, after: int, limit: int)
    requires limit >= 1
    ensures var page := Page(s, after, limit);
      Ascend(Above(s, after)) == page + Ascend(Above(s, Cursor(page, after)))
  {
    var page := Page(s, after, limit);
    var next := Cursor(page, after);
    PageIsBlock(s, after, limit);
    AscendSorted(Above(s, next));
    SortedJoin(page, Ascend(Above(s, next)));
    assert Above(s, after) == Between(s, after, next) + Above(s, next);
    AscendIs(Above(s, after), page + Ascend(Above(s, next)));
  }

  // The first n of a listing are the listing of what lies below the next one.
  lemma AscendPrefix(s: set<int>, n: nat)
    requires n < |Ascend(s)|
    ensures Ascend(s)[n] in s
    ensures Ascend(s)[..n] == Ascend(set x | x in s && x < Ascend(s)[n])
  {
    AscendSorted(s);
    var all := Ascend(s);
    var low := set x | x in s && x < all[n];
    assert all[n] in Elements(all);
    forall x | x in low ensures x in Elements(all[..n]) {
      assert x in Elements(all);
      var i :| 0 <= i < |all| && all[i] == x;
      assert all[..n][i] == x;
    }
    forall x | x in Elements(all[..n]) ensures x in low {
      var i :| 0 <= i < n && all[i] == x;
      assert all[i] in Elements(all);
    }
    AscendIs(low, all[..n]);
  }

  // SELECT COALESCE(MAX(id), 0)
  function Latest(ids: set<int>): int {
    var all := Ascend(ids);
    if all == [] then 0 else all[|all| - 1]
  }

  lemma LatestIsLargest(ids: set<int>)
    ensures forall x :: x in ids ==> x <= Latest(ids)
    ensures ids != {} ==> Latest(ids) in ids
    ensures ids == {} ==> Latest(ids) == 0
  {
    AscendSorted(ids);
    var all := Ascend(ids);
    forall x | x in ids ensures x <= Latest(ids) {
      assert x in Elements(all);
      var i :| 0 <= i < |all| && all[i] == x;
    }
    FirstIsElement(all);
    if all != [] {
      assert all[|all| - 1] in Elements(all);
    }
  }
}
