/** Paging back through an inbox and tailing it forward visit the same
    messages in opposite orders. */
module InboxPaging {
  import opened Ascending

  // clampSize
  const DEFAULT_SIZE := 10
  const MAX_SIZE := 100

  function ClampSize(size: int): (r: int)
    ensures 1 <= r <= MAX_SIZE
    ensures 1 <= size <= MAX_SIZE ==> r == size
    ensures size <= 0 ==> r == DEFAULT_SIZE
    ensures size > MAX_SIZE ==> r == MAX_SIZE
  {
    if size <= 0 then DEFAULT_SIZE else if size < MAX_SIZE then size else MAX_SIZE
  }

  function Reverse(r: seq<int>): seq<int> {
    seq(|r|, i requires 0 <= i < |r| => r[|r| - 1 - i])
  }

  function Below(s: set<int>, before: int): set<int> {
    set x | x in s && (before == 0 || x < before)
  }

  // SELECT ... WHERE before = 0 OR id < before ORDER BY id DESC LIMIT limit
  function BackPage(s: set<int>, before: int, limit: int): seq<int> {
    Take(Reverse(Ascend(Below(s, before))), limit)
  }

  // ListInboxMessages called again and again with the EarliestId it returned,
  // one requested size per call, until a page comes back empty or the sizes
  // run out.
  function ListBack(s: set<int>, before: int, sizes: seq<int>): seq<int>
    decreases |sizes|
  {
    if sizes == [] then []
    else
      var page := BackPage(s, before, ClampSize(sizes[0]));
      if page == [] then [] else page + ListBack(s, page[|page| - 1], sizes[1..])
  }

  // PollInboxMessages called again and again with the LastId it returned.
  function PollForward(s: set<int>, after: int, sizes: seq<int>): seq<int>
    decreases |sizes|
  {
    if sizes == [] then []
    else
      var page := Page(s, after, ClampSize(sizes[0]));
      if page == [] then [] else page + PollForward(s, page[|page| - 1], sizes[1..])
  }

  lemma TakeReverse(all: seq<int>, limit: int)
    requires limit >= 1 && all != []
    ensures var page := Take(Reverse(all), limit);
      && 1 <= |page| <= |all|
      && page[|page| - 1] == all[|all| - |page|]
      && Reverse(all) == page + Reverse(all[..|all| - |page|])
  {
  }

  lemma BackPageEmpty(s: set<int>, before: int, limit: int)
    requires limit >= 1
    ensures BackPage(s, before, limit) == [] <==> Below(s, before) == {}
  {
    var all := Ascend(Below(s, before));
    AscendSorted(Below(s, before));
    assert |Reverse(all)| == |all|;
  }

  lemma BackPageLength(s: set<int>, before: int, limit: nat)
    ensures |BackPage(s, before, limit)| == if |Below(s, before)| < limit then |Below(s, before)| else limit
  {
    AscendSorted(Below(s, before));
    assert |Reverse(Ascend(Below(s, before)))| == |Ascend(Below(s, before))|;
  }

  // The next page begins below the earliest id of this one.
  lemma BackPageNext(s: set<int>, before: int, limit: int, all: seq<int>, page: seq<int>)
    requires limit >= 1 && forall x :: x in s ==> x > 0
    requires all == Ascend(Below(s, before)) && all != [] && page == Take(Reverse(all), limit)
    ensures page != []
    ensures var low := page[|page| - 1];
      && low in Below(s, before)
      && |Below(s, low)| < |Below(s, before)|
      && Reverse(all) == page + Reverse(Ascend(Below(s, low)))
  {
    TakeReverse(all, limit);
    BelowMember(s, before, |all| - |page|);
  }

  // A page back is the reversed listing of the ids between its earliest id and
  // the cursor; listing what is below that earliest id remains to be done.
  lemma BackPageIsBlock(s: set<int>, before: int, limit: int)
    requires limit >= 1 && forall x :: x in s ==> x > 0
    ensures var page := BackPage(s, before, limit);
      && (page == [] <==> Below(s, before) == {})
      && (page != [] ==>
            var low := page[|page| - 1];
            && low in Below(s, before)
            && |Below(s, low)| < |Below(s, before)|
            && Reverse(Ascend(Below(s, before))) == page + Reverse(Ascend(Below(s, low))))
  {
    var all := Ascend(Below(s, before));
    BackPageEmpty(s, before, limit);
    if all != [] {
      BackPageNext(s, before, limit, all, BackPage(s, before, limit));
    }
  }

  // What is below the n-th id is the first n ids.
  lemma BelowMember(s: set<int>, before: int, n: nat)
    requires n < |Ascend(Below(s, before))| && forall x :: x in s ==> x > 0
    ensures var all := Ascend(Below(s, before));
      && all[n] in Below(s, before)
      && Ascend(Below(s, all[n])) == all[..n]
      && |Below(s, all[n])| < |Below(s, before)|
  {
    var all := Ascend(Below(s, before));
    AscendSorted(Below(s, before));
    assert all[n] in Elements(all);
    AscendPrefix(Below(s, before), n);
    assert Below(s, all[n]) == set x | x in Below(s, before) && x < all[n];
    AscendSorted(Below(s, all[n]));
  }

  /** With enough requests of whatever sizes, listing back from 0 ends and
      yields the whole list, newest first. */
  lemma {:induction false} ListBackIsAll(s: set<int>, before: int, sizes: seq<int>)
    requires forall x :: x in s ==> x > 0
    requires |sizes| >= |Below(s, before)|
    ensures ListBack(s, before, sizes) == Reverse(Ascend(Below(s, before)))
    decreases |sizes|
  {
    AscendSorted(Below(s, before));
    if sizes != [] {
      BackPageIsBlock(s, before, ClampSize(sizes[0]));
      var page := BackPage(s, before, ClampSize(sizes[0]));
      if page != [] {
        ListBackIsAll(s, page[|page| - 1], sizes[1..]);
      }
    }
  }

  lemma {:induction false} PollForwardIsAll(s: set<int>, after: int, sizes: seq<int>)
    requires |sizes| >= |Above(s, after)|
    ensures PollForward(s, after, sizes) == Ascend(Above(s, after))
    decreases |sizes|
  {
    AscendSorted(Above(s, after));
    if sizes != [] {
      var page := Page(s, after, ClampSize(sizes[0]));
      PageIsBlock(s, after, ClampSize(sizes[0]));
      if page != [] {
        var next := page[|page| - 1];
        assert next in Above(s, after) && next !in Above(s, next);
        PageLeavesRest(s, after, ClampSize(sizes[0]));
        SmallerSet(Above(s, next), Above(s, after), next);
        PollForwardIsAll(s, next, sizes[1..]);
      }
    }
  }

  lemma SmallerSet(a: set<int>, b: set<int>, x: int)
    requires a <= b && x in b && x !in a
    ensures |a| < |b|
  {
    assert b == a + (b - a);
    assert x in b - a;
  }

  /** Listing back from 0 is the reverse of tailing forward from 0, whatever
      sizes either side asks for. */
  lemma PagingInverse(s: set<int>, back: seq<int>, forward: seq<int>)
    requires forall x :: x in s ==> x > 0
    requires |back| >= |s| && |forward| >= |s|
    ensures ListBack(s, 0, back) == Reverse(PollForward(s, 0, forward))
    ensures Elements(PollForward(s, 0, forward)) == s
  {
    assert Below(s, 0) == s && Above(s, 0) == s;
    ListBackIsAll(s, 0, back);
    PollForwardIsAll(s, 0, forward);
    AscendSorted(s);
  }
}
