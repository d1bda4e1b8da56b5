// Why a reader that pages with "id > cursor" misses nothing, stated for any
// table that only ever gains ids above its high-water mark.
module Tail {
  import opened Ascending

  // visible[i] is what the reader's query can match in the i-th committed
  // state, and mark[i] the last id handed out by then. Rows may disappear, but
  // a row that is not there can only turn up above the mark.
  predicate Feed(visible: seq<set<int>>, mark: seq<int>) {
    && |visible| == |mark|
    && (forall i, x :: 0 <= i < |visible| && x in visible[i] ==> x <= mark[i])
    && (forall i, j, x :: 0 <= i <= j < |visible| && x in visible[j] && x !in visible[i] ==> mark[i] < x)
  }

  predicate Growing(visible: seq<set<int>>) {
    forall i, j :: 0 <= i <= j < |visible| ==> visible[i] <= visible[j]
  }

  // One page read: the state it sees and the size asked for.
  datatype Read = Read(at: nat, limit: int)

  predicate Schedule(polls: seq<Read>, states: nat) {
    && (forall k :: 0 <= k < |polls| ==> polls[k].at < states && polls[k].limit >= 1)
    && (forall k, l :: 0 <= k <= l < |polls| ==> polls[k].at <= polls[l].at)
  }

  // The cursor after the first k page reads.
  function CursorAt(visible: seq<set<int>>, polls: seq<Read>, start: int, k: nat): int
    requires k <= |polls| && Schedule(polls, |visible|)
    decreases k, 0
  {
    if k == 0 then start
    else Cursor(PageAt(visible, polls, start, k - 1), CursorAt(visible, polls, start, k - 1))
  }

  // The k-th page.
  function PageAt(visible: seq<set<int>>, polls: seq<Read>, start: int, k: nat): seq<int>
    requires k < |polls| && Schedule(polls, |visible|)
    decreases k, 1
  {
    Page(visible[polls[k].at], CursorAt(visible, polls, start, k), polls[k].limit)
  }

  // The first k pages, concatenated.
  function Delivered(visible: seq<set<int>>, polls: seq<Read>, start: int, k: nat): seq<int>
    requires k <= |polls| && Schedule(polls, |visible|)
  {
    if k == 0 then []
    else Delivered(visible, polls, start, k - 1) + PageAt(visible, polls, start, k - 1)
  }

  // Pages are handed out in id order, without repeats, inside the range the
  // cursor has moved over.
  lemma {:induction false} DeliveredSorted(visible: seq<set<int>>, polls: seq<Read>, start: int, k: nat)
    requires k <= |polls| && Schedule(polls, |visible|)
    ensures Sorted(Delivered(visible, polls, start, k))
    ensures start <= CursorAt(visible, polls, start, k)
    ensures forall x :: x in Delivered(visible, polls, start, k) ==> start < x <= CursorAt(visible, polls, start, k)
  {
    if k > 0 {
      DeliveredSorted(visible, polls, start, k - 1);
      var c := CursorAt(visible, polls, start, k - 1);
      var page := PageAt(visible, polls, start, k - 1);
      PageIsBlock(visible[polls[k - 1].at], c, polls[k - 1].limit);
      forall x | x in page ensures c < x <= CursorAt(visible, polls, start, k) {
        assert x in Elements(page);
      }
      var before := Delivered(visible, polls, start, k - 1);
      forall i, j | 0 <= i < j < |before + page| ensures (before + page)[i] < (before + page)[j] {
        if i < |before| <= j {
          assert before[i] in before && page[j - |before|] in page;
        }
      }
    }
  }

  // Every id the cursor has passed was passed by exactly one page, and was
  // delivered exactly when that page could see it.
  lemma {:induction false} PassedOnce(visible: seq<set<int>>, polls: seq<Read>, start: int, k: nat, x: int)
      returns (p: nat)
    requires k <= |polls| && Schedule(polls, |visible|)
    requires start < x <= CursorAt(visible, polls, start, k)
    ensures p < k
    ensures CursorAt(visible, polls, start, p) < x <= CursorAt(visible, polls, start, p + 1)
    ensures x in Delivered(visible, polls, start, k) <==> x in visible[polls[p].at]
  {
    DeliveredSorted(visible, polls, start, k - 1);
    LastPage(visible, polls, start, k, x);
    if x <= CursorAt(visible, polls, start, k - 1) {
      p := PassedOnce(visible, polls, start, k - 1, x);
    } else {
      p := k - 1;
    }
  }

  // The last page holds nothing up to its start, and beyond it what it saw.
  lemma LastPage(visible: seq<set<int>>, polls: seq<Read>, start: int, k: nat, x: int)
    requires 0 < k <= |polls| && Schedule(polls, |visible|)
    ensures var before, page := Delivered(visible, polls, start, k - 1), PageAt(visible, polls, start, k - 1);
      && Delivered(visible, polls, start, k) == before + page
      && (x <= CursorAt(visible, polls, start, k - 1) ==> x !in page)
      && (CursorAt(visible, polls, start, k - 1) < x <= CursorAt(visible, polls, start, k) ==>
            (x in page <==> x in visible[polls[k - 1].at]))
  {
    var page := PageAt(visible, polls, start, k - 1);
    PageIsBlock(visible[polls[k - 1].at], CursorAt(visible, polls, start, k - 1), polls[k - 1].limit);
    assert x in page <==> x in Elements(page);
  }

  // No id at or below an issued cursor turns up later: whatever a later state
  // still shows in the range has been delivered.
  lemma NothingSkipped(visible: seq<set<int>>, mark: seq<int>, polls: seq<Read>, start: int, k: nat, now: nat, x: int)
    requires Feed(visible, mark)
    requires k <= |polls| && Schedule(polls, |visible|)
    requires now < |visible| && (k > 0 ==> polls[k - 1].at <= now)
    requires x in visible[now] && start < x <= CursorAt(visible, polls, start, k)
    ensures x in Delivered(visible, polls, start, k)
  {
    var p := PassedOnce(visible, polls, start, k, x);
    var at := polls[p].at;
    var c := CursorAt(visible, polls, start, p);
    PageIsBlock(visible[at], c, polls[p].limit);
    assert CursorAt(visible, polls, start, p + 1) in visible[at];
    assert x <= mark[at];
  }

  // When rows never disappear, the concatenated pages are the listing of the
  // whole range.
  lemma DeliveredIsRange(visible: seq<set<int>>, mark: seq<int>, polls: seq<Read>, start: int, k: nat, now: nat)
    requires Feed(visible, mark) && Growing(visible)
    requires k <= |polls| && Schedule(polls, |visible|)
    requires now < |visible| && (k > 0 ==> polls[k - 1].at <= now)
    ensures Delivered(visible, polls, start, k)
         == Ascend(Between(visible[now], start, CursorAt(visible, polls, start, k)))
  {
    var d := Delivered(visible, polls, start, k);
    var range := Between(visible[now], start, CursorAt(visible, polls, start, k));
    DeliveredSorted(visible, polls, start, k);
    forall x | x in range ensures x in Elements(d) {
      NothingSkipped(visible, mark, polls, start, k, now, x);
    }
    forall x | x in Elements(d) ensures x in range {
      var p := PassedOnce(visible, polls, start, k, x);
      assert visible[polls[p].at] <= visible[now];
    }
    AscendIs(range, d);
  }
}
