/** What the eventlog promises over every interleaving: gapless ids in commit
    order, agreement with the tables, and complete tailing. */
module EventLogGuarantees {
  import opened Basics
  import opened Ascending
  import opened Tail
  import opened StoreModel
  import opened EventFold
  import opened StoreInvariant
  import opened StoreSteps
  import opened StoreHistory

  // ----- Numbering -----

  // Committed ids are exactly 1 to the counter's committed value, and reading
  // them in id order gives the transactions' blocks in commit order.
  lemma IdsAreCommitOrder(run: seq<State>, actions: seq<Action>, i: nat)
    requires IsRun(run, actions) && i < |run|
    ensures var db, log := run[i].db, Flatten(run[i].history.blocks);
      && (forall id :: id in db.eventlog <==> 1 <= id <= Count(db, EventLogCounter))
      && Count(db, EventLogCounter) == |log|
      && (forall k :: 0 <= k < |log| ==> k + 1 in db.eventlog && db.eventlog[k + 1] == log[k])
  {
    RunInv(run, actions, i);
    var db, log := run[i].db, Flatten(run[i].history.blocks);
    assert forall id :: InBlock(1, |log|, id) <==> id in db.eventlog;
  }

  // A committing writer adds its own events as one contiguous block after the
  // last committed id; nothing else, rollbacks included, moves log or counter.
  lemma BlocksAreContiguous(run: seq<State>, actions: seq<Action>, i: nat)
    requires IsRun(run, actions) && i < |actions|
    ensures var s, s', a := run[i], run[i + 1], actions[i];
      if a.Commit? && s.txs[a.t].at.Appending? then AppendsBlock(s, s', s.txs[a.t].at.events) else SameLog(s, s')
  {
    RunInv(run, actions, i);
    if actions[i].Commit? {
      BlockAppended(run[i], actions[i].t);
    } else {
      LogUntouched(run[i], actions[i]);
    }
  }

  predicate AppendsBlock(s: State, s': State, events: seq<Event>) {
    var c := Count(s.db, EventLogCounter);
    && |events| > 0
    && s'.db.eventlog == s.db.eventlog + Block(c + 1, events)
    && Count(s'.db, EventLogCounter) == c + |events|
    && s'.history.blocks == s.history.blocks + [events]
  }

  predicate SameLog(s: State, s': State) {
    && s'.db.eventlog == s.db.eventlog
    && Count(s'.db, EventLogCounter) == Count(s.db, EventLogCounter)
    && s'.history.blocks == s.history.blocks
  }

  lemma BlockAppended(s: State, t: nat)
    requires Inv(s) && Enabled(s, Commit(t))
    ensures var s', at := Next(s, Commit(t)), s.txs[t].at;
      if at.Appending? then AppendsBlock(s, s', at.events) else SameLog(s, s')
  {
    assert TxOk(s.db, s.txs[t]);
    CommittedLogIs(s.db, s.txs[t]);
  }

  lemma LogUntouched(s: State, a: Action)
    requires Enabled(s, a) && !a.Commit?
    ensures SameLog(s, Next(s, a))
  {
    if a.SweepInbox? {
      SweptCounter(s.db, a.ids);
    }
  }

  lemma SweptCounter(db: Db, ids: set<int>)
    ensures Count(Swept(db, ids), EventLogCounter) == Count(db, EventLogCounter)
  {
    assert Get(Swept(db, ids).rows, Sequence(EventLogCounter)) == Get(db.rows, Sequence(EventLogCounter));
  }

  // ----- Agreement with the tables -----

  // The last event about a resource, as an index into the log.
  ghost predicate LastEvent(log: seq<Event>, r: RowId, k: int) {
    && 0 <= k < |log| && log[k].resource == r
    && (forall j :: k < j < |log| ==> log[j].resource != r)
  }

  lemma {:induction false} FoldIsLast(log: seq<Event>, r: RowId, k: int)
    requires LastEvent(log, r, k)
    ensures Fold(None, log, r) == Apply(None, log[k], r)
    decreases |log|
  {
    if k < |log| - 1 {
      FoldIsLast(log[..|log| - 1], r, k);
    }
  }

  // The last event about r is an update.
  ghost predicate EndsInUpdate(log: seq<Event>, r: RowId) {
    exists k :: LastEvent(log, r, k) && log[k].kind == Update
  }

  // In every committed state a document or property exists exactly when the
  // last event about it is an update, and a document stands at the version
  // that event logged.
  lemma TablesMatchLog(run: seq<State>, actions: seq<Action>, i: nat, r: RowId)
    requires IsRun(run, actions) && i < |run| && IsResource(r)
    ensures var log := Flatten(run[i].history.blocks);
      && (r in run[i].db.rows <==> EndsInUpdate(log, r))
      && (forall k :: LastEvent(log, r, k) && r in run[i].db.rows && log[k].version.Some? ==>
            Number(Some(run[i].db.rows[r])) == log[k].version.value)
  {
    RunInv(run, actions, i);
    var log := Flatten(run[i].history.blocks);
    assert Agrees(run[i].db, log, r);
    AgreesWithLast(run[i].db, log, r);
  }

  lemma AgreesWithLast(db: Db, log: seq<Event>, r: RowId)
    requires Agrees(db, log, r)
    ensures r in db.rows <==> EndsInUpdate(log, r)
    ensures forall k :: LastEvent(log, r, k) && r in db.rows && log[k].version.Some? ==>
      Number(Some(db.rows[r])) == log[k].version.value
  {
    if Mentions(log, r) {
      var k := LastMention(log, r);
      FoldIsLast(log, r, k);
      forall j | LastEvent(log, r, j) ensures j == k {
      }
      assert Apply(None, log[k], r).Some? <==> log[k].kind == Update;
    } else {
      FoldUnmentioned(None, log, r);
    }
  }

  lemma {:induction false} LastMention(log: seq<Event>, r: RowId) returns (k: nat)
    requires Mentions(log, r)
    ensures LastEvent(log, r, k)
    decreases |log|
  {
    var before := log[..|log| - 1];
    if log[|log| - 1].resource == r {
      k := |log| - 1;
    } else {
      assert Mentions(before, r) by {
        var i :| 0 <= i < |log| && log[i].resource == r;
        assert before[i].resource == r;
      }
      k := LastMention(before, r);
    }
  }

  lemma {:induction false} LegalAt(log: seq<Event>, r: RowId, k: nat)
    requires Legal(None, log, r) && k < |log| && log[k].resource == r
    ensures Fits(Fold(None, log[..k], r), log[k])
    decreases |log|
  {
    if k < |log| - 1 {
      var before := log[..|log| - 1];
      LegalAt(before, r, k);
      assert before[..k] == log[..k];
    }
  }

  // A document's logged versions run 1, 2, 3, ... and start over at 1 after a
  // delete; a delete is only ever logged for something that was there.
  lemma VersionsCountUp(run: seq<State>, actions: seq<Action>, i: nat, k: nat)
    requires IsRun(run, actions) && i < |run|
    requires k < |Flatten(run[i].history.blocks)| && IsResource(Flatten(run[i].history.blocks)[k].resource)
    ensures var log := Flatten(run[i].history.blocks);
      var r := log[k].resource;
      if !Mentions(log[..k], r) then
        log[k].kind == Update && (r.Doc? ==> log[k].version == Some(1))
      else
        forall p :: LastEvent(log[..k], r, p) ==>
          && (log[k].kind == Delete ==> log[p].kind == Update)
          && (log[k].kind == Update && r.Doc? ==>
                log[k].version == Some(if log[p].kind == Delete then 1
                                       else if log[p].version.Some? then log[p].version.value + 1 else 1))
  {
    RunInv(run, actions, i);
    var log := Flatten(run[i].history.blocks);
    var r := log[k].resource;
    assert Agrees(run[i].db, log, r);
    LegalAt(log, r, k);
    if Mentions(log[..k], r) {
      forall p | LastEvent(log[..k], r, p) ensures Fold(None, log[..k], r) == Apply(None, log[p], r) {
        FoldIsLast(log[..k], r, p);
      }
    } else {
      FoldUnmentioned(None, log[..k], r);
    }
  }

  // ----- Tailing -----

  function OwnedIds(db: Db, owners: set<string>): set<int> {
    set id | id in db.eventlog && db.eventlog[id].owner in owners
  }

  // What PollEventLog's query can match in each state of a run, and the
  // counter alongside.
  function LogFeed(run: seq<State>, owners: set<string>): seq<set<int>> {
    seq(|run|, i requires 0 <= i < |run| => OwnedIds(run[i].db, owners))
  }

  function LogMarks(run: seq<State>): seq<int> {
    seq(|run|, i requires 0 <= i < |run| => Count(run[i].db, EventLogCounter))
  }

  lemma LogFeeds(run: seq<State>, actions: seq<Action>, owners: set<string>)
    requires IsRun(run, actions)
    ensures Feed(LogFeed(run, owners), LogMarks(run))
    ensures Growing(LogFeed(run, owners))
  {
    var visible, mark := LogFeed(run, owners), LogMarks(run);
    forall i, x | 0 <= i < |visible| && x in visible[i] ensures x <= mark[i] {
      IdsAreCommitOrder(run, actions, i);
    }
    forall i, j | 0 <= i <= j < |visible|
      ensures visible[i] <= visible[j]
      ensures forall x :: x in visible[j] && x !in visible[i] ==> mark[i] < x
    {
      RunLater(run, actions, i, j);
    }
  }

  predicate Present(log: map<int, Event>, ids: seq<int>) {
    forall i :: 0 <= i < |ids| ==> ids[i] in log
  }

  // The entries of a list of ids.
  function Entries(log: map<int, Event>, ids: seq<int>): seq<(int, Event)>
    requires Present(log, ids)
  {
    seq(|ids|, i requires 0 <= i < |ids| => (ids[i], log[ids[i]]))
  }

  lemma PageInLog(run: seq<State>, owners: set<string>, polls: seq<Read>, start: int, k: nat)
    requires k < |polls| && Schedule(polls, |run|)
    ensures Present(run[polls[k].at].db.eventlog, PageAt(LogFeed(run, owners), polls, start, k))
  {
    var c := CursorAt(LogFeed(run, owners), polls, start, k);
    var seen := LogFeed(run, owners)[polls[k].at];
    PageIsBlock(seen, c, polls[k].limit);
    forall id | id in PageAt(LogFeed(run, owners), polls, start, k) ensures id in run[polls[k].at].db.eventlog {
      assert id in Elements(Page(seen, c, polls[k].limit));
    }
  }

  // The entries a tailer has been given after k pages, each page read from
  // the tables as they stood at its own moment.
  ghost function Tailed(run: seq<State>, owners: set<string>, polls: seq<Read>, start: int, k: nat): seq<(int, Event)>
    requires k <= |polls| && Schedule(polls, |run|)
  {
    if k == 0 then []
    else
      PageInLog(run, owners, polls, start, k - 1);
      Tailed(run, owners, polls, start, k - 1)
      + Entries(run[polls[k - 1].at].db.eventlog, PageAt(LogFeed(run, owners), polls, start, k - 1))
  }

  lemma {:induction false} TailedIsDelivered(run: seq<State>, actions: seq<Action>, owners: set<string>, polls: seq<Read>, start: int, k: nat, now: nat)
    requires IsRun(run, actions)
    requires k <= |polls| && Schedule(polls, |run|)
    requires now < |run| && (k > 0 ==> polls[k - 1].at <= now)
    ensures Present(run[now].db.eventlog, Delivered(LogFeed(run, owners), polls, start, k))
    ensures Tailed(run, owners, polls, start, k)
         == Entries(run[now].db.eventlog, Delivered(LogFeed(run, owners), polls, start, k))
  {
    if k > 0 {
      TailedIsDelivered(run, actions, owners, polls, start, k - 1, now);
      PageInLog(run, owners, polls, start, k - 1);
      RunLater(run, actions, polls[k - 1].at, now);
      var before := Delivered(LogFeed(run, owners), polls, start, k - 1);
      var page := PageAt(LogFeed(run, owners), polls, start, k - 1);
      SameEntries(run[polls[k - 1].at].db.eventlog, run[now].db.eventlog, page);
      EntriesJoin(run[now].db.eventlog, before, page);
      assert Delivered(LogFeed(run, owners), polls, start, k) == before + page;
    }
  }

  // Entries never change.
  lemma SameEntries(log: map<int, Event>, log': map<int, Event>, ids: seq<int>)
    requires Present(log, ids) && forall id :: id in log ==> id in log' && log'[id] == log[id]
    ensures Present(log', ids) && Entries(log', ids) == Entries(log, ids)
  {
    forall i | 0 <= i < |ids| ensures ids[i] in log' && log'[ids[i]] == log[ids[i]] {
      var id := ids[i];
      assert id in log;
    }
  }

  lemma EntriesJoin(log: map<int, Event>, a: seq<int>, b: seq<int>)
    requires Present(log, a) && Present(log, b)
    ensures Present(log, a + b) && Entries(log, a + b) == Entries(log, a) + Entries(log, b)
  {
  }

  /** Tail completeness. Over any interleaving of transactions, rollbacks and
      polls, with any page sizes: what the tailer has been given is the
      committed log of its owners between where it started and its cursor,
      each entry once and in order, and no later state adds to that range. */
  lemma TailIsComplete(run: seq<State>, actions: seq<Action>, owners: set<string>, polls: seq<Read>, start: int, now: nat)
    requires IsRun(run, actions)
    requires Schedule(polls, |run|) && now < |run| && (polls != [] ==> polls[|polls| - 1].at <= now)
    ensures var cursor := CursorAt(LogFeed(run, owners), polls, start, |polls|);
      var ids := Ascend(Between(OwnedIds(run[now].db, owners), start, cursor));
      && Present(run[now].db.eventlog, ids)
      && Tailed(run, owners, polls, start, |polls|) == Entries(run[now].db.eventlog, ids)
  {
    LogFeeds(run, actions, owners);
    DeliveredIsRange(LogFeed(run, owners), LogMarks(run), polls, start, |polls|, now);
    TailedIsDelivered(run, actions, owners, polls, start, |polls|, now);
  }

  // Starting at -1 means starting at the latest id: everything the owners
  // gain afterwards lies above that cursor, so tailing from it misses nothing.
  lemma LatestStartMissesNothing(run: seq<State>, actions: seq<Action>, owners: set<string>, i: nat, j: nat, id: int)
    requires IsRun(run, actions) && i <= j < |run|
    requires id in OwnedIds(run[j].db, owners)
    ensures id in OwnedIds(run[i].db, owners) <==> id <= Latest(OwnedIds(run[i].db, owners))
  {
    LatestIsLargest(OwnedIds(run[i].db, owners));
    LogFeeds(run, actions, owners);
    IdsAreCommitOrder(run, actions, i);
    IdsAreCommitOrder(run, actions, j);
    assert LogFeed(run, owners)[i] == OwnedIds(run[i].db, owners);
    assert LogFeed(run, owners)[j] == OwnedIds(run[j].db, owners);
    assert Latest(OwnedIds(run[i].db, owners)) <= LogMarks(run)[i];
  }
}
