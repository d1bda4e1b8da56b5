/** A client that polls again and again with the cursor it was given: what the
    handlers promise of each answer adds up to the tail theorems. */
module TailedPolls {
  import opened Ascending
  import opened Tail
  import opened StoreModel
  import opened EventLogGuarantees
  import opened InboxGuarantees
  import opened PollHandlers
  import opened Answers

  // ----- The eventlog -----

  // One answer of PollEventLog.
  datatype LogAnswer = LogAnswer(entries: seq<(int, Event)>, last: int)

  // The k-th call was answered from the state polls[k].at, from the cursor the
  // call before it returned.
  ghost predicate LogPollAt(run: seq<State>, owners: set<string>, polls: seq<Read>, start: int, answers: seq<LogAnswer>, k: nat)
    requires k < |polls| && k < |answers| && polls[k].at < |run|
  {
    IsLogPage(run[polls[k].at].db, owners, LogCursor(answers, start, k), polls[k].limit, answers[k].entries, answers[k].last)
  }

  ghost predicate LogPolls(run: seq<State>, owners: set<string>, polls: seq<Read>, start: int, answers: seq<LogAnswer>) {
    && Schedule(polls, |run|) && |answers| == |polls|
    && forall k :: 0 <= k < |polls| ==> LogPollAt(run, owners, polls, start, answers, k)
  }

  // The cursor the k-th call was made with.
  function LogCursor(answers: seq<LogAnswer>, start: int, k: nat): int
    requires k <= |answers|
  {
    if k == 0 then start else answers[k - 1].last
  }

  // What the first k calls returned.
  function AllEntries(answers: seq<LogAnswer>, k: nat): seq<(int, Event)>
    requires k <= |answers|
  {
    if k == 0 then [] else AllEntries(answers, k - 1) + answers[k - 1].entries
  }

  // The k-th page, once the cursor before it is known.
  lemma LogPollIsPage(run: seq<State>, owners: set<string>, polls: seq<Read>, start: int, answers: seq<LogAnswer>, k: nat)
    requires LogPolls(run, owners, polls, start, answers) && k < |polls|
    requires CursorAt(LogFeed(run, owners), polls, start, k) == LogCursor(answers, start, k)
    ensures var page := PageAt(LogFeed(run, owners), polls, start, k);
      && Present(run[polls[k].at].db.eventlog, page)
      && answers[k].entries == Entries(run[polls[k].at].db.eventlog, page)
    ensures CursorAt(LogFeed(run, owners), polls, start, k + 1) == answers[k].last
  {
    var cursor := LogCursor(answers, start, k);
    assert LogPollAt(run, owners, polls, start, answers, k);
    assert LogFeed(run, owners)[polls[k].at] == OwnedIds(run[polls[k].at].db, owners);
    assert PageAt(LogFeed(run, owners), polls, start, k) == Page(OwnedIds(run[polls[k].at].db, owners), cursor, polls[k].limit);
  }

  lemma {:induction false} LogPollsAreTail(run: seq<State>, owners: set<string>, polls: seq<Read>, start: int, answers: seq<LogAnswer>, k: nat)
    requires LogPolls(run, owners, polls, start, answers) && k <= |polls|
    ensures AllEntries(answers, k) == Tailed(run, owners, polls, start, k)
    ensures CursorAt(LogFeed(run, owners), polls, start, k) == LogCursor(answers, start, k)
  {
    if k > 0 {
      LogPollsAreTail(run, owners, polls, start, answers, k - 1);
      NextLogPoll(run, owners, polls, start, answers, k);
    }
  }

  lemma NextLogPoll(run: seq<State>, owners: set<string>, polls: seq<Read>, start: int, answers: seq<LogAnswer>, k: nat)
    requires LogPolls(run, owners, polls, start, answers) && 0 < k <= |polls|
    requires AllEntries(answers, k - 1) == Tailed(run, owners, polls, start, k - 1)
    requires CursorAt(LogFeed(run, owners), polls, start, k - 1) == LogCursor(answers, start, k - 1)
    ensures AllEntries(answers, k) == Tailed(run, owners, polls, start, k)
    ensures CursorAt(LogFeed(run, owners), polls, start, k) == LogCursor(answers, start, k)
  {
    LogPollIsPage(run, owners, polls, start, answers, k - 1);
  }

  /** Everything a polling client has been given is the owners' log between its
      first and its last cursor. */
  lemma PolledLogIsComplete(run: seq<State>, actions: seq<Action>, owners: set<string>, polls: seq<Read>, start: int, answers: seq<LogAnswer>)
    requires IsRun(run, actions) && LogPolls(run, owners, polls, start, answers) && polls != []
    ensures var now := run[polls[|polls| - 1].at].db;
      var ids := Ascend(Between(OwnedIds(now, owners), start, answers[|answers| - 1].last));
      Present(now.eventlog, ids) && AllEntries(answers, |answers|) == Entries(now.eventlog, ids)
  {
    var at := polls[|polls| - 1].at;
    AllLogPolls(run, owners, polls, start, answers);
    TailIsComplete(run, actions, owners, polls, start, at);
  }

  lemma AllLogPolls(run: seq<State>, owners: set<string>, polls: seq<Read>, start: int, answers: seq<LogAnswer>)
    requires LogPolls(run, owners, polls, start, answers) && polls != []
    ensures AllEntries(answers, |answers|) == Tailed(run, owners, polls, start, |polls|)
    ensures CursorAt(LogFeed(run, owners), polls, start, |polls|) == answers[|answers| - 1].last
  {
    LogPollsAreTail(run, owners, polls, start, answers, |polls|);
  }

  /** In terms of the log alone: every entry the client has been given is one of
      the log's, for one of the owners and between its first and last cursor,
      and every such entry of the log is among them. */
  lemma PolledEntriesMean(run: seq<State>, actions: seq<Action>, owners: set<string>, polls: seq<Read>, start: int, answers: seq<LogAnswer>)
    requires IsRun(run, actions) && LogPolls(run, owners, polls, start, answers) && polls != []
    ensures var db, last, given := run[polls[|polls| - 1].at].db, answers[|answers| - 1].last, AllEntries(answers, |answers|);
      && (forall k :: 0 <= k < |given| ==> OwnedEntry(db, owners, given[k].0, given[k].1, start, last))
      && (forall id | OwnedAbove(db, owners, id, start) && id <= last :: (id, db.eventlog[id]) in given)
  {
    PolledLogIsComplete(run, actions, owners, polls, start, answers);
    EntriesMean(run[polls[|polls| - 1].at].db, owners, start, answers[|answers| - 1].last, AllEntries(answers, |answers|));
  }

  lemma EntriesMean(db: Db, owners: set<string>, start: int, last: int, given: seq<(int, Event)>)
    requires var ids := Ascend(Between(OwnedIds(db, owners), start, last));
      Present(db.eventlog, ids) && given == Entries(db.eventlog, ids)
    ensures forall k :: 0 <= k < |given| ==> OwnedEntry(db, owners, given[k].0, given[k].1, start, last)
    ensures forall id | OwnedAbove(db, owners, id, start) && id <= last :: (id, db.eventlog[id]) in given
  {
    var range := Between(OwnedIds(db, owners), start, last);
    var ids := Ascend(range);
    AscendSorted(range);
    forall k | 0 <= k < |given| ensures OwnedEntry(db, owners, given[k].0, given[k].1, start, last) {
      assert ids[k] in Elements(ids);
    }
    forall id | OwnedAbove(db, owners, id, start) && id <= last ensures (id, db.eventlog[id]) in given {
      assert id in Elements(ids);
      var k :| 0 <= k < |ids| && ids[k] == id;
      assert given[k] == (id, db.eventlog[id]);
    }
  }

  // ----- The inbox -----

  datatype InboxAnswer = InboxAnswer(items: seq<InboxItem>, last: int)

  ghost predicate InboxPolls(run: seq<State>, reader: Reader, polls: seq<Read>, start: int, answers: seq<InboxAnswer>) {
    && Schedule(polls, |run|) && |answers| == |polls|
    && forall k :: 0 <= k < |polls| ==> InboxPollAt(run, reader, polls, start, answers, k)
  }

  ghost predicate InboxPollAt(run: seq<State>, reader: Reader, polls: seq<Read>, start: int, answers: seq<InboxAnswer>, k: nat)
    requires k < |polls| && k < |answers| && polls[k].at < |run|
  {
    IsInboxAnswer(run[polls[k].at].db, reader, InboxCursor(answers, start, k), polls[k].limit, answers[k])
  }

  ghost predicate IsInboxAnswer(db: Db, reader: Reader, cursor: int, limit: int, answer: InboxAnswer) {
    var page := Page(VisibleIds(db, reader), cursor, limit);
    IsInboxPage(db, reader, page, answer.items) && answer.last == Cursor(page, cursor)
  }

  function InboxCursor(answers: seq<InboxAnswer>, start: int, k: nat): int
    requires k <= |answers|
  {
    if k == 0 then start else answers[k - 1].last
  }

  function Ids(items: seq<InboxItem>): seq<int> {
    seq(|items|, i requires 0 <= i < |items| => items[i].id)
  }

  function AllIds(answers: seq<InboxAnswer>, k: nat): seq<int>
    requires k <= |answers|
  {
    if k == 0 then [] else AllIds(answers, k - 1) + Ids(answers[k - 1].items)
  }

  lemma InboxPollIsPage(run: seq<State>, reader: Reader, polls: seq<Read>, start: int, answers: seq<InboxAnswer>, k: nat)
    requires InboxPolls(run, reader, polls, start, answers) && k < |polls|
    requires CursorAt(InboxFeed(run, reader), polls, start, k) == InboxCursor(answers, start, k)
    ensures Ids(answers[k].items) == PageAt(InboxFeed(run, reader), polls, start, k)
    ensures CursorAt(InboxFeed(run, reader), polls, start, k + 1) == answers[k].last
  {
    var db, cursor := run[polls[k].at].db, InboxCursor(answers, start, k);
    assert InboxPollAt(run, reader, polls, start, answers, k);
    assert InboxFeed(run, reader)[polls[k].at] == VisibleIds(db, reader);
    assert PageAt(InboxFeed(run, reader), polls, start, k) == Page(VisibleIds(db, reader), cursor, polls[k].limit);
  }

  lemma {:induction false} InboxPollsAreTail(run: seq<State>, reader: Reader, polls: seq<Read>, start: int, answers: seq<InboxAnswer>, k: nat)
    requires InboxPolls(run, reader, polls, start, answers) && k <= |polls|
    ensures AllIds(answers, k) == Delivered(InboxFeed(run, reader), polls, start, k)
    ensures CursorAt(InboxFeed(run, reader), polls, start, k) == InboxCursor(answers, start, k)
  {
    if k > 0 {
      InboxPollsAreTail(run, reader, polls, start, answers, k - 1);
      NextInboxPoll(run, reader, polls, start, answers, k);
    }
  }

  lemma NextInboxPoll(run: seq<State>, reader: Reader, polls: seq<Read>, start: int, answers: seq<InboxAnswer>, k: nat)
    requires InboxPolls(run, reader, polls, start, answers) && 0 < k <= |polls|
    requires AllIds(answers, k - 1) == Delivered(InboxFeed(run, reader), polls, start, k - 1)
    requires CursorAt(InboxFeed(run, reader), polls, start, k - 1) == InboxCursor(answers, start, k - 1)
    ensures AllIds(answers, k) == Delivered(InboxFeed(run, reader), polls, start, k)
    ensures CursorAt(InboxFeed(run, reader), polls, start, k) == InboxCursor(answers, start, k)
  {
    InboxPollIsPage(run, reader, polls, start, answers, k - 1);
  }

  /** A polling reader is given message ids in ascending order without repeats,
      and every message it can still see up to its last cursor is among them. */
  lemma PolledInboxSkipsNothing(run: seq<State>, actions: seq<Action>, reader: Reader, polls: seq<Read>, start: int, answers: seq<InboxAnswer>)
    requires IsRun(run, actions) && InboxPolls(run, reader, polls, start, answers) && polls != []
    ensures Sorted(AllIds(answers, |answers|))
    ensures forall id | id in VisibleIds(run[polls[|polls| - 1].at].db, reader) && start < id <= answers[|answers| - 1].last ::
      id in AllIds(answers, |answers|)
  {
    var at := polls[|polls| - 1].at;
    AllInboxPolls(run, reader, polls, start, answers);
    InboxTailSkipsNothing(run, actions, reader, polls, start, at);
  }

  lemma AllInboxPolls(run: seq<State>, reader: Reader, polls: seq<Read>, start: int, answers: seq<InboxAnswer>)
    requires InboxPolls(run, reader, polls, start, answers) && polls != []
    ensures AllIds(answers, |answers|) == Delivered(InboxFeed(run, reader), polls, start, |polls|)
    ensures CursorAt(InboxFeed(run, reader), polls, start, |polls|) == answers[|answers| - 1].last
  {
    InboxPollsAreTail(run, reader, polls, start, answers, |polls|);
  }
}
