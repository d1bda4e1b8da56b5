/** What the answers of the list and poll handlers contain, in terms of the
    tables alone: whose rows, which of them, with what in them. */
module Answers {
  import opened Basics
  import opened Ascending
  import opened StoreModel
  import opened EventLogGuarantees
  import opened InboxGuarantees
  import opened InboxPaging
  import opened ReaderViews
  import opened PollHandlers
  import MessageGuarantees

  // ----- The eventlog -----

  // The log has this entry, for one of these owners, in this range of ids.
  predicate OwnedEntry(db: Db, owners: set<string>, id: int, e: Event, start: int, last: int) {
    id in db.eventlog && e == db.eventlog[id] && e.owner in owners && start < id <= last
  }

  predicate OwnedAbove(db: Db, owners: set<string>, id: int, start: int) {
    id in db.eventlog && db.eventlog[id].owner in owners && start < id
  }

  /** An answer of PollEventLog holds exactly the entries of the owners between
      its start and the id it returns, in id order; if it holds fewer than were
      asked for, there are no more. */
  lemma LogAnswerMeans(db: Db, owners: set<string>, start: int, limit: nat, entries: seq<(int, Event)>, last: int)
    requires limit >= 1 && IsLogPage(db, owners, start, limit, entries, last)
    ensures forall k :: 0 <= k < |entries| ==> OwnedEntry(db, owners, entries[k].0, entries[k].1, start, last)
    ensures forall id | OwnedAbove(db, owners, id, start) && id <= last :: (id, db.eventlog[id]) in entries
    ensures forall k, l :: 0 <= k < l < |entries| ==> entries[k].0 < entries[l].0
    ensures |entries| <= limit && (|entries| < limit ==> forall id :: OwnedAbove(db, owners, id, start) ==> id <= last)
  {
    var ids := OwnedIds(db, owners);
    var page := Page(ids, start, limit);
    PageIsBlock(ids, start, limit);
    PageLength(ids, start, limit);
    forall k | 0 <= k < |entries| ensures OwnedEntry(db, owners, entries[k].0, entries[k].1, start, last) {
      assert page[k] in Elements(page);
    }
    forall id | OwnedAbove(db, owners, id, start) && id <= last ensures (id, db.eventlog[id]) in entries {
      assert id in Elements(page);
      var k :| 0 <= k < |page| && page[k] == id;
      assert entries[k] == (id, db.eventlog[id]);
    }
    if |entries| < limit {
      AllAbove(ids, start, limit);
      assert forall id :: OwnedAbove(db, owners, id, start) ==> id in Above(ids, start);
    }
  }

  // A page that is not full reaches to the end.
  lemma AllAbove(s: set<int>, after: int, limit: nat)
    requires limit >= 1 && |Page(s, after, limit)| < limit
    ensures forall x :: x in Above(s, after) ==> x <= Cursor(Page(s, after, limit), after)
  {
    PageIsBlock(s, after, limit);
    PageLength(s, after, limit);
    AscendSorted(Above(s, after));
    assert Page(s, after, limit) == Ascend(Above(s, after));
  }

  /** A start at -1 is the owners' largest id, or 0 if they have none. */
  lemma LogStartMeans(db: Db, owners: set<string>)
    ensures var start := Latest(OwnedIds(db, owners));
      && (forall id :: id in db.eventlog && db.eventlog[id].owner in owners ==> id <= start)
      && (if exists id :: id in db.eventlog && db.eventlog[id].owner in owners
          then start in db.eventlog && db.eventlog[start].owner in owners else start == 0)
  {
    LatestIsLargest(OwnedIds(db, owners));
    forall id | id in db.eventlog && db.eventlog[id].owner in owners ensures id in OwnedIds(db, owners) { }
  }

  // ----- The inbox -----

  // The message is there, addressed to one of the reader's owners and not
  // hidden by the reader.
  predicate InView(db: Db, reader: Reader, id: int) {
    && id in db.inbox && db.inbox[id].recipient in reader.owners
    && !(exists isRead :: Get(db.rows, ReadState(id, reader.subject)) == Some(StateRow(isRead, true)))
  }

  // The reader has marked it read; without a mark it is unread.
  predicate MarkedRead(db: Db, reader: Reader, id: int) {
    exists hidden :: Get(db.rows, ReadState(id, reader.subject)) == Some(StateRow(true, hidden))
  }

  lemma VisibleMeans(db: Db, reader: Reader, id: int)
    ensures id in VisibleIds(db, reader) <==> InView(db, reader, id)
    ensures IsRead(Get(db.rows, ReadState(id, reader.subject))) <==> MarkedRead(db, reader, id)
  {
    var row := Get(db.rows, ReadState(id, reader.subject));
    if row.Some? && row.value.StateRow? {
      assert row == Some(StateRow(row.value.isRead, row.value.hidden));
    }
  }

  // An item shows its message as it is stored, with the reader's own mark, and
  // so as the reader's view has it.
  ghost predicate ShowsMessage(db: Db, reader: Reader, item: InboxItem) {
    && InView(db, reader, item.id) && item.message == db.inbox[item.id]
    && (item.isRead <==> MarkedRead(db, reader, item.id))
    && item.id in ReaderView(db, reader) && ReaderView(db, reader)[item.id] == (item.message, item.isRead)
  }

  lemma ItemsMean(db: Db, reader: Reader, ids: seq<int>, items: seq<InboxItem>)
    requires IsInboxPage(db, reader, ids, items) && forall k :: 0 <= k < |ids| ==> ids[k] in VisibleIds(db, reader)
    ensures |items| == |ids| && forall k :: 0 <= k < |items| ==> items[k].id == ids[k] && ShowsMessage(db, reader, items[k])
  {
    forall k | 0 <= k < |ids| ensures items[k].id == ids[k] && ShowsMessage(db, reader, items[k]) {
      var id := ids[k];
      VisibleMeans(db, reader, id);
      assert items[k] == InboxItem(id, db.inbox[id], IsRead(Get(db.rows, ReadState(id, reader.subject))));
    }
  }

  /** An answer of PollInboxMessages shows exactly the reader's messages between
      its start and the id it returns, in id order; if it holds fewer than were
      asked for, there are no more. */
  lemma InboxAnswerMeans(db: Db, reader: Reader, start: int, limit: nat, items: seq<InboxItem>, last: int)
    requires limit >= 1
    requires var page := Page(VisibleIds(db, reader), start, limit); IsInboxPage(db, reader, page, items) && last == Cursor(page, start)
    ensures forall k :: 0 <= k < |items| ==> ShowsMessage(db, reader, items[k]) && start < items[k].id <= last
    ensures forall id | InView(db, reader, id) && start < id <= last :: exists k :: 0 <= k < |items| && items[k].id == id
    ensures forall k, l :: 0 <= k < l < |items| ==> items[k].id < items[l].id
    ensures |items| <= limit && (|items| < limit ==> forall id :: InView(db, reader, id) && start < id ==> id <= last)
  {
    var ids := VisibleIds(db, reader);
    var page := Page(ids, start, limit);
    PageIsBlock(ids, start, limit);
    PageLength(ids, start, limit);
    PageMembers(ids, start, limit);
    ItemsMean(db, reader, page, items);
    forall k | 0 <= k < |items| ensures start < items[k].id <= last {
      assert page[k] in Elements(page);
    }
    forall id | InView(db, reader, id) && start < id ensures id in Above(ids, start) {
      VisibleMeans(db, reader, id);
    }
    forall id | InView(db, reader, id) && start < id <= last ensures exists k :: 0 <= k < |items| && items[k].id == id {
      assert id in Elements(page);
      var k :| 0 <= k < |page| && page[k] == id;
      assert items[k].id == id;
    }
    if |items| < limit {
      AllAbove(ids, start, limit);
    }
  }

  /** A start at -1 is the largest id addressed to the reader, hidden or not, or
      0 if there is none. */
  lemma InboxStartMeans(db: Db, reader: Reader)
    ensures var start := Latest(InboxIds(db, reader));
      && (forall id :: id in db.inbox && db.inbox[id].recipient in reader.owners ==> id <= start)
      && (if exists id :: id in db.inbox && db.inbox[id].recipient in reader.owners
          then start in db.inbox && db.inbox[start].recipient in reader.owners else start == 0)
  {
    LatestIsLargest(InboxIds(db, reader));
    forall id | id in db.inbox && db.inbox[id].recipient in reader.owners ensures id in InboxIds(db, reader) { }
  }

  // ----- Listing back -----

  predicate Before(id: int, before: int) {
    before == 0 || id < before
  }

  lemma BackPageAt(s: set<int>, before: int, limit: nat)
    ensures var all, page := Ascend(Below(s, before)), BackPage(s, before, limit);
      |page| <= |all| && forall k :: 0 <= k < |page| ==> page[k] == all[|all| - 1 - k]
  {
    var back := Reverse(Ascend(Below(s, before)));
    var page := BackPage(s, before, limit);
    forall k | 0 <= k < |page| ensures page[k] == back[k] { }
  }

  // The end of an ascending list, backwards.
  lemma EndBackwards(all: seq<int>, page: seq<int>)
    requires Sorted(all) && |page| <= |all| && forall k :: 0 <= k < |page| ==> page[k] == all[|all| - 1 - k]
    ensures forall k, l :: 0 <= k < l < |page| ==> page[k] > page[l]
    ensures forall id, k :: id in all && id !in page && 0 <= k < |page| ==> id < page[k]
    ensures |page| == |all| ==> forall id :: id in all ==> id in page
  {
    forall j | 0 <= j < |all| && |all| - 1 - j < |page| ensures all[j] in page {
      assert page[|all| - 1 - j] == all[j];
    }
    forall id | id in all && id !in page ensures |page| < |all| && forall k :: 0 <= k < |page| ==> id < page[k] {
      var j :| 0 <= j < |all| && all[j] == id;
    }
  }

  lemma BackPageWithin(s: set<int>, before: int, limit: nat)
    ensures var page := BackPage(s, before, limit);
      && (forall k :: 0 <= k < |page| ==> page[k] in s && Before(page[k], before))
      && (forall k, l :: 0 <= k < l < |page| ==> page[k] > page[l])
      && |page| <= limit
  {
    var all, page := Ascend(Below(s, before)), BackPage(s, before, limit);
    AscendSorted(Below(s, before));
    BackPageAt(s, before, limit);
    BackPageLength(s, before, limit);
    EndBackwards(all, page);
    BackPageMembers(s, before, limit);
    forall k | 0 <= k < |page| ensures Before(page[k], before) {
      assert all[|all| - 1 - k] in Elements(all);
    }
  }

  // A page back leaves out only what is older than all of it, and that only
  // when it is full.
  lemma BackPageLeavesOut(s: set<int>, before: int, limit: nat, id: int)
    requires id in s && Before(id, before) && id !in BackPage(s, before, limit)
    ensures |BackPage(s, before, limit)| == limit && forall k :: 0 <= k < limit ==> id < BackPage(s, before, limit)[k]
  {
    var all := Ascend(Below(s, before));
    AscendSorted(Below(s, before));
    BackPageAt(s, before, limit);
    BackPageLength(s, before, limit);
    EndBackwards(all, BackPage(s, before, limit));
    assert id in Elements(all);
  }

  /** An answer of ListInboxMessages shows the reader's newest messages below
      the given id, newest first, and reports the ids of its first and last. */
  lemma ListAnswerMeans(db: Db, reader: Reader, before: int, limit: nat, items: seq<InboxItem>)
    requires IsInboxPage(db, reader, BackPage(VisibleIds(db, reader), before, limit), items)
    ensures forall k :: 0 <= k < |items| ==> ShowsMessage(db, reader, items[k]) && Before(items[k].id, before)
    ensures forall k, l :: 0 <= k < l < |items| ==> items[k].id > items[l].id
    ensures |items| <= limit
    ensures forall id | InView(db, reader, id) && Before(id, before) ::
      || (exists k :: 0 <= k < |items| && items[k].id == id)
      || (|items| == limit && forall k :: 0 <= k < |items| ==> id < items[k].id)
  {
    var ids := VisibleIds(db, reader);
    var page := BackPage(ids, before, limit);
    BackPageMembers(ids, before, limit);
    BackPageWithin(ids, before, limit);
    ItemsMean(db, reader, page, items);
    forall id | InView(db, reader, id) && Before(id, before)
      ensures || (exists k :: 0 <= k < |items| && items[k].id == id)
        || (|items| == limit && forall k :: 0 <= k < |items| ==> id < items[k].id)
    {
      VisibleMeans(db, reader, id);
      if id in page {
        var k :| 0 <= k < |page| && page[k] == id;
        assert items[k].id == id;
      } else {
        BackPageLeavesOut(ids, before, limit, id);
      }
    }
  }

  // ----- System messages -----

  // An item shows a message of the recipient: everything but its type.
  predicate ShowsSystemMessage(db: Db, recipient: string, item: (int, Message)) {
    && (recipient, item.0) in db.messages
    && item.1.createdBy == db.messages[(recipient, item.0)].createdBy
    && item.1.payload == db.messages[(recipient, item.0)].payload
    && item.1.kind == ""
  }

  /** An answer of PollMessages shows exactly the recipient's messages between
      its start and the id it returns, in id order, at most ten; if it holds
      fewer, there are no more. */
  lemma MessageAnswerMeans(db: Db, recipient: string, start: int, items: seq<(int, Message)>, last: int)
    requires var page := Page(MessageGuarantees.MessageIds(db, recipient), start, MESSAGE_LIMIT);
      IsMessagePage(db, recipient, page, items) && last == Cursor(page, start)
    ensures forall k :: 0 <= k < |items| ==> ShowsSystemMessage(db, recipient, items[k]) && start < items[k].0 <= last
    ensures forall id | (recipient, id) in db.messages && start < id <= last :: exists k :: 0 <= k < |items| && items[k].0 == id
    ensures forall k, l :: 0 <= k < l < |items| ==> items[k].0 < items[l].0
    ensures |items| <= 10 && (|items| < 10 ==> forall id :: (recipient, id) in db.messages && start < id ==> id <= last)
  {
    var ids := MessageGuarantees.MessageIds(db, recipient);
    var page := Page(ids, start, MESSAGE_LIMIT);
    PageIsBlock(ids, start, MESSAGE_LIMIT);
    PageLength(ids, start, MESSAGE_LIMIT);
    forall k | 0 <= k < |items| ensures ShowsSystemMessage(db, recipient, items[k]) && start < items[k].0 <= last {
      assert page[k] in Elements(page);
    }
    forall id | (recipient, id) in db.messages && start < id ensures id in Above(ids, start) {
      MessageIdsMean(db, recipient, id);
    }
    forall id | (recipient, id) in db.messages && start < id <= last ensures exists k :: 0 <= k < |items| && items[k].0 == id {
      assert id in Elements(page);
      var k :| 0 <= k < |page| && page[k] == id;
      assert items[k].0 == id;
    }
    if |items| < 10 {
      AllAbove(ids, start, MESSAGE_LIMIT);
    }
  }

  lemma MessageIdsMean(db: Db, recipient: string, id: int)
    ensures id in MessageGuarantees.MessageIds(db, recipient) <==> (recipient, id) in db.messages
  {
    if (recipient, id) in db.messages {
      var k := (recipient, id);
      assert k in db.messages && k.0 == recipient && k.1 == id;
    }
  }

  /** A start at -1 is the recipient's largest id still stored, or 0. */
  lemma MessageStartMeans(db: Db, recipient: string)
    ensures var start := Latest(MessageGuarantees.MessageIds(db, recipient));
      && (forall id :: (recipient, id) in db.messages ==> id <= start)
      && (if exists id :: (recipient, id) in db.messages then (recipient, start) in db.messages else start == 0)
  {
    LatestIsLargest(MessageGuarantees.MessageIds(db, recipient));
    forall id ensures id in MessageGuarantees.MessageIds(db, recipient) <==> (recipient, id) in db.messages {
      MessageIdsMean(db, recipient, id);
    }
  }
}
