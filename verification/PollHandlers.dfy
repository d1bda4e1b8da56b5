/** The long-poll and list handlers. Every statement of a handler may find the
    tables later than the one before left them; a notification, a timeout and a
    late wake-up all come to the same re-read. */
module PollHandlers {
  import opened Basics
  import opened Ascending
  import opened StoreModel
  import opened StoreHistory
  import opened PGStoreMethods
  import opened EventLogGuarantees
  import opened InboxGuarantees
  import opened InboxPaging
  import MessageGuarantees

  const MESSAGE_LIMIT := 10

  lemma PageMembers(s: set<int>, after: int, limit: int)
    ensures forall i :: 0 <= i < |Page(s, after, limit)| ==> Page(s, after, limit)[i] in s
  {
    AscendSorted(Above(s, after));
    var all := Ascend(Above(s, after));
    forall i | 0 <= i < |Page(s, after, limit)| ensures Page(s, after, limit)[i] in s {
      assert all[i] in Elements(all);
    }
  }

  // Each id of a page exceeds the cursor the ones before it leave.
  lemma PageAscends(s: set<int>, after: int, limit: int, i: nat)
    requires limit >= 1 && i < |Page(s, after, limit)|
    ensures var page := Page(s, after, limit); Cursor(page[..i], after) < page[i] == Cursor(page[..i + 1], after)
  {
    var page := Page(s, after, limit);
    PageIsBlock(s, after, limit);
    assert page[i] in Elements(page);
  }

  // The entries a poll of these owners is to return.
  ghost predicate IsLogPage(db: Db, owners: set<string>, start: int, limit: int, entries: seq<(int, Event)>, last: int) {
    var page := Page(OwnedIds(db, owners), start, limit);
    Present(db.eventlog, page) && entries == Entries(db.eventlog, page) && last == Cursor(page, start)
  }

  class SettingsService {
    const store: PGStore

    constructor (store: PGStore)
      ensures this.store == store
    {
      this.store := store;
    }

    // The helper inside PollEventLog: fetch a page and find its largest id.
    method ListLogEntries(owners: set<string>, afterId: int, limit: int) returns (entries: seq<(int, Event)>, maxId: int)
      requires limit >= 1
      ensures IsLogPage(store.Tables(), owners, afterId, limit, entries, maxId)
    {
      var ids := Page(OwnedIds(store.Tables(), owners), afterId, limit);
      PageMembers(OwnedIds(store.Tables(), owners), afterId, limit);
      var events := Entries(store.eventlog, ids);
      maxId := afterId;
      entries := [];
      var i := 0;
      while i < |events|
        invariant 0 <= i <= |events|
        invariant entries == events[..i]
        invariant maxId == Cursor(ids[..i], afterId)
      {
        PageAscends(OwnedIds(store.Tables(), owners), afterId, limit, i);
        entries := entries + [events[i]];
        if events[i].0 > maxId {
          maxId := events[i].0;
        }
        i := i + 1;
      }
      assert ids[..i] == ids;
    }

    // at is the state of the tables the returned page was read from.
    method PollEventLog(owners: set<string>, afterId: int, size: int)
        returns (ok: bool, lastId: int, entries: seq<(int, Event)>, ghost start: int, ghost at: Db)
      modifies store
      ensures start == if afterId == -1 then Latest(OwnedIds(old(store.Tables()), owners)) else afterId
      ensures Later(old(store.Tables()), at)
      ensures IsLogPage(at, owners, start, ClampSize(size), entries, lastId)
      ensures !ok ==> entries == []
    {
      var limit := ClampSize(size);
      var after := afterId;
      if afterId == -1 {
        after := Latest(OwnedIds(store.Tables(), owners));
      }
      start := after;

      store.OthersCommit();
      at := store.Tables();
      entries, lastId := ListLogEntries(owners, after, limit);
      if |entries| > 0 {
        return true, lastId, entries, start, at;
      }

      // Wait for a notification, the timeout, or the end of the request.
      var ended: bool := *;
      if ended {
        return false, lastId, entries, start, at;
      }
      store.OthersCommit();
      LaterTransitive(old(store.Tables()), at, store.Tables());
      at := store.Tables();
      entries, lastId := ListLogEntries(owners, after, limit);
      ok := true;
    }
  }

  datatype InboxItem = InboxItem(id: int, message: InboxMessage, isRead: bool)

  function Items(db: Db, subject: string, ids: seq<int>): seq<InboxItem>
    requires forall i :: 0 <= i < |ids| ==> ids[i] in db.inbox
  {
    seq(|ids|, i requires 0 <= i < |ids| =>
      InboxItem(ids[i], db.inbox[ids[i]], IsRead(Get(db.rows, ReadState(ids[i], subject)))))
  }

  ghost predicate IsInboxPage(db: Db, reader: Reader, ids: seq<int>, items: seq<InboxItem>) {
    (forall i :: 0 <= i < |ids| ==> ids[i] in db.inbox) && items == Items(db, reader.subject, ids)
  }

  class MessagesService {
    const store: PGStore

    constructor (store: PGStore)
      ensures this.store == store
    {
      this.store := store;
    }

    method ListInboxMessagesAfterID(reader: Reader, afterId: int, limit: int) returns (items: seq<InboxItem>)
      ensures IsInboxPage(store.Tables(), reader, Page(VisibleIds(store.Tables(), reader), afterId, limit), items)
    {
      var ids := Page(VisibleIds(store.Tables(), reader), afterId, limit);
      PageMembers(VisibleIds(store.Tables(), reader), afterId, limit);
      items := [];
      var i := 0;
      while i < |ids|
        invariant 0 <= i <= |ids|
        invariant items == Items(store.Tables(), reader.subject, ids[..i])
      {
        assert ids[..i + 1] == ids[..i] + [ids[i]];
        var isRead := IsRead(Get(store.rows, ReadState(ids[i], reader.subject)));
        items := items + [InboxItem(ids[i], store.inbox[ids[i]], isRead)];
        i := i + 1;
      }
      assert ids[..i] == ids;
    }

    method PollInboxMessages(reader: Reader, afterId: int, size: int)
        returns (ok: bool, lastId: int, items: seq<InboxItem>, ghost start: int, ghost at: Db)
      modifies store
      ensures start == if afterId == -1 then Latest(InboxIds(old(store.Tables()), reader)) else afterId
      ensures Later(old(store.Tables()), at)
      ensures !ok ==> items == []
      ensures
        var page := Page(VisibleIds(at, reader), start, ClampSize(size));
        IsInboxPage(at, reader, page, items) && lastId == Cursor(page, start)
    {
      var limit := ClampSize(size);
      var after := afterId;
      if afterId == -1 {
        after := Latest(InboxIds(store.Tables(), reader));
      }
      start := after;
      lastId := after;

      store.OthersCommit();
      at := store.Tables();
      items := ListInboxMessagesAfterID(reader, after, limit);
      if |items| > 0 {
        return true, items[|items| - 1].id, items, start, at;
      }

      var ended: bool := *;
      if ended {
        return false, lastId, items, start, at;
      }
      store.OthersCommit();
      LaterTransitive(old(store.Tables()), at, store.Tables());
      at := store.Tables();
      items := ListInboxMessagesAfterID(reader, after, limit);
      if |items| > 0 {
        lastId := items[|items| - 1].id;
      }
      ok := true;
    }

    // The request before 0 starts at the newest message. An empty answer has
    // no ids to report.
    method ListInboxMessages(reader: Reader, beforeId: int, size: int)
        returns (items: seq<InboxItem>, latestId: int, earliestId: int)
      ensures var page := BackPage(VisibleIds(store.Tables(), reader), beforeId, ClampSize(size));
        && IsInboxPage(store.Tables(), reader, page, items)
        && latestId == (if page == [] then 0 else page[0])
        && earliestId == Cursor(page, 0)
    {
      var visible := VisibleIds(store.Tables(), reader);
      var ids := BackPage(visible, beforeId, ClampSize(size));
      BackPageMembers(visible, beforeId, ClampSize(size));
      items := Items(store.Tables(), reader.subject, ids);
      latestId, earliestId := 0, 0;
      if |items| > 0 {
        latestId := items[0].id;
        earliestId := items[|items| - 1].id;
      }
    }

    method PollMessages(recipient: string, afterId: int)
        returns (ok: bool, lastId: int, items: seq<(int, Message)>, ghost start: int, ghost at: Db)
      modifies store
      ensures start == if afterId == -1 then Latest(MessageGuarantees.MessageIds(old(store.Tables()), recipient)) else afterId
      ensures Later(old(store.Tables()), at)
      ensures !ok ==> items == []
      ensures
        var page := Page(MessageGuarantees.MessageIds(at, recipient), start, MESSAGE_LIMIT);
        IsMessagePage(at, recipient, page, items) && lastId == Cursor(page, start)
    {
      var after := afterId;
      if afterId == -1 {
        after := Latest(MessageGuarantees.MessageIds(store.Tables(), recipient));
      }
      start := after;
      lastId := after;

      store.OthersCommit();
      at := store.Tables();
      items := ListMessagesAfterID(recipient, after, MESSAGE_LIMIT);
      if |items| > 0 {
        return true, items[|items| - 1].0, items, start, at;
      }

      var ended: bool := *;
      if ended {
        return false, lastId, items, start, at;
      }
      store.OthersCommit();
      LaterTransitive(old(store.Tables()), at, store.Tables());
      at := store.Tables();
      items := ListMessagesAfterID(recipient, after, MESSAGE_LIMIT);
      if |items| > 0 {
        lastId := items[|items| - 1].0;
      }
      ok := true;
    }

    method ListMessagesAfterID(recipient: string, afterId: int, limit: int) returns (items: seq<(int, Message)>)
      ensures IsMessagePage(store.Tables(), recipient, Page(MessageGuarantees.MessageIds(store.Tables(), recipient), afterId, limit), items)
    {
      var ids := Page(MessageGuarantees.MessageIds(store.Tables(), recipient), afterId, limit);
      PageMembers(MessageGuarantees.MessageIds(store.Tables(), recipient), afterId, limit);
      items := [];
      var i := 0;
      while i < |ids|
        invariant 0 <= i <= |ids| && |items| == i
        invariant forall j :: 0 <= j < i ==> items[j] == (ids[j], AsListed(store.messages[(recipient, ids[j])]))
      {
        items := items + [(ids[i], AsListed(store.messages[(recipient, ids[i])]))];
        i := i + 1;
      }
    }
  }

  // Listing a message does not copy its type.
  function AsListed(message: Message): Message {
    message.(kind := "")
  }

  ghost predicate IsMessagePage(db: Db, recipient: string, ids: seq<int>, items: seq<(int, Message)>) {
    && |items| == |ids|
    && forall i :: 0 <= i < |ids| ==> (recipient, ids[i]) in db.messages && items[i] == (ids[i], AsListed(db.messages[(recipient, ids[i])]))
  }

  lemma BackPageMembers(s: set<int>, before: int, limit: int)
    ensures forall i :: 0 <= i < |BackPage(s, before, limit)| ==> BackPage(s, before, limit)[i] in s
  {
    AscendSorted(Below(s, before));
    var all := Ascend(Below(s, before));
    var back, page := Reverse(all), BackPage(s, before, limit);
    forall i | 0 <= i < |page| ensures page[i] in s {
      assert page[i] == back[i] && back[i] == all[|all| - 1 - i];
      assert all[|all| - 1 - i] in Elements(all);
    }
  }
}
