/** The store's methods as written: each runs its statements against a private
    copy of the tables and either commits the copy or drops it. */
module PGStoreMethods {
  import opened Basics
  import opened Sorting
  import opened StoreModel
  import opened EventFold
  import opened StoreInvariant
  import opened StoreSteps
  import opened StoreHistory
  import opened StoreProgress
  import opened Alone
  import opened InboxGuarantees

  // The statements of one transaction. If the connection is flaky, any of them
  // may fail for reasons the tables do not show; a failed statement has changed
  // nothing.
  class Queries {
    const flaky: bool
    var rows: map<RowId, Row>
    var eventlog: map<int, Event>
    var messages: map<(string, int), Message>
    var inbox: map<int, InboxMessage>

    function Tables(): Db
      reads this
    {
      Db(rows, eventlog, messages, inbox)
    }

    constructor (db: Db, flaky: bool)
      ensures Tables() == db && this.flaky == flaky
    {
      this.flaky := flaky;
      rows, eventlog, messages, inbox := db.rows, db.eventlog, db.messages, db.inbox;
    }

    // Whether the next statement gets an answer.
    method Answers() returns (ok: bool)
      ensures !flaky ==> ok
    {
      ok := *;
      ok := ok || !flaky;
    }

    method UpsertUser(sub: string) returns (ok: bool)
      modifies this
      ensures !flaky ==> ok
      ensures Tables() == if ok then old(Tables()).(rows := WithUser(old(rows), sub)) else old(Tables())
    {
      ok := Answers();
      if ok && User(sub) !in rows {
        rows := rows[User(sub) := UserRow];
      }
    }

    method UpsertDocument(doc: RowId, content: string) returns (ok: bool, version: int)
      modifies this
      ensures !flaky ==> ok
      ensures version == if doc in old(rows) then Number(Some(old(rows)[doc])) + 1 else 1
      ensures Tables() == if ok then old(Tables()).(rows := old(rows)[doc := DocumentRow(version, content)]) else old(Tables())
    {
      ok := Answers();
      version := if doc in rows then Number(Some(rows[doc])) + 1 else 1;
      if ok {
        rows := rows[doc := DocumentRow(version, content)];
      }
    }

    method UpsertProperty(prop: RowId, text: string) returns (ok: bool)
      modifies this
      ensures !flaky ==> ok
      ensures Tables() == if ok then old(Tables()).(rows := old(rows)[prop := PropertyRow(text)]) else old(Tables())
    {
      ok := Answers();
      if ok {
        rows := rows[prop := PropertyRow(text)];
      }
    }

    // DELETE ... RETURNING 1 for a document or a property.
    method DeleteRow(r: RowId) returns (ok: bool, found: bool)
      modifies this
      ensures !flaky ==> ok
      ensures found == (r in old(rows))
      ensures Tables() == if ok then old(Tables()).(rows := old(rows) - {r}) else old(Tables())
    {
      ok := Answers();
      found := r in rows;
      if ok {
        rows := rows - {r};
      }
    }

    method ReserveSequenceValues(name: CounterName, count: nat) returns (ok: bool, last: int)
      modifies this
      ensures ok ==> Sequence(name) in old(rows)
      ensures !flaky && Sequence(name) in old(rows) ==> ok
      ensures last == Count(old(Tables()), name) + count
      ensures Tables() == if ok then old(Tables()).(rows := old(rows)[Sequence(name) := CountRow(last)]) else old(Tables())
    {
      ok := Answers();
      last := Number(Get(rows, Sequence(name))) + count;
      ok := ok && Sequence(name) in rows;
      if ok {
        rows := rows[Sequence(name) := CountRow(last)];
      }
    }

    method InsertEventLog(id: int, event: Event) returns (ok: bool)
      modifies this
      ensures ok ==> id !in old(eventlog)
      ensures !flaky && id !in old(eventlog) ==> ok
      ensures Tables() == if ok then WithEntry(old(Tables()), id, event) else old(Tables())
    {
      ok := Answers();
      ok := ok && id !in eventlog;
      if ok {
        eventlog := eventlog[id := event];
      }
    }

    method NextMessageID(recipient: string) returns (ok: bool, next: int)
      modifies this
      ensures !flaky ==> ok
      ensures next == if MessageLock(recipient) in old(rows) then LastMessage(old(Tables()), recipient) + 1 else 1
      ensures Tables() == if ok then old(Tables()).(rows := old(rows)[MessageLock(recipient) := CountRow(next)]) else old(Tables())
    {
      ok := Answers();
      next := if MessageLock(recipient) in rows then Number(Get(rows, MessageLock(recipient))) + 1 else 1;
      if ok {
        rows := rows[MessageLock(recipient) := CountRow(next)];
      }
    }

    method InsertMessage(recipient: string, id: int, message: Message) returns (ok: bool)
      modifies this
      ensures ok ==> (recipient, id) !in old(messages)
      ensures !flaky && (recipient, id) !in old(messages) ==> ok
      ensures Tables() == if ok then old(Tables()).(messages := old(messages)[(recipient, id) := message]) else old(Tables())
    {
      ok := Answers();
      ok := ok && (recipient, id) !in messages;
      if ok {
        messages := messages[(recipient, id) := message];
      }
    }

    method InsertInboxMessage(id: int, push: InboxMessage) returns (ok: bool)
      modifies this
      ensures ok ==> id !in old(inbox)
      ensures !flaky && id !in old(inbox) ==> ok
      ensures Tables() == if ok then old(Tables()).(inbox := old(inbox)[id := push]) else old(Tables())
    {
      ok := Answers();
      ok := ok && id !in inbox;
      if ok {
        inbox := inbox[id := push];
      }
    }

    method UpsertState(id: int, subject: string, change: Change) returns (ok: bool, present: bool)
      modifies this
      ensures !flaky ==> ok
      ensures present == (id in old(inbox))
      ensures Tables() ==
        if ok && present then old(Tables()).(rows := old(rows)[ReadState(id, subject) := Changed(Get(old(rows), ReadState(id, subject)), change)])
        else old(Tables())
    {
      ok := Answers();
      present := id in inbox;
      if ok && present {
        rows := rows[ReadState(id, subject) := Changed(Get(rows, ReadState(id, subject)), change)];
      }
    }

    // existingInboxMessage
    method ExistingInboxMessage(push: InboxMessage) returns (found: Found)
      ensures UniquePairs(inbox) ==> found == Existing(inbox, push)
    {
      if id :| id in inbox && SamePair(inbox[id], push) {
        if UniquePairs(inbox) {
          ExistingIs(inbox, push, id);
        }
        found := if inbox[id].payload == push.payload then Same(id) else Different;
      } else {
        found := Absent;
      }
    }

    // logAndNotifyAll: one block of ids after the counter, in entry order.
    method LogAndNotifyAll(entries: seq<Event>) returns (ok: bool)
      modifies this
      ensures !flaky && LogBelowCounter(old(Tables())) ==> ok
      ensures ok ==> Tables() == WithLog(old(Tables()), entries)
    {
      if |entries| == 0 {
        return true;
      }
      var last;
      ok, last := ReserveSequenceValues(EventLogCounter, |entries|);
      if ok {
        LogFirst(old(Tables()), entries);
        ok := InsertAll(old(Tables()), entries, last - |entries| + 1);
        LogLast(old(Tables()), entries);
      }
    }

    // Its loop, on the tables as was with the counter taken.
    method InsertAll(ghost was: Db, entries: seq<Event>, first: int) returns (ok: bool)
      requires Tables() == LogSoFar(was, entries, 0) && first == Count(was, EventLogCounter) + 1
      modifies this
      ensures !flaky && LogBelowCounter(was) ==> ok
      ensures ok ==> Tables() == LogSoFar(was, entries, |entries|)
    {
      ok := true;
      var i := 0;
      while i < |entries|
        invariant 0 <= i <= |entries| && ok
        invariant Tables() == LogSoFar(was, entries, i)
      {
        ghost var sofar := Tables();
        ok := InsertEventLog(first + i, entries[i]);
        LogNext(was, entries, i, first + i, sofar);
        if !ok {
          return;
        }
        i := i + 1;
      }
    }
  }

  function WithEntry(db: Db, id: int, event: Event): Db {
    db.(eventlog := db.eventlog[id := event])
  }

  // The counter is taken and the first i entries are in.
  function LogSoFar(db: Db, entries: seq<Event>, i: nat): Db
    requires i <= |entries|
  {
    var c := Count(db, EventLogCounter);
    db.(rows := db.rows[Sequence(EventLogCounter) := CountRow(c + |entries|)],
        eventlog := db.eventlog + Block(c + 1, entries[..i]))
  }

  lemma LogFirst(db: Db, entries: seq<Event>)
    ensures LogSoFar(db, entries, 0)
         == db.(rows := db.rows[Sequence(EventLogCounter) := CountRow(Count(db, EventLogCounter) + |entries|)])
  {
    assert db.eventlog + Block(Count(db, EventLogCounter) + 1, entries[..0]) == db.eventlog;
  }

  // The next id is free, and taking it lengthens the block.
  lemma LogNext(db: Db, entries: seq<Event>, i: nat, id: int, sofar: Db)
    requires i < |entries| && id == Count(db, EventLogCounter) + 1 + i && sofar == LogSoFar(db, entries, i)
    ensures LogSoFar(db, entries, i + 1) == WithEntry(sofar, id, entries[i])
    ensures LogBelowCounter(db) ==> id !in sofar.eventlog
  {
    var first := Count(db, EventLogCounter) + 1;
    BlockGrows(first, entries, i);
    PutAfter(db.eventlog, Block(first, entries[..i]), first + i, entries[i]);
    LogFree(db, entries, i);
  }

  lemma PutAfter(log: map<int, Event>, block: map<int, Event>, id: int, event: Event)
    ensures (log + block)[id := event] == log + block[id := event]
  {
  }

  lemma LogFree(db: Db, entries: seq<Event>, i: nat)
    requires i < |entries|
    ensures LogBelowCounter(db) ==> Count(db, EventLogCounter) + 1 + i !in LogSoFar(db, entries, i).eventlog
  {
    assert !InBlock(Count(db, EventLogCounter) + 1, |entries[..i]|, Count(db, EventLogCounter) + 1 + i);
  }

  lemma LogLast(db: Db, entries: seq<Event>)
    requires entries != []
    ensures LogSoFar(db, entries, |entries|) == WithLog(db, entries)
  {
    assert entries[..|entries|] == entries;
  }

  // slices.SortFunc: some sorted rearrangement. Only its contract is relied
  // on.
  method SortFunc<T(!new)>(items: seq<T>, less: (T, T) -> bool) returns (sorted: seq<T>)
    requires StrictOrder(less)
    ensures multiset(sorted) == multiset(items)
    ensures Sorted(sorted, less)
  {
    SortSorts(items, less);
    sorted := Sort(items, less);
  }

  lemma MergedNext(base: map<RowId, Row>, owner: string, sorted: seq<PropertyUpdate>, i: nat)
    requires i < |sorted|
    ensures var u := sorted[i];
      var r := Prop(owner, u.application, u.key);
      && Merged(base, owner, sorted[..i + 1]) == Merged(base, owner, sorted[..i])[r := PropertyRow(u.text)]
      && PutEvents(owner, sorted[..i + 1]) == PutEvents(owner, sorted[..i]) + [Event(owner, Update, r, None, owner)]
  {
    assert sorted[..i + 1][..i] == sorted[..i];
  }

  lemma RemovedNext(rows: map<RowId, Row>, owner: string, sorted: seq<PropertyDelete>, i: nat)
    requires i < |sorted|
    ensures var (left, events) := Removed(rows, owner, sorted[..i]);
      var r := Prop(owner, sorted[i].application, sorted[i].key);
      Removed(rows, owner, sorted[..i + 1])
        == (left - {r}, if r in left then events + [Event(owner, Delete, r, None, owner)] else events)
  {
    assert sorted[..i + 1] == sorted[..i] + [sorted[i]];
    RemovedOne(rows, owner, sorted[..i], sorted[i]);
  }

  function UpdateLess(owner: string): (PropertyUpdate, PropertyUpdate) -> bool {
    (a: PropertyUpdate, b: PropertyUpdate) =>
      PropertyBefore(Prop(owner, a.application, a.key), Prop(owner, b.application, b.key))
  }

  function DeleteLess(owner: string): (PropertyDelete, PropertyDelete) -> bool {
    (a: PropertyDelete, b: PropertyDelete) =>
      PropertyBefore(Prop(owner, a.application, a.key), Prop(owner, b.application, b.key))
  }

  lemma LessIsStrict(owner: string)
    ensures StrictOrder(UpdateLess(owner)) && StrictOrder(DeleteLess(owner))
  {
    forall a: RowId ensures !Before(a, a) {
      BeforeIrreflexive(a);
    }
    forall a: RowId, b: RowId, c: RowId | Before(a, b) && Before(b, c) ensures Before(a, c) {
      BeforeTransitive(a, b, c);
    }
    var update := (u: PropertyUpdate) => Prop(owner, u.application, u.key);
    var delete := (d: PropertyDelete) => Prop(owner, d.application, d.key);
    assert forall a, b :: UpdateLess(owner)(a, b) <==> Before(update(a), update(b));
    assert forall a, b :: DeleteLess(owner)(a, b) <==> Before(delete(a), delete(b));
  }

  predicate InboxBelowCounter(db: Db) {
    UniquePairs(db.inbox) && Sequence(InboxCounter) in db.rows && forall id :: id in db.inbox ==> id <= Count(db, InboxCounter)
  }

  // The tables of every reachable state meet what the methods below ask for:
  // none of their calls fails on a store that answers.
  lemma ReachableTablesAreSound(run: seq<State>, actions: seq<Action>, i: nat, recipient: string)
    requires IsRun(run, actions) && i < |run|
    ensures InboxBelowCounter(run[i].db) && LogBelowCounter(run[i].db)
    ensures (recipient, LastMessage(run[i].db, recipient) + 1) !in run[i].db.messages
  {
    ReachableTables(run, actions, i, recipient);
    RunInv(run, actions, i);
  }

  // The tables with a new message under the next number.
  function WithPush(db: Db, push: InboxMessage): Db {
    var next := Count(db, InboxCounter) + 1;
    db.(rows := db.rows[Sequence(InboxCounter) := CountRow(next)], inbox := db.inbox[next := push])
  }

  lemma PushKeepsSound(db: Db, push: InboxMessage)
    requires InboxBelowCounter(db) && Existing(db.inbox, push) == Absent
    ensures InboxBelowCounter(WithPush(db, push))
    ensures var db' := WithPush(db, push);
      (db'.inbox, Count(db', InboxCounter), Answered(Count(db', InboxCounter)))
        == PutIfAbsent(db.inbox, Count(db, InboxCounter), push)
  {
    StoredUnderNext(db.inbox, Count(db, InboxCounter) + 1, push);
  }

  datatype PushResult = Pushed(id: int) | ErrInboxMessageConflict | PushFailed

  datatype StateResult = StateChanged | ErrInboxMessageNotFound | StateFailed

  class PGStore {
    const flaky: bool
    var rows: map<RowId, Row>
    var eventlog: map<int, Event>
    var messages: map<(string, int), Message>
    var inbox: map<int, InboxMessage>

    function Tables(): Db
      reads this
    {
      Db(rows, eventlog, messages, inbox)
    }

    constructor (flaky: bool)
      ensures Tables() == EMPTY && this.flaky == flaky
    {
      this.flaky := flaky;
      rows, eventlog, messages, inbox := EMPTY.rows, EMPTY.eventlog, EMPTY.messages, EMPTY.inbox;
    }

    method Commit(q: Queries)
      modifies this
      ensures Tables() == q.Tables()
    {
      rows, eventlog, messages, inbox := q.rows, q.eventlog, q.messages, q.inbox;
    }

    // Other transactions and the cleaner may commit here. Callers rely on the
    // contract alone.
    method OthersCommit()
      modifies this
      ensures Later(old(Tables()), Tables())
      ensures old(InboxSound()) ==> InboxSound()
    {
      LaterReflexive(Tables());
    }

    predicate InboxSound()
      reads this
    {
      InboxBelowCounter(Tables())
    }

    method UpdateDocument(doc: RowId, content: string, author: string) returns (ok: bool)
      requires doc.Doc?
      modifies this
      ensures !flaky && LogBelowCounter(old(Tables())) ==> ok
      ensures Tables() == if ok then WithDocument(old(Tables()), doc, content, author) else old(Tables())
    {
      var q := new Queries(Tables(), flaky);
      var version;
      ok := q.UpsertUser(doc.owner);
      if !ok {
        return;
      }
      ok, version := q.UpsertDocument(doc, content);
      if !ok {
        return;
      }
      ok := q.LogAndNotifyAll([Event(doc.owner, Update, doc, Some(version), author)]);
      if ok {
        Commit(q);
      }
    }

    method DeleteDocument(doc: RowId, author: string) returns (ok: bool)
      requires doc.Doc?
      modifies this
      ensures !flaky && LogBelowCounter(old(Tables())) ==> ok
      ensures Tables() == if ok then WithoutDocument(old(Tables()), doc, author) else old(Tables())
    {
      var q := new Queries(Tables(), flaky);
      var found;
      ok, found := q.DeleteRow(doc);
      if !ok {
        return;
      }
      if !found {
        return true;
      }
      ok := q.LogAndNotifyAll([Event(doc.owner, Delete, doc, None, author)]);
      if ok {
        Commit(q);
      }
    }

    // The second result is the caller's slice as the sort leaves it.
    method SetProperties(owner: string, updates: seq<PropertyUpdate>) returns (ok: bool, sorted: seq<PropertyUpdate>)
      modifies this
      ensures !flaky && LogBelowCounter(old(Tables())) ==> ok
      ensures ok ==> multiset(sorted) == multiset(updates) && Starts(SetPoint(owner, sorted))
      ensures Tables() == if ok then WithProperties(old(Tables()), owner, sorted) else old(Tables())
    {
      sorted := updates;
      var q := new Queries(Tables(), flaky);
      ok := q.UpsertUser(owner);
      if !ok {
        return;
      }
      LessIsStrict(owner);
      sorted := SortFunc(updates, UpdateLess(owner));
      ghost var base := q.rows;
      var events: seq<Event> := [];
      var i := 0;
      while i < |sorted|
        invariant 0 <= i <= |sorted| && ok && Tables() == old(Tables())
        invariant q.Tables() == old(Tables()).(rows := Merged(base, owner, sorted[..i]))
        invariant events == PutEvents(owner, sorted[..i])
        invariant Get(q.rows, Sequence(EventLogCounter)) == Get(old(rows), Sequence(EventLogCounter))
      {
        MergedNext(base, owner, sorted, i);
        var r := Prop(owner, sorted[i].application, sorted[i].key);
        ok := q.UpsertProperty(r, sorted[i].text);
        if !ok {
          return;
        }
        events := events + [Event(owner, Update, r, None, owner)];
        i := i + 1;
      }
      assert sorted[..i] == sorted;
      ok := q.LogAndNotifyAll(events);
      if ok {
        SetStarts(owner, sorted);
        Commit(q);
      }
    }

    method DeleteProperties(owner: string, deletes: seq<PropertyDelete>) returns (ok: bool, sorted: seq<PropertyDelete>)
      modifies this
      ensures !flaky && LogBelowCounter(old(Tables())) ==> ok
      ensures ok ==> multiset(sorted) == multiset(deletes) && Starts(UnsetPoint(owner, sorted))
      ensures Tables() == if ok then WithoutProperties(old(Tables()), owner, sorted) else old(Tables())
    {
      var q := new Queries(Tables(), flaky);
      LessIsStrict(owner);
      sorted := SortFunc(deletes, DeleteLess(owner));
      ok := true;
      var events: seq<Event> := [];
      var i := 0;
      while i < |sorted|
        invariant 0 <= i <= |sorted| && ok && Tables() == old(Tables())
        invariant q.Tables() == old(Tables()).(rows := Removed(old(rows), owner, sorted[..i]).0)
        invariant events == Removed(old(rows), owner, sorted[..i]).1
        invariant Get(q.rows, Sequence(EventLogCounter)) == Get(old(rows), Sequence(EventLogCounter))
      {
        RemovedNext(old(rows), owner, sorted, i);
        var r := Prop(owner, sorted[i].application, sorted[i].key);
        var found;
        ok, found := q.DeleteRow(r);
        if !ok {
          return;
        }
        if found {
          events := events + [Event(owner, Delete, r, None, owner)];
        }
        i := i + 1;
      }
      assert sorted[..i] == sorted;
      ok := q.LogAndNotifyAll(events);
      if ok {
        UnsetStarts(owner, sorted);
        Commit(q);
      }
    }

    method InsertMessage(recipient: string, message: Message) returns (ok: bool)
      modifies this
      ensures !flaky && (recipient, LastMessage(old(Tables()), recipient) + 1) !in old(messages) ==> ok
      ensures Tables() == if ok then WithMessage(old(Tables()), recipient, message) else old(Tables())
    {
      var q := new Queries(Tables(), flaky);
      var next;
      ok := q.UpsertUser(recipient);
      if !ok {
        return;
      }
      ok, next := q.NextMessageID(recipient);
      if !ok {
        return;
      }
      ok := q.InsertMessage(recipient, next, message);
      if ok {
        Commit(q);
      }
    }

    // The push with its two lookups. Others may commit between the first
    // lookup and the transaction; from the reservation on the counter lock
    // keeps other pushes out. at is the state of the tables it acts on.
    method InsertInboxMessage(push: InboxMessage) returns (r: PushResult, ghost at: Db)
      requires InboxSound()
      modifies this
      ensures Later(old(Tables()), at) && InboxSound()
      ensures r.Pushed? ==>
        (inbox, Count(Tables(), InboxCounter), Answered(r.id)) == PutIfAbsent(at.inbox, Count(at, InboxCounter), push)
      ensures r == ErrInboxMessageConflict ==>
        (inbox, Count(Tables(), InboxCounter), Conflicting) == PutIfAbsent(at.inbox, Count(at, InboxCounter), push)
      ensures r == PushFailed ==> flaky && Tables() == at
    {
      LaterReflexive(Tables());
      at := Tables();
      var q := new Queries(Tables(), flaky);
      var found := q.ExistingInboxMessage(push);
      if found.Same? {
        return Pushed(found.id), at;
      } else if found.Different? {
        return ErrInboxMessageConflict, at;
      }

      OthersCommit();
      at := Tables();
      r := PushInTransaction(push);
    }

    // Its transaction: number, second lookup under the counter lock, insert.
    method PushInTransaction(push: InboxMessage) returns (r: PushResult)
      requires InboxSound()
      modifies this
      ensures InboxSound()
      ensures r.Pushed? ==>
        (inbox, Count(Tables(), InboxCounter), Answered(r.id)) == PutIfAbsent(old(inbox), Count(old(Tables()), InboxCounter), push)
      ensures r == ErrInboxMessageConflict ==>
        (inbox, Count(Tables(), InboxCounter), Conflicting) == PutIfAbsent(old(inbox), Count(old(Tables()), InboxCounter), push)
      ensures r == PushFailed ==> flaky && Tables() == old(Tables())
    {
      var q := new Queries(Tables(), flaky);
      var ok, next := q.ReserveSequenceValues(InboxCounter, 1);
      if !ok {
        return PushFailed;
      }
      var found := q.ExistingInboxMessage(push);
      if found.Same? {
        return Pushed(found.id);
      } else if found.Different? {
        return ErrInboxMessageConflict;
      }
      ok := q.InsertInboxMessage(next, push);
      if !ok {
        return PushFailed;
      }
      PushKeepsSound(Tables(), push);
      Commit(q);
      r := Pushed(next);
    }

    // SetInboxMessageRead and HideInboxMessage. The cleaner may delete the
    // message between the lookup and the write.
    method ChangeInboxState(reader: Reader, id: int, change: Change) returns (r: StateResult, ghost at: Db)
      modifies this
      ensures Later(old(Tables()), at)
      ensures r == StateChanged ==>
        && id in old(inbox) && old(inbox)[id].recipient in reader.owners && id in at.inbox
        && Tables() == at.(rows := at.rows[ReadState(id, reader.subject) := Changed(Get(at.rows, ReadState(id, reader.subject)), change)])
      ensures r == ErrInboxMessageNotFound ==>
        Tables() == at && (id in at.inbox ==> id !in old(inbox) || old(inbox)[id].recipient !in reader.owners)
      ensures r == StateFailed ==> flaky && Tables() == at
    {
      LaterReflexive(Tables());
      at := Tables();
      if id !in inbox || inbox[id].recipient !in reader.owners {
        return ErrInboxMessageNotFound, at;
      }
      OthersCommit();
      at := Tables();
      var q := new Queries(Tables(), flaky);
      var ok, there := q.UpsertState(id, reader.subject, change);
      if !there {
        return ErrInboxMessageNotFound, at;
      }
      if !ok {
        return StateFailed, at;
      }
      Commit(q);
      r := StateChanged;
    }
  }

  // The sorted lists are the programs the step machine runs.
  lemma SetStarts(owner: string, sorted: seq<PropertyUpdate>)
    requires Sorted(sorted, UpdateLess(owner))
    ensures Starts(SetPoint(owner, sorted))
  {
    var ops := [EnsureUser(owner)] + PutOps(owner, sorted);
    assert ops[1..] == PutOps(owner, sorted);
    var rows := Targets(ops[1..]);
    forall i | 0 <= i < |rows| ensures rows[i] == Prop(owner, sorted[i].application, sorted[i].key) { }
    assert SetProgram(ops);
  }

  lemma UnsetStarts(owner: string, sorted: seq<PropertyDelete>)
    requires Sorted(sorted, DeleteLess(owner))
    ensures Starts(UnsetPoint(owner, sorted))
  {
    var ops := RemoveOps(owner, sorted);
    var rows := Targets(ops);
    forall i | 0 <= i < |rows| ensures rows[i] == Prop(owner, sorted[i].application, sorted[i].key) { }
    assert UnsetProgram(ops, owner);
  }
}
