/** What the changes named in the store's contracts do, row by row and entry by
    entry. */
module TableChanges {
  import opened Basics
  import opened StoreModel
  import opened EventFold
  import opened Alone

  // A log longer by exactly these entries, numbered on from c.
  predicate Longer(log: map<int, Event>, log': map<int, Event>, c: int, events: seq<Event>) {
    && (forall k :: 0 <= k < |events| ==> c + 1 + k in log' && log'[c + 1 + k] == events[k])
    && (forall id :: id in log' ==> id in log || c < id <= c + |events|)
    && (forall id :: id in log ==> id in log' && log'[id] == log[id])
  }

  // These entries have been logged, and nothing but settings rows and the
  // counter has changed besides.
  predicate Logs(db: Db, db': Db, events: seq<Event>) {
    var c := Count(db, EventLogCounter);
    && Longer(db.eventlog, db'.eventlog, c, events)
    && Count(db', EventLogCounter) == c + |events|
    && db'.messages == db.messages && db'.inbox == db.inbox
  }

  // No row but these is touched, the log counter aside.
  ghost predicate OnlyTouches(db: Db, db': Db, touched: set<RowId>) {
    forall r :: r !in touched && r != Sequence(EventLogCounter) ==> Get(db'.rows, r) == Get(db.rows, r)
  }

  lemma BlockAdds(log: map<int, Event>, c: int, events: seq<Event>)
    requires forall id :: id in log ==> id <= c
    ensures Longer(log, log + Block(c + 1, events), c, events)
  {
    forall k | 0 <= k < |events| ensures c + 1 + k in Block(c + 1, events) && Block(c + 1, events)[c + 1 + k] == events[k] {
      assert InBlock(c + 1, |events|, c + 1 + k);
    }
  }

  lemma LoggedAs(db: Db, db': Db, events: seq<Event>)
    requires LogBelowCounter(db)
    requires var c := Count(db, EventLogCounter);
      && db'.eventlog == db.eventlog + Block(c + 1, events) && Count(db', EventLogCounter) == c + |events|
      && db'.messages == db.messages && db'.inbox == db.inbox
    ensures Logs(db, db', events)
  {
    BlockAdds(db.eventlog, Count(db, EventLogCounter), events);
  }

  lemma WithLogLogs(db: Db, rows: map<RowId, Row>, events: seq<Event>)
    requires LogBelowCounter(db) && Get(rows, Sequence(EventLogCounter)) == Get(db.rows, Sequence(EventLogCounter))
    ensures Logs(db, WithLog(db.(rows := rows), events), events)
  {
    var before := db.(rows := rows);
    assert Count(before, EventLogCounter) == Count(db, EventLogCounter);
    if events != [] {
      WithLogIs(before, events);
    } else {
      assert db.eventlog + Block(Count(db, EventLogCounter) + 1, events) == db.eventlog;
    }
    LoggedAs(db, WithLog(before, events), events);
  }

  lemma WithLogRows(db: Db, events: seq<Event>)
    ensures forall r :: r != Sequence(EventLogCounter) ==> Get(WithLog(db, events).rows, r) == Get(db.rows, r)
  {
  }

  /** UpdateDocument leaves the content at the next version, the owner's user
      row, and one entry that names owner, version and author. */
  lemma UpdateMeans(db: Db, doc: RowId, content: string, author: string)
    requires LogBelowCounter(db) && doc.Doc?
    ensures var db' := WithDocument(db, doc, content, author);
      var version := if doc in db.rows then Number(Some(db.rows[doc])) + 1 else 1;
      && Get(db'.rows, doc) == Some(DocumentRow(version, content))
      && User(doc.owner) in db'.rows
      && OnlyTouches(db, db', {doc, User(doc.owner)}) && (User(doc.owner) in db.rows ==> OnlyTouches(db, db', {doc}))
      && Logs(db, db', [Event(doc.owner, Update, doc, Some(version), author)])
  {
    var version := if doc in db.rows then Number(Some(db.rows[doc])) + 1 else 1;
    var rows := WithUser(db.rows, OwnerOf(doc))[doc := DocumentRow(version, content)];
    var events := [Event(doc.owner, Update, doc, Some(version), author)];
    WithLogLogs(db, rows, events);
    WithLogRows(db.(rows := rows), events);
  }

  /** DeleteDocument removes the document and logs one entry with its author, or
      does nothing when there is none. */
  lemma DeleteMeans(db: Db, doc: RowId, author: string)
    requires LogBelowCounter(db) && doc.Doc?
    ensures var db' := WithoutDocument(db, doc, author);
      if doc in db.rows then
        && doc !in db'.rows && OnlyTouches(db, db', {doc})
        && Logs(db, db', [Event(doc.owner, Delete, doc, None, author)])
      else db' == db
  {
    var events := [Event(doc.owner, Delete, doc, None, author)];
    WithLogLogs(db, db.rows - {doc}, events);
    WithLogRows(db.(rows := db.rows - {doc}), events);
  }

  lemma {:induction false} MergedTouches(rows: map<RowId, Row>, owner: string, updates: seq<PropertyUpdate>, r: RowId)
    requires !(r.Prop? && r.owner == owner)
    ensures Get(Merged(rows, owner, updates), r) == Get(rows, r)
    decreases |updates|
  {
    if updates != [] {
      MergedTouches(rows, owner, updates[..|updates| - 1], r);
    }
  }

  /** SetProperties logs one update for each row of its list, in that order, all
      by the owner, and touches the owner's user row and properties only. */
  lemma SetMeans(db: Db, owner: string, updates: seq<PropertyUpdate>)
    requires LogBelowCounter(db)
    ensures var db' := WithProperties(db, owner, updates);
      && User(owner) in db'.rows
      && (forall r: RowId :: !(r.Prop? && r.owner == owner) && r != User(owner) && r != Sequence(EventLogCounter) ==> Get(db'.rows, r) == Get(db.rows, r))
      && Logs(db, db', seq(|updates|, i requires 0 <= i < |updates| =>
           Event(owner, Update, Prop(owner, updates[i].application, updates[i].key), None, owner)))
  {
    var rows := Merged(WithUser(db.rows, owner), owner, updates);
    forall r: RowId | !(r.Prop? && r.owner == owner) ensures Get(rows, r) == Get(WithUser(db.rows, owner), r) {
      MergedTouches(WithUser(db.rows, owner), owner, updates, r);
    }
    assert Get(rows, User(owner)) == Get(WithUser(db.rows, owner), User(owner));
    WithLogLogs(db, rows, PutEvents(owner, updates));
    WithLogRows(db.(rows := rows), PutEvents(owner, updates));
    assert PutEvents(owner, updates) == seq(|updates|, i requires 0 <= i < |updates| =>
      Event(owner, Update, Prop(owner, updates[i].application, updates[i].key), None, owner));
  }

  predicate Listed(owner: string, deletes: seq<PropertyDelete>, r: RowId) {
    exists d :: d in deletes && r == Prop(owner, d.application, d.key)
  }

  /** DeleteProperties removes the listed rows and logs, for each that was there,
      one delete by the owner. */
  lemma UnsetMeans(db: Db, owner: string, deletes: seq<PropertyDelete>) returns (events: seq<Event>)
    requires LogBelowCounter(db)
    ensures var db' := WithoutProperties(db, owner, deletes);
      && Logs(db, db', events)
      && forall r | r != Sequence(EventLogCounter) :: Get(db'.rows, r) == if Listed(owner, deletes, r) then None else Get(db.rows, r)
    ensures forall k :: 0 <= k < |events| ==>
      events[k] == Event(owner, Delete, events[k].resource, None, owner) && Listed(owner, deletes, events[k].resource)
    ensures forall r :: Mentions(events, r) <==> r in db.rows && Listed(owner, deletes, r)
    ensures forall j, k :: 0 <= j < k < |events| ==> events[j].resource != events[k].resource
  {
    var left := Removed(db.rows, owner, deletes).0;
    events := Removed(db.rows, owner, deletes).1;
    UnsetIsMapRemoval(db.rows, owner, deletes);
    forall r ensures r in left <==> r in db.rows && !Listed(owner, deletes, r) {
      assert Listed(owner, deletes, r) <==> exists d :: d in deletes && r == Prop(owner, d.application, d.key);
    }
    assert !Listed(owner, deletes, Sequence(EventLogCounter));
    WithLogLogs(db, left, events);
    WithLogRows(db.(rows := left), events);
    forall k | 0 <= k < |events| ensures Listed(owner, deletes, events[k].resource) {
      assert Mentions(events, events[k].resource);
    }
  }

  /** A message push stores its message under the recipient's next number and
      makes sure of the recipient's user row. */
  lemma MessageMeans(db: Db, recipient: string, message: Message)
    ensures var db' := WithMessage(db, recipient, message);
      var next := (if MessageLock(recipient) in db.rows then Number(Some(db.rows[MessageLock(recipient)])) else 0) + 1;
      && db'.messages == db.messages[(recipient, next) := message]
      && Get(db'.rows, MessageLock(recipient)) == Some(CountRow(next)) && User(recipient) in db'.rows
      && (forall r :: r != MessageLock(recipient) && r != User(recipient) ==> Get(db'.rows, r) == Get(db.rows, r))
      && db'.eventlog == db.eventlog && db'.inbox == db.inbox
  {
  }
}
