/** One transaction run from start to commit with nobody else in between: the
    meaning of a store method as a change of the tables. */
module Alone {
  import opened Basics
  import opened StoreModel
  import opened EventFold
  import opened StoreInvariant
  import opened StoreSteps
  import opened StoreProgress

  // The transaction at its commit, or None if a statement makes it roll back.
  ghost function RunAlone(db: Db, tx: Tx): Option<Tx>
    decreases Remaining(tx)
  {
    if Ready(tx) then Some(tx)
    else if Exec(db, tx).Refuse? then None
    else
      ExecShortens(db, tx);
      RunAlone(db, Exec(db, tx).tx)
  }

  ghost function CommitAlone(db: Db, at: Point): Option<Db> {
    var end := RunAlone(db, Opened(at));
    if end.Some? then Some(Committed(db, end.value)) else None
  }

  lemma MergePut(rows: map<RowId, Row>, writes: map<RowId, Option<Row>>, r: RowId, row: Row)
    ensures Merge(rows, writes[r := Some(row)]) == Merge(rows, writes)[r := row]
  {
  }

  lemma MergeDrop(rows: map<RowId, Row>, writes: map<RowId, Option<Row>>, r: RowId)
    ensures Merge(rows, writes[r := None]) == Merge(rows, writes) - {r}
  {
  }

  lemma MergeNothing(rows: map<RowId, Row>)
    ensures Merge(rows, map[]) == rows
  {
  }

  // The log loop, from entry i on: it ends with all entries in place.
  lemma {:induction false} AppendAlone(db: Db, tx: Tx)
    requires tx.at.Appending? && tx.at.i <= |tx.at.events|
    requires tx.newLog == Block(tx.at.first, tx.at.events[..tx.at.i])
    requires forall id :: id in db.eventlog ==> id < tx.at.first
    ensures RunAlone(db, tx)
         == Some(tx.(at := tx.at.(i := |tx.at.events|), newLog := Block(tx.at.first, tx.at.events)))
    decreases |tx.at.events| - tx.at.i
  {
    var Appending(events, first, i) := tx.at;
    if i == |events| {
      assert events[..i] == events;
    } else {
      var next := Exec(db, tx).tx;
      BlockGrows(first, events, i);
      AppendAlone(db, next);
    }
  }

  // Everything the eventlog holds was numbered by its counter.
  predicate LogBelowCounter(db: Db) {
    Sequence(EventLogCounter) in db.rows && forall id :: id in db.eventlog ==> id <= Count(db, EventLogCounter)
  }

  // logAndNotifyAll: one block after the counter, or nothing for no events.
  lemma LogAlone(db: Db, tx: Tx)
    requires LogBelowCounter(db)
    requires tx.at.Writing? && tx.at.ops == [] && tx.newLog == map[] && Sequence(EventLogCounter) !in tx.writes
    ensures RunAlone(db, tx).Some?
    ensures var c := Count(db, EventLogCounter);
      var events := tx.at.events;
      var end := RunAlone(db, tx).value;
      if events == [] then end == tx
      else
        && end.newLog == Block(c + 1, events)
        && end.writes == tx.writes[Sequence(EventLogCounter) := Some(CountRow(c + |events|))]
        && end.newMessages == tx.newMessages && end.newInbox == tx.newInbox
  {
    if tx.at.events != [] {
      var next := Exec(db, tx).tx;
      assert next.newLog == Block(next.at.first, next.at.events[..0]);
      AppendAlone(db, next);
    }
  }

  // ----- Row statements in a row -----

  // The row statements of a settings writer, all of them.
  ghost function WritesAlone(db: Db, tx: Tx): Tx
    requires tx.at.Writing?
    ensures WritesAlone(db, tx).at.Writing? && WritesAlone(db, tx).at.ops == []
    ensures WritesAlone(db, tx).newLog == tx.newLog
    decreases |tx.at.ops|
  {
    if tx.at.ops == [] then tx else WritesAlone(db, Exec(db, tx).tx)
  }

  lemma {:induction false} RunsWritesFirst(db: Db, tx: Tx)
    requires tx.at.Writing?
    ensures RunAlone(db, tx) == RunAlone(db, WritesAlone(db, tx))
    decreases |tx.at.ops|
  {
    if tx.at.ops != [] {
      RunsWritesFirst(db, Exec(db, tx).tx);
    }
  }

  // ----- SetProperties -----

  datatype PropertyUpdate = PropertyUpdate(application: string, key: string, text: string)

  datatype PropertyDelete = PropertyDelete(application: string, key: string)

  function PutOps(owner: string, updates: seq<PropertyUpdate>): seq<Write> {
    seq(|updates|, i requires 0 <= i < |updates| =>
      PutProperty(Prop(owner, updates[i].application, updates[i].key), updates[i].text))
  }

  function RemoveOps(owner: string, deletes: seq<PropertyDelete>): seq<Write> {
    seq(|deletes|, i requires 0 <= i < |deletes| => RemoveProperty(Prop(owner, deletes[i].application, deletes[i].key)))
  }

  function SetPoint(owner: string, updates: seq<PropertyUpdate>): Point {
    Writing([EnsureUser(owner)] + PutOps(owner, updates), [])
  }

  function UnsetPoint(owner: string, deletes: seq<PropertyDelete>): Point {
    Writing(RemoveOps(owner, deletes), [])
  }

  predicate DistinctKeys(updates: seq<PropertyUpdate>) {
    forall i, j :: 0 <= i < j < |updates| ==>
      updates[i].application != updates[j].application || updates[i].key != updates[j].key
  }

  // The property map an update list describes.
  function Merged(rows: map<RowId, Row>, owner: string, updates: seq<PropertyUpdate>): map<RowId, Row> {
    if updates == [] then rows
    else
      var last := updates[|updates| - 1];
      Merged(rows, owner, updates[..|updates| - 1])[Prop(owner, last.application, last.key) := PropertyRow(last.text)]
  }

  function PutEvents(owner: string, updates: seq<PropertyUpdate>): seq<Event> {
    seq(|updates|, i requires 0 <= i < |updates| =>
      Event(owner, Update, Prop(owner, updates[i].application, updates[i].key), None, owner))
  }

  lemma PutStep(db: Db, tx: Tx, owner: string, done: seq<PropertyUpdate>, todo: seq<PropertyUpdate>, base: map<RowId, Row>)
    requires todo != [] && tx.at == Writing(PutOps(owner, todo), PutEvents(owner, done))
    requires Merge(db.rows, tx.writes) == Merged(base, owner, done)
    ensures var next := Exec(db, tx);
      var r := Prop(owner, todo[0].application, todo[0].key);
      && next.Continue?
      && next.tx == tx.(at := Writing(PutOps(owner, todo[1..]), PutEvents(owner, done + [todo[0]])),
                        writes := tx.writes[r := Some(PropertyRow(todo[0].text))])
      && Merge(db.rows, next.tx.writes) == Merged(base, owner, done + [todo[0]])
  {
    var r := Prop(owner, todo[0].application, todo[0].key);
    assert PutOps(owner, todo)[1..] == PutOps(owner, todo[1..]);
    assert PutEvents(owner, done + [todo[0]]) == PutEvents(owner, done) + [Event(owner, Update, r, None, owner)];
    MergePut(db.rows, tx.writes, r, PropertyRow(todo[0].text));
    assert (done + [todo[0]])[..|done|] == done;
  }

  // Running put statements leaves the updates merged into the rows, one event
  // for each, in the order they ran.
  lemma {:induction false} PutsAlone(db: Db, tx: Tx, owner: string, done: seq<PropertyUpdate>, todo: seq<PropertyUpdate>, base: map<RowId, Row>)
    requires tx.at == Writing(PutOps(owner, todo), PutEvents(owner, done))
    requires Merge(db.rows, tx.writes) == Merged(base, owner, done)
    ensures var end := WritesAlone(db, tx);
      && end.at.events == PutEvents(owner, done + todo)
      && Merge(db.rows, end.writes) == Merged(base, owner, done + todo)
      && (forall r :: r in end.writes ==> r in tx.writes || r.Prop?)
    decreases |todo|
  {
    if todo == [] {
      assert done + todo == done;
      assert PutOps(owner, todo) == [];
    } else {
      PutStep(db, tx, owner, done, todo, base);
      PutsAlone(db, Exec(db, tx).tx, owner, done + [todo[0]], todo[1..], base);
      assert (done + [todo[0]]) + todo[1..] == done + todo;
    }
  }

  // ----- What each method does to the tables -----

  function WithUser(rows: map<RowId, Row>, sub: string): map<RowId, Row> {
    if User(sub) in rows then rows else rows[User(sub) := UserRow]
  }

  // The tables once logAndNotifyAll has appended these events.
  function WithLog(db: Db, events: seq<Event>): Db {
    if events == [] then db
    else
      var c := Count(db, EventLogCounter);
      db.(rows := db.rows[Sequence(EventLogCounter) := CountRow(c + |events|)],
          eventlog := db.eventlog + Block(c + 1, events))
  }

  function WithProperties(db: Db, owner: string, updates: seq<PropertyUpdate>): Db {
    WithLog(db.(rows := Merged(WithUser(db.rows, owner), owner, updates)), PutEvents(owner, updates))
  }

  // The rows left by a list of deletes and the events it logs: one for each
  // row that was there to delete.
  function Removed(rows: map<RowId, Row>, owner: string, deletes: seq<PropertyDelete>): (map<RowId, Row>, seq<Event>) {
    if deletes == [] then (rows, [])
    else
      var (left, events) := Removed(rows, owner, deletes[..|deletes| - 1]);
      var last := deletes[|deletes| - 1];
      var r := Prop(owner, last.application, last.key);
      if r in left then (left - {r}, events + [Event(owner, Delete, r, None, owner)]) else (left, events)
  }

  function WithoutProperties(db: Db, owner: string, deletes: seq<PropertyDelete>): Db {
    var (left, events) := Removed(db.rows, owner, deletes);
    WithLog(db.(rows := left), events)
  }

  function WithDocument(db: Db, doc: RowId, content: string, author: string): Db {
    var seen := Get(db.rows, doc);
    var version := if seen.Some? then Number(seen) + 1 else 1;
    WithLog(db.(rows := WithUser(db.rows, OwnerOf(doc))[doc := DocumentRow(version, content)]),
            [Event(OwnerOf(doc), Update, doc, Some(version), author)])
  }

  function WithoutDocument(db: Db, doc: RowId, author: string): Db {
    if doc in db.rows then WithLog(db.(rows := db.rows - {doc}), [Event(OwnerOf(doc), Delete, doc, None, author)]) else db
  }

  lemma CommittedTables(db: Db, tx: Tx)
    requires NoInserts(tx)
    ensures Committed(db, tx) == db.(rows := Merge(db.rows, tx.writes))
  {
    assert db.eventlog + map[] == db.eventlog;
    assert db.messages + map[] == db.messages;
    assert db.inbox + map[] == db.inbox;
  }

  lemma CommittedLog(db: Db, tx: Tx, end: Tx, events: seq<Event>)
    requires events != [] && Count(db.(rows := Merge(db.rows, tx.writes)), EventLogCounter) == Count(db, EventLogCounter)
    requires end.newMessages == map[] && end.newInbox == map[]
    requires end.newLog == Block(Count(db, EventLogCounter) + 1, events)
    requires end.writes == tx.writes[Sequence(EventLogCounter) := Some(CountRow(Count(db, EventLogCounter) + |events|))]
    ensures Committed(db, end) == WithLog(db.(rows := Merge(db.rows, tx.writes)), events)
  {
    var last := CountRow(Count(db, EventLogCounter) + |events|);
    MergePut(db.rows, tx.writes, Sequence(EventLogCounter), last);
    InsertsNothingElse(db, end);
    WithLogIs(db.(rows := Merge(db.rows, tx.writes)), events);
  }

  lemma WithLogIs(db: Db, events: seq<Event>)
    requires events != []
    ensures var c := Count(db, EventLogCounter);
      WithLog(db, events)
        == Db(db.rows[Sequence(EventLogCounter) := CountRow(c + |events|)], db.eventlog + Block(c + 1, events), db.messages, db.inbox)
  {
  }

  lemma InsertsNothingElse(db: Db, tx: Tx)
    requires tx.newMessages == map[] && tx.newInbox == map[]
    ensures Committed(db, tx) == Db(Merge(db.rows, tx.writes), db.eventlog + tx.newLog, db.messages, db.inbox)
  {
    assert db.messages + map[] == db.messages;
    assert db.inbox + map[] == db.inbox;
  }

  // The tail of every settings writer: from its last row statement to commit.
  lemma CommitLogged(db: Db, tx: Tx)
    requires LogBelowCounter(db)
    requires tx.at.Writing? && tx.at.ops == [] && NoInserts(tx) && Sequence(EventLogCounter) !in tx.writes
    ensures RunAlone(db, tx).Some?
    ensures Committed(db, RunAlone(db, tx).value) == WithLog(db.(rows := Merge(db.rows, tx.writes)), tx.at.events)
  {
    LogAlone(db, tx);
    MergeGet(db.rows, tx.writes, Sequence(EventLogCounter));
    if tx.at.events == [] {
      CommittedTables(db, tx);
    } else {
      CommittedLog(db, tx, RunAlone(db, tx).value, tx.at.events);
    }
  }

  lemma WritesKeepInserts(db: Db, tx: Tx)
    requires tx.at.Writing?
    ensures WritesAlone(db, tx).newMessages == tx.newMessages && WritesAlone(db, tx).newInbox == tx.newInbox
    decreases |tx.at.ops|
  {
    if tx.at.ops != [] {
      WritesKeepInserts(db, Exec(db, tx).tx);
    }
  }

  lemma EnsureUserAlone(db: Db, sub: string, ops: seq<Write>)
    ensures var tx := Opened(Writing([EnsureUser(sub)] + ops, []));
      Exec(db, tx) == Continue(tx.(at := Writing(ops, []), writes := if User(sub) in db.rows then map[] else map[User(sub) := Some(UserRow)]))
    ensures var tx := Opened(Writing([EnsureUser(sub)] + ops, []));
      Merge(db.rows, Exec(db, tx).tx.writes) == WithUser(db.rows, sub)
  {
    assert ([EnsureUser(sub)] + ops)[1..] == ops;
    var none: seq<Event> := [];
    assert none + none == none;
  }

  // SetProperties as a step program is SetProperties as a change of tables.
  lemma SetAlone(db: Db, owner: string, updates: seq<PropertyUpdate>)
    requires LogBelowCounter(db)
    ensures CommitAlone(db, SetPoint(owner, updates)) == Some(WithProperties(db, owner, updates))
  {
    var start := Opened(SetPoint(owner, updates));
    EnsureUserAlone(db, owner, PutOps(owner, updates));
    var tx := Exec(db, start).tx;
    assert PutEvents(owner, []) == [];
    PutsAlone(db, tx, owner, [], updates, WithUser(db.rows, owner));
    assert [] + updates == updates;
    RunsWritesFirst(db, tx);
    WritesKeepInserts(db, tx);
    CommitLogged(db, WritesAlone(db, tx));
  }

  lemma RemovedOne(rows: map<RowId, Row>, owner: string, done: seq<PropertyDelete>, d: PropertyDelete)
    ensures var (left, events) := Removed(rows, owner, done);
      var r := Prop(owner, d.application, d.key);
      Removed(rows, owner, done + [d])
        == (left - {r}, if r in left then events + [Event(owner, Delete, r, None, owner)] else events)
  {
    assert (done + [d])[..|done|] == done;
    var left := Removed(rows, owner, done).0;
    var r := Prop(owner, d.application, d.key);
    assert r !in left ==> left - {r} == left;
  }

  lemma RemoveStep(db: Db, tx: Tx, owner: string, done: seq<PropertyDelete>, todo: seq<PropertyDelete>)
    requires todo != [] && tx.at == Writing(RemoveOps(owner, todo), Removed(db.rows, owner, done).1)
    requires Merge(db.rows, tx.writes) == Removed(db.rows, owner, done).0
    ensures var next := Exec(db, tx);
      && next.Continue?
      && next.tx.at == Writing(RemoveOps(owner, todo[1..]), Removed(db.rows, owner, done + [todo[0]]).1)
      && Merge(db.rows, next.tx.writes) == Removed(db.rows, owner, done + [todo[0]]).0
      && next.tx == tx.(at := next.tx.at, writes := next.tx.writes)
      && (forall r :: r in next.tx.writes ==> r in tx.writes || r.Prop?)
  {
    var r := Prop(owner, todo[0].application, todo[0].key);
    assert RemoveOps(owner, todo)[1..] == RemoveOps(owner, todo[1..]);
    RemovedOne(db.rows, owner, done, todo[0]);
    MergeGet(db.rows, tx.writes, r);
    MergeDrop(db.rows, tx.writes, r);
  }

  lemma {:induction false} RemovesAlone(db: Db, tx: Tx, owner: string, done: seq<PropertyDelete>, todo: seq<PropertyDelete>)
    requires tx.at == Writing(RemoveOps(owner, todo), Removed(db.rows, owner, done).1)
    requires Merge(db.rows, tx.writes) == Removed(db.rows, owner, done).0
    ensures var end := WritesAlone(db, tx);
      && end.at.events == Removed(db.rows, owner, done + todo).1
      && Merge(db.rows, end.writes) == Removed(db.rows, owner, done + todo).0
      && (forall r :: r in end.writes ==> r in tx.writes || r.Prop?)
    decreases |todo|
  {
    if todo == [] {
      assert done + todo == done;
      assert RemoveOps(owner, todo) == [];
    } else {
      RemoveStep(db, tx, owner, done, todo);
      RemovesAlone(db, Exec(db, tx).tx, owner, done + [todo[0]], todo[1..]);
      assert (done + [todo[0]]) + todo[1..] == done + todo;
    }
  }

  lemma UnsetAlone(db: Db, owner: string, deletes: seq<PropertyDelete>)
    requires LogBelowCounter(db)
    ensures CommitAlone(db, UnsetPoint(owner, deletes)) == Some(WithoutProperties(db, owner, deletes))
  {
    var tx := Opened(UnsetPoint(owner, deletes));
    MergeNothing(db.rows);
    RemovesAlone(db, tx, owner, [], deletes);
    assert [] + deletes == deletes;
    RunsWritesFirst(db, tx);
    WritesKeepInserts(db, tx);
    CommitLogged(db, WritesAlone(db, tx));
  }

  function UpdatePoint(doc: RowId, content: string, author: string): Point {
    Writing([EnsureUser(OwnerOf(doc))] + [PutDocument(doc, content, author)], [])
  }

  lemma RunStep(db: Db, tx: Tx)
    requires !Ready(tx) && Exec(db, tx).Continue?
    ensures RunAlone(db, tx) == RunAlone(db, Exec(db, tx).tx)
  {
  }

  lemma PutDocumentStep(db: Db, tx: Tx, doc: RowId, content: string, author: string)
    requires tx.at == Writing([PutDocument(doc, content, author)], []) && doc !in tx.writes
    ensures var version := if doc in db.rows then Number(Get(db.rows, doc)) + 1 else 1;
      && Exec(db, tx) == Continue(tx.(at := Writing([], [Event(OwnerOf(doc), Update, doc, Some(version), author)]),
                                      writes := tx.writes[doc := Some(DocumentRow(version, content))]))
      && Merge(db.rows, Exec(db, tx).tx.writes) == Merge(db.rows, tx.writes)[doc := DocumentRow(version, content)]
  {
    var version := if doc in db.rows then Number(Get(db.rows, doc)) + 1 else 1;
    MergePut(db.rows, tx.writes, doc, DocumentRow(version, content));
    var event := Event(OwnerOf(doc), Update, doc, Some(version), author);
    assert tx.at.events + [event] == [event];
    assert tx.at.ops[1..] == [];
  }

  lemma ThenCommits(db: Db, tx: Tx, end: Tx, after: Db)
    requires !Ready(tx) && Exec(db, tx) == Continue(end)
    requires RunAlone(db, end).Some? && Committed(db, RunAlone(db, end).value) == after
    ensures RunAlone(db, tx).Some? && Committed(db, RunAlone(db, tx).value) == after
  {
  }

  lemma UpdateTail(db: Db, tx: Tx, doc: RowId, content: string, author: string)
    requires LogBelowCounter(db) && doc.Doc?
    requires tx.at == Writing([PutDocument(doc, content, author)], []) && NoInserts(tx) && UserWrites(tx.writes)
    requires Merge(db.rows, tx.writes) == WithUser(db.rows, OwnerOf(doc))
    ensures RunAlone(db, tx).Some?
    ensures Committed(db, RunAlone(db, tx).value) == WithDocument(db, doc, content, author)
  {
    PutDocumentStep(db, tx, doc, content, author);
    var seen := Get(db.rows, doc);
    var version := if seen.Some? then Number(seen) + 1 else 1;
    var rows := WithUser(db.rows, OwnerOf(doc))[doc := DocumentRow(version, content)];
    var end := Exec(db, tx).tx;
    LoggedEnd(db, end, rows);
    ThenCommits(db, tx, end, WithDocument(db, doc, content, author));
  }

  lemma LoggedEnd(db: Db, end: Tx, rows: map<RowId, Row>)
    requires LogBelowCounter(db)
    requires end.at.Writing? && end.at.ops == [] && NoInserts(end) && Sequence(EventLogCounter) !in end.writes
    requires Merge(db.rows, end.writes) == rows
    ensures RunAlone(db, end).Some?
    ensures Committed(db, RunAlone(db, end).value) == WithLog(db.(rows := rows), end.at.events)
  {
    CommitLogged(db, end);
  }

  lemma UpdateAlone(db: Db, doc: RowId, content: string, author: string)
    requires LogBelowCounter(db) && doc.Doc?
    ensures CommitAlone(db, UpdatePoint(doc, content, author)) == Some(WithDocument(db, doc, content, author))
  {
    var ops := [PutDocument(doc, content, author)];
    var start := Opened(Writing([EnsureUser(OwnerOf(doc))] + ops, []));
    EnsureUserAlone(db, OwnerOf(doc), ops);
    RunStep(db, start);
    UpdateTail(db, Exec(db, start).tx, doc, content, author);
  }

  lemma RemoveDocumentStep(db: Db, tx: Tx, doc: RowId, author: string)
    requires tx == Opened(Writing([RemoveDocument(doc, author)], []))
    ensures Exec(db, tx) ==
      if doc in db.rows
      then Continue(tx.(at := Writing([], [Event(OwnerOf(doc), Delete, doc, None, author)]), writes := map[doc := None]))
      else Continue(tx.(at := Writing([], [])))
    ensures Merge(db.rows, Exec(db, tx).tx.writes) == db.rows - {doc}
  {
    MergeNothing(db.rows);
    MergeDrop(db.rows, tx.writes, doc);
    var event := Event(OwnerOf(doc), Delete, doc, None, author);
    assert tx.at.events + [event] == [event];
    assert tx.at.events + [] == [];
    assert tx.at.ops[1..] == [];
  }

  lemma DeleteAlone(db: Db, doc: RowId, author: string)
    requires LogBelowCounter(db) && doc.Doc?
    ensures CommitAlone(db, Writing([RemoveDocument(doc, author)], [])) == Some(WithoutDocument(db, doc, author))
  {
    var tx := Opened(Writing([RemoveDocument(doc, author)], []));
    RemoveDocumentStep(db, tx, doc, author);
    RunStep(db, tx);
    CommitLogged(db, Exec(db, tx).tx);
    assert doc !in db.rows ==> db.rows - {doc} == db.rows;
  }

  // ----- Messages -----

  function WithMessage(db: Db, recipient: string, message: Message): Db {
    var next := LastMessage(db, recipient) + 1;
    db.(rows := WithUser(db.rows, recipient)[MessageLock(recipient) := CountRow(next)],
        messages := db.messages[(recipient, next) := message])
  }

  lemma MessageSteps(db: Db, recipient: string, message: Message) returns (a: Tx, b: Tx, c: Tx)
    requires (recipient, LastMessage(db, recipient) + 1) !in db.messages
    ensures Exec(db, Opened(MessageUser(recipient, message))) == Continue(a) && !Ready(a)
    ensures Exec(db, a) == Continue(b) && !Ready(b)
    ensures Exec(db, b) == Continue(c) && Ready(c)
    ensures Committed(db, c) == WithMessage(db, recipient, message)
  {
    var start := Opened(MessageUser(recipient, message));
    a := Exec(db, start).tx;
    b := Exec(db, a).tx;
    c := Exec(db, b).tx;
    var next := LastMessage(db, recipient) + 1;
    MergeNothing(db.rows);
    MergePut(db.rows, map[], User(recipient), UserRow);
    assert Merge(db.rows, a.writes) == WithUser(db.rows, recipient);
    MergePut(db.rows, a.writes, MessageLock(recipient), CountRow(next));
    MessageTables(db, recipient, message, c);
  }

  lemma MessageTables(db: Db, recipient: string, message: Message, tx: Tx)
    requires var next := LastMessage(db, recipient) + 1;
      && Merge(db.rows, tx.writes) == WithUser(db.rows, recipient)[MessageLock(recipient) := CountRow(next)]
      && tx.newMessages == map[(recipient, next) := message] && tx.newLog == map[] && tx.newInbox == map[]
    ensures Committed(db, tx) == WithMessage(db, recipient, message)
  {
    var next := LastMessage(db, recipient) + 1;
    assert db.eventlog + map[] == db.eventlog && db.inbox + map[] == db.inbox;
    assert db.messages + map[(recipient, next) := message] == db.messages[(recipient, next) := message];
  }

  lemma MessageAlone(db: Db, recipient: string, message: Message)
    requires (recipient, LastMessage(db, recipient) + 1) !in db.messages
    ensures CommitAlone(db, MessageUser(recipient, message)) == Some(WithMessage(db, recipient, message))
  {
    var a, b, c := MessageSteps(db, recipient, message);
    ThenCommits(db, b, c, WithMessage(db, recipient, message));
    ThenCommits(db, a, b, WithMessage(db, recipient, message));
    ThenCommits(db, Opened(MessageUser(recipient, message)), a, WithMessage(db, recipient, message));
  }

  // ----- Runs of the machine -----

  lemma {:induction false} AlonePath(s: State, t: nat, tx: Tx) returns (states: seq<State>, actions: seq<Action>)
    requires s.txs == map[t := tx] && RunAlone(s.db, tx).Some?
    ensures IsPath(states, actions) && states[0] == s
    ensures states[|actions|].txs == map[] && states[|actions|].db == Committed(s.db, RunAlone(s.db, tx).value)
    decreases Remaining(tx)
  {
    if Ready(tx) {
      var s' := Next(s, Commit(t));
      assert s'.txs == map[];
      states, actions := [s, s'], [Commit(t)];
    } else {
      var next := Exec(s.db, tx).tx;
      ExecShortens(s.db, tx);
      OnlyOneSteps(s, t, tx);
      var s' := s.(txs := map[t := next]);
      var rest, todo := AlonePath(s', t, next);
      PathCons(s, Execute(t), rest, todo);
      states, actions := [s] + rest, [Execute(t)] + todo;
    }
  }

  // With nobody else open, nothing blocks the next statement.
  lemma OnlyOneSteps(s: State, t: nat, tx: Tx)
    requires s.txs == map[t := tx] && !Ready(tx) && Exec(s.db, tx).Continue?
    ensures Enabled(s, Execute(t)) && Next(s, Execute(t)) == s.(txs := map[t := Exec(s.db, tx).tx])
  {
    assert forall u :: u in s.txs ==> u == t;
  }

  // The change CommitAlone describes is one the machine makes: begin, the
  // program's statements, commit.
  lemma AloneIsARun(s: State, t: nat, at: Point) returns (states: seq<State>, actions: seq<Action>)
    requires s.txs == map[] && Starts(at) && CommitAlone(s.db, at).Some?
    ensures IsPath(states, actions) && states[0] == s
    ensures states[|actions|].txs == map[] && states[|actions|].db == CommitAlone(s.db, at).value
  {
    var s' := Next(s, Begin(t, at));
    assert s'.txs == map[t := Opened(at)];
    var rest, todo := AlonePath(s', t, Opened(at));
    PathCons(s, Begin(t, at), rest, todo);
    states, actions := [s] + rest, [Begin(t, at)] + todo;
  }

  // Reachable tables meet what the lemmas above ask for.
  lemma ReachableTables(run: seq<State>, actions: seq<Action>, i: nat, recipient: string)
    requires IsRun(run, actions) && i < |run|
    ensures LogBelowCounter(run[i].db)
    ensures (recipient, LastMessage(run[i].db, recipient) + 1) !in run[i].db.messages
  {
    RunInv(run, actions, i);
    assert forall id :: id in run[i].db.eventlog ==> InBlock(1, |Flatten(run[i].history.blocks)|, id);
  }

  // ----- What that means for the property map -----

  predicate Untouched(owner: string, updates: seq<PropertyUpdate>, r: RowId) {
    forall u :: u in updates ==> r != Prop(owner, u.application, u.key)
  }

  // SetProperties is a map merge: with distinct keys, and whatever order the
  // sort puts them in, each key ends up with its value and no other row moves.
  lemma SetIsMapMerge(rows: map<RowId, Row>, owner: string, updates: seq<PropertyUpdate>, sorted: seq<PropertyUpdate>)
    requires multiset(sorted) == multiset(updates) && DistinctKeys(updates)
    ensures forall u :: u in updates ==> Get(Merged(rows, owner, sorted), Prop(owner, u.application, u.key)) == Some(PropertyRow(u.text))
    ensures forall r | Untouched(owner, updates, r) :: Get(Merged(rows, owner, sorted), r) == Get(rows, r)
  {
    assert forall u :: u in sorted <==> u in multiset(sorted);
    assert forall u :: u in updates <==> u in multiset(updates);
    forall u | u in updates
      ensures Get(Merged(rows, owner, sorted), Prop(owner, u.application, u.key)) == Some(PropertyRow(u.text))
    {
      assert u in sorted;
      var w := MergedGet(rows, owner, sorted, Prop(owner, u.application, u.key));
      if w.Some? {
        assert w.value in updates;
        var i :| 0 <= i < |updates| && updates[i] == u;
        var j :| 0 <= j < |updates| && updates[j] == w.value;
      }
    }
    forall r | Untouched(owner, updates, r) ensures Get(Merged(rows, owner, sorted), r) == Get(rows, r) {
      var w := MergedGet(rows, owner, sorted, r);
    }
  }

  // The update a merged row comes from, if any.
  lemma {:induction false} MergedGet(rows: map<RowId, Row>, owner: string, updates: seq<PropertyUpdate>, r: RowId)
      returns (w: Option<PropertyUpdate>)
    ensures w.None? ==> Get(Merged(rows, owner, updates), r) == Get(rows, r) && Untouched(owner, updates, r)
    ensures w.Some? ==> w.value in updates && r == Prop(owner, w.value.application, w.value.key)
    ensures w.Some? ==> Get(Merged(rows, owner, updates), r) == Some(PropertyRow(w.value.text))
    decreases |updates|
  {
    if updates == [] {
      w := None;
    } else {
      var last := updates[|updates| - 1];
      var before := updates[..|updates| - 1];
      assert forall u :: u in updates ==> u == last || u in before;
      if r == Prop(owner, last.application, last.key) {
        w := Some(last);
      } else {
        w := MergedGet(rows, owner, before, r);
      }
    }
  }

  // DeleteProperties is map removal, and its events are in bijection with the
  // rows that were there to remove: duplicates and missing keys log nothing.
  lemma {:induction false} UnsetIsMapRemoval(rows: map<RowId, Row>, owner: string, deletes: seq<PropertyDelete>)
    ensures var (left, events) := Removed(rows, owner, deletes);
      && (forall r :: r in left <==> r in rows && forall d :: d in deletes ==> r != Prop(owner, d.application, d.key))
      && (forall r :: r in left ==> left[r] == rows[r])
      && (forall r :: Mentions(events, r) <==> r in rows && r !in left)
      && (forall i, j :: 0 <= i < j < |events| ==> events[i].resource != events[j].resource)
      && (forall i :: 0 <= i < |events| ==> events[i] == Event(owner, Delete, events[i].resource, None, owner))
    decreases |deletes|
  {
    if deletes != [] {
      var before, last := deletes[..|deletes| - 1], deletes[|deletes| - 1];
      UnsetIsMapRemoval(rows, owner, before);
      var (left, events) := Removed(rows, owner, before);
      var (left', events') := Removed(rows, owner, deletes);
      var r0 := Prop(owner, last.application, last.key);
      assert forall d :: d in deletes <==> d == last || d in before;
      forall r ensures Mentions(events', r) <==> Mentions(events, r) || (r == r0 && r in left) {
        if Mentions(events, r) {
          var i :| 0 <= i < |events| && events[i].resource == r;
          assert events'[i].resource == r;
        }
        if r == r0 && r in left {
          assert events'[|events|].resource == r;
        }
      }
      forall i | 0 <= i < |events| && r0 in left ensures events[i].resource != r0 {
        assert Mentions(events, events[i].resource);
      }
    }
  }
}
