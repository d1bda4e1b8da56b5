/** The store as a machine whose steps are single SQL statements.

    Any number of transactions are open at once under READ COMMITTED: a
    statement reads the latest commits plus what its own transaction has
    written, a written row stays locked until its transaction ends, and a
    rollback drops everything the transaction wrote, counters included. */
module StoreModel {
  import opened Basics

  // ----- Rows -----

  datatype CounterName = EventLogCounter | InboxCounter

  // Primary keys of the tables whose rows several transactions may write.
  datatype RowId =
    | User(sub: string)
    | Doc(owner: string, application: string, docType: string, key: string)
    | Prop(owner: string, application: string, key: string)
    | MessageLock(recipient: string)
    | Sequence(name: CounterName)
    | ReadState(message: int, subject: string)

  datatype Row =
    | UserRow
    | DocumentRow(version: int, content: string)
    | PropertyRow(text: string)
    | CountRow(count: int)
    | StateRow(isRead: bool, hidden: bool)

  datatype EventKind = Update | Delete

  // An eventlog row without its id, which is the key it is stored under.
  datatype Event = Event(owner: string, kind: EventKind, resource: RowId, version: Option<int>, updatedBy: string)

  datatype Message = Message(kind: string, createdBy: string, payload: string)

  datatype InboxMessage = InboxMessage(recipient: string, uuid: string, createdBy: string, payload: string)

  // The committed tables.
  datatype Db = Db(
    rows: map<RowId, Row>,
    eventlog: map<int, Event>,
    messages: map<(string, int), Message>,
    inbox: map<int, InboxMessage>)

  // The number a row carries: a document's version or a counter's value.
  function Number(row: Option<Row>): int {
    match row
    case Some(DocumentRow(version, _)) => version
    case Some(CountRow(count)) => count
    case _ => 0
  }

  function Count(db: Db, name: CounterName): int {
    Number(Get(db.rows, Sequence(name)))
  }

  predicate IsResource(r: RowId) {
    r.Doc? || r.Prop?
  }

  // ----- Transactions -----

  // The row statements of the settings writers.
  datatype Write =
    | EnsureUser(sub: string)
    | PutDocument(doc: RowId, content: string, author: string)
    | RemoveDocument(doc: RowId, author: string)
    | PutProperty(prop: RowId, text: string)
    | RemoveProperty(prop: RowId)

  datatype Reader = Reader(subject: string, owners: set<string>)

  datatype Change = MarkRead(isRead: bool) | Hide

  // Where a transaction stands, with the local variables it still needs.
  datatype Point =
    | Writing(ops: seq<Write>, events: seq<Event>)
    | Appending(events: seq<Event>, first: int, i: nat)
    | MessageUser(recipient: string, message: Message)
    | MessageNumber(recipient: string, message: Message)
    | MessageInsert(recipient: string, id: int, message: Message)
    | MessageDone(recipient: string, id: int, message: Message)
    | PushReserve(push: InboxMessage)
    | PushLookup(push: InboxMessage, id: int)
    | PushInsert(push: InboxMessage, id: int)
    | PushDone(push: InboxMessage, id: int)
    | StateLookup(reader: Reader, id: int, change: Change)
    | StateWrite(subject: string, id: int, change: Change)
    | StateDone(subject: string, id: int, change: Change)

  // An open transaction: its uncommitted row versions (None is a deletion)
  // and the rows it has inserted into the append-only tables.
  datatype Tx = Tx(
    at: Point,
    writes: map<RowId, Option<Row>>,
    newLog: map<int, Event>,
    newMessages: map<(string, int), Message>,
    newInbox: map<int, InboxMessage>)

  function Opened(at: Point): Tx {
    Tx(at, map[], map[], map[], map[])
  }

  // What a statement of tx sees under key r.
  function View(db: Db, tx: Tx, r: RowId): Option<Row> {
    if r in tx.writes then tx.writes[r] else Get(db.rows, r)
  }

  // ----- Programs -----

  function Target(op: Write): RowId {
    match op
    case EnsureUser(sub) => User(sub)
    case PutDocument(doc, _, _) => doc
    case RemoveDocument(doc, _) => doc
    case PutProperty(prop, _) => prop
    case RemoveProperty(prop) => prop
  }

  // The comparison SetProperties and DeleteProperties sort by.
  predicate PropertyBefore(a: RowId, b: RowId)
    requires a.Prop? && b.Prop?
  {
    TextLess(a.application, b.application) || (a.application == b.application && TextLess(a.key, b.key))
  }

  predicate SortedProperties(rows: seq<RowId>) {
    && (forall i :: 0 <= i < |rows| ==> rows[i].Prop?)
    && (forall i, j :: 0 <= i < j < |rows| ==> !PropertyBefore(rows[j], rows[i]))
  }

  function Targets(ops: seq<Write>): seq<RowId> {
    seq(|ops|, i requires 0 <= i < |ops| => Target(ops[i]))
  }

  predicate OneOwner(ops: seq<Write>, owner: string) {
    forall i :: 0 <= i < |ops| ==> Target(ops[i]).Prop? && Target(ops[i]).owner == owner
  }

  // The statement lists of UpdateDocument, DeleteDocument, SetProperties and
  // DeleteProperties. The property lists come sorted; equal keys may stand in
  // either order.
  predicate UpdateProgram(ops: seq<Write>) {
    |ops| == 2 && ops[0].EnsureUser? && ops[1].PutDocument? && ops[1].doc.Doc? && ops[1].doc.owner == ops[0].sub
  }

  predicate DeleteProgram(ops: seq<Write>) {
    |ops| == 1 && ops[0].RemoveDocument? && ops[0].doc.Doc?
  }

  predicate SetProgram(ops: seq<Write>) {
    && |ops| >= 1 && ops[0].EnsureUser?
    && OneOwner(ops[1..], ops[0].sub)
    && (forall i :: 1 <= i < |ops| ==> ops[i].PutProperty?)
    && SortedProperties(Targets(ops[1..]))
  }

  predicate UnsetProgram(ops: seq<Write>, owner: string) {
    && OneOwner(ops, owner)
    && (forall i :: 0 <= i < |ops| ==> ops[i].RemoveProperty?)
    && SortedProperties(Targets(ops))
  }

  ghost predicate Starts(at: Point) {
    match at
    case Writing(ops, events) =>
      events == [] && (UpdateProgram(ops) || DeleteProgram(ops) || SetProgram(ops) || exists owner :: UnsetProgram(ops, owner))
    case MessageUser(_, _) => true
    case PushReserve(_) => true
    case StateLookup(_, _, _) => true
    case _ => false
  }

  // ----- Statements -----

  datatype Found = Absent | Same(id: int) | Different

  predicate SamePair(m: InboxMessage, push: InboxMessage) {
    m.recipient == push.recipient && m.uuid == push.uuid
  }

  // GetInboxMessageByUUID as existingInboxMessage reads it.
  ghost function Existing(inbox: map<int, InboxMessage>, push: InboxMessage): Found {
    if exists id :: id in inbox && SamePair(inbox[id], push) then
      var id :| id in inbox && SamePair(inbox[id], push);
      if inbox[id].payload == push.payload then Same(id) else Different
    else Absent
  }

  datatype Refusal = AlreadyStored(id: int) | Conflict | NotFound | ConstraintViolation

  // A statement either moves its transaction on or makes it roll back.
  datatype Outcome = Continue(tx: Tx) | Refuse(refusal: Refusal)

  function Changed(row: Option<Row>, change: Change): Row {
    match change
    case MarkRead(isRead) => StateRow(isRead, IsHidden(row))
    case Hide => StateRow(IsRead(row), true)
  }

  predicate IsHidden(row: Option<Row>) {
    row.Some? && row.value.StateRow? && row.value.hidden
  }

  predicate IsRead(row: Option<Row>) {
    row.Some? && row.value.StateRow? && row.value.isRead
  }

  // One row statement: the version it leaves behind (if it writes at all) and
  // the event the caller collects for it.
  function ExecWrite(db: Db, tx: Tx, op: Write): (Option<Option<Row>>, seq<Event>) {
    var seen := View(db, tx, Target(op));
    match op
    case EnsureUser(_) =>
      (if seen.Some? then None else Some(Some(UserRow)), [])
    case PutDocument(doc, content, author) =>
      var version := if seen.Some? then Number(seen) + 1 else 1;
      (Some(Some(DocumentRow(version, content))), [Event(OwnerOf(doc), Update, doc, Some(version), author)])
    case RemoveDocument(doc, author) =>
      if seen.Some? then (Some(None), [Event(OwnerOf(doc), Delete, doc, None, author)]) else (None, [])
    case PutProperty(prop, text) =>
      (Some(Some(PropertyRow(text))), [Event(OwnerOf(prop), Update, prop, None, OwnerOf(prop))])
    case RemoveProperty(prop) =>
      if seen.Some? then (Some(None), [Event(OwnerOf(prop), Delete, prop, None, OwnerOf(prop))]) else (None, [])
  }

  function OwnerOf(r: RowId): string {
    if r.Doc? || r.Prop? then r.owner else ""
  }

  // The next statement of a transaction, run against the latest commits.
  ghost function Exec(db: Db, tx: Tx): Outcome
    requires !Ready(tx)
  {
    match tx.at
    case Writing(ops, events) =>
      if ops == [] then ExecReserve(db, tx, EventLogCounter, |events|, last => Appending(events, last - |events| + 1, 0))
      else
        var (write, logged) := ExecWrite(db, tx, ops[0]);
        var writes := if write.Some? then tx.writes[Target(ops[0]) := write.value] else tx.writes;
        Continue(tx.(at := Writing(ops[1..], events + logged), writes := writes))
    case Appending(events, first, i) =>
      var id := first + i;
      if id in db.eventlog || id in tx.newLog then Refuse(ConstraintViolation)
      else Continue(tx.(at := Appending(events, first, i + 1), newLog := tx.newLog[id := events[i]]))
    case MessageUser(recipient, message) =>
      var writes := if View(db, tx, User(recipient)).Some? then tx.writes else tx.writes[User(recipient) := Some(UserRow)];
      Continue(tx.(at := MessageNumber(recipient, message), writes := writes))
    case MessageNumber(recipient, message) =>
      var seen := View(db, tx, MessageLock(recipient));
      var next := if seen.Some? then Number(seen) + 1 else 1;
      Continue(tx.(at := MessageInsert(recipient, next, message), writes := tx.writes[MessageLock(recipient) := Some(CountRow(next))]))
    case MessageInsert(recipient, id, message) =>
      if (recipient, id) in db.messages || (recipient, id) in tx.newMessages then Refuse(ConstraintViolation)
      else Continue(tx.(at := MessageDone(recipient, id, message), newMessages := tx.newMessages[(recipient, id) := message]))
    case PushReserve(push) => ExecReserve(db, tx, InboxCounter, 1, last => PushLookup(push, last))
    case PushLookup(push, id) =>
      (match Existing(db.inbox, push)
       case Same(existing) => Refuse(AlreadyStored(existing))
       case Different => Refuse(Conflict)
       case Absent => Continue(tx.(at := PushInsert(push, id))))
    case PushInsert(push, id) =>
      if id in db.inbox || id in tx.newInbox || Existing(db.inbox, push) != Absent then Refuse(ConstraintViolation)
      else Continue(tx.(at := PushDone(push, id), newInbox := tx.newInbox[id := push]))
    case StateLookup(reader, id, change) =>
      if id in db.inbox && db.inbox[id].recipient in reader.owners
      then Continue(tx.(at := StateWrite(reader.subject, id, change)))
      else Refuse(NotFound)
    case StateWrite(subject, id, change) =>
      var r := ReadState(id, subject);
      if id in db.inbox
      then Continue(tx.(at := StateDone(subject, id, change), writes := tx.writes[r := Some(Changed(View(db, tx, r), change))]))
      else Refuse(NotFound)
  }

  // UPDATE sequence_counter SET value = value + count ... RETURNING value
  function ExecReserve(db: Db, tx: Tx, name: CounterName, count: nat, next: int -> Point): Outcome {
    var seen := View(db, tx, Sequence(name));
    if seen.None? then Refuse(ConstraintViolation)
    else
      var last := Number(seen) + count;
      Continue(tx.(at := next(last), writes := tx.writes[Sequence(name) := Some(CountRow(last))]))
  }

  // Nothing left to do but commit.
  predicate Ready(tx: Tx) {
    match tx.at
    case Writing(ops, events) => ops == [] && events == []
    case Appending(events, _, i) => i >= |events|
    case MessageDone(_, _, _) => true
    case PushDone(_, _) => true
    case StateDone(_, _, _) => true
    case _ => false
  }

  // The row lock the next statement has to take, if any. An ON CONFLICT DO
  // NOTHING that finds its row, a DELETE that finds none, and plain reads take
  // no lock.
  function Needs(db: Db, tx: Tx): Option<RowId>
    requires !Ready(tx)
  {
    match tx.at
    case Writing(ops, events) =>
      if ops == [] then Some(Sequence(EventLogCounter))
      else if ExecWrite(db, tx, ops[0]).0.Some? then Some(Target(ops[0])) else None
    case MessageUser(recipient, _) => if View(db, tx, User(recipient)).Some? then None else Some(User(recipient))
    case MessageNumber(recipient, _) => Some(MessageLock(recipient))
    case PushReserve(_) => Some(Sequence(InboxCounter))
    case StateWrite(subject, id, _) => Some(ReadState(id, subject))
    case _ => None
  }

  // The next statement inserts under a unique key that u has inserted under
  // too and not committed yet.
  predicate InsertClash(tx: Tx, u: Tx) {
    match tx.at
    case Appending(_, first, i) => first + i in u.newLog
    case MessageInsert(recipient, id, _) => (recipient, id) in u.newMessages
    case PushInsert(push, id) => id in u.newInbox || exists k :: k in u.newInbox && SamePair(u.newInbox[k], push)
    case _ => false
  }

  // ----- The machine -----

  // What has been committed so far, in commit order: the event blocks of the
  // settings writers, the system messages and the inbox messages.
  datatype History = History(blocks: seq<seq<Event>>, sent: seq<(string, int)>, stored: seq<int>)

  datatype State = State(db: Db, txs: map<nat, Tx>, history: History)

  predicate WaitsFor(s: State, t: nat, u: nat) {
    && t in s.txs && u in s.txs && t != u && !Ready(s.txs[t])
    && (var need := Needs(s.db, s.txs[t]);
        (need.Some? && need.value in s.txs[u].writes) || InsertClash(s.txs[t], s.txs[u]))
  }

  predicate Blocked(s: State, t: nat) {
    exists u :: u in s.txs && WaitsFor(s, t, u)
  }

  datatype Action =
    | Begin(t: nat, at: Point)
    | Execute(t: nat)
    | Commit(t: nat)
    | Rollback(t: nat)
    | SweepMessages(keys: set<(string, int)>)
    | SweepInbox(ids: set<int>)

  // A reader's state row refers to its message, so the message cannot be
  // deleted while the row's transaction is open.
  ghost predicate Referenced(s: State, id: int) {
    exists t, subject :: t in s.txs && ReadState(id, subject) in s.txs[t].writes
  }

  ghost predicate Enabled(s: State, a: Action) {
    match a
    case Begin(t, at) => t !in s.txs && Starts(at)
    case Execute(t) => t in s.txs && !Ready(s.txs[t]) && !Blocked(s, t) && Exec(s.db, s.txs[t]).Continue?
    case Commit(t) => t in s.txs && Ready(s.txs[t])
    case Rollback(t) => t in s.txs
    case SweepMessages(_) => true
    case SweepInbox(ids) => forall id :: id in ids ==> !Referenced(s, id)
  }

  function Merge(rows: map<RowId, Row>, writes: map<RowId, Option<Row>>): map<RowId, Row> {
    map r | r in rows.Keys + writes.Keys && (r in writes ==> writes[r].Some?)
      :: if r in writes then writes[r].value else rows[r]
  }

  function Committed(db: Db, tx: Tx): Db {
    Db(Merge(db.rows, tx.writes), db.eventlog + tx.newLog, db.messages + tx.newMessages, db.inbox + tx.newInbox)
  }

  function Recorded(h: History, at: Point): History {
    match at
    case Appending(events, _, _) => h.(blocks := h.blocks + [events])
    case MessageDone(recipient, id, _) => h.(sent := h.sent + [(recipient, id)])
    case PushDone(_, id) => h.(stored := h.stored + [id])
    case _ => h
  }

  // DELETE FROM inbox_message, whose state rows go with it.
  function Swept(db: Db, ids: set<int>): Db {
    db.(inbox := db.inbox - ids,
        rows := map r | r in db.rows && !(r.ReadState? && r.message in ids) :: db.rows[r])
  }

  ghost function Next(s: State, a: Action): State
    requires Enabled(s, a)
  {
    match a
    case Begin(t, at) => s.(txs := s.txs[t := Opened(at)])
    case Execute(t) => s.(txs := s.txs[t := Exec(s.db, s.txs[t]).tx])
    case Commit(t) => State(Committed(s.db, s.txs[t]), s.txs - {t}, Recorded(s.history, s.txs[t].at))
    case Rollback(t) => s.(txs := s.txs - {t})
    case SweepMessages(keys) => s.(db := s.db.(messages := s.db.messages - keys))
    case SweepInbox(ids) => s.(db := Swept(s.db, ids))
  }

  // A fresh database: empty tables and the two counters at zero.
  const EMPTY := Db(map[Sequence(EventLogCounter) := CountRow(0), Sequence(InboxCounter) := CountRow(0)], map[], map[], map[])

  const INITIAL := State(EMPTY, map[], History([], [], []))

  // A run: consecutive states, each the result of the action between them.
  ghost predicate IsRun(run: seq<State>, actions: seq<Action>) {
    && |run| == |actions| + 1
    && run[0] == INITIAL
    && forall i :: 0 <= i < |actions| ==> Enabled(run[i], actions[i]) && run[i + 1] == Next(run[i], actions[i])
  }

  // Consecutive states of the machine, from any state.
  ghost predicate IsPath(states: seq<State>, actions: seq<Action>) {
    && |states| == |actions| + 1
    && forall i :: 0 <= i < |actions| ==> Enabled(states[i], actions[i]) && states[i + 1] == Next(states[i], actions[i])
  }
}
