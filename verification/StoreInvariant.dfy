/** What every reachable state of the store keeps. */
module StoreInvariant {
  import opened Basics
  import opened StoreModel
  import opened EventFold

  // ----- Committed tables -----

  // 1, 2, ..., n
  function Upto(n: int): seq<int> {
    if n <= 0 then [] else Upto(n - 1) + [n]
  }

  // The ids sent to one recipient, in commit order.
  function IdsOf(sent: seq<(string, int)>, recipient: string): seq<int> {
    if sent == [] then []
    else
      var last := sent[|sent| - 1];
      IdsOf(sent[..|sent| - 1], recipient) + if last.0 == recipient then [last.1] else []
  }

  function LastMessage(db: Db, recipient: string): int {
    Number(Get(db.rows, MessageLock(recipient)))
  }

  predicate CountersExist(db: Db) {
    Sequence(EventLogCounter) in db.rows && Sequence(InboxCounter) in db.rows
  }

  // The eventlog is the committed blocks, numbered without gaps from one.
  predicate LogNumbered(db: Db, h: History) {
    && db.eventlog == Block(1, Flatten(h.blocks))
    && Count(db, EventLogCounter) == |Flatten(h.blocks)|
  }

  predicate Agrees(db: Db, log: seq<Event>, r: RowId) {
    RowVersion(Get(db.rows, r)) == Fold(None, log, r) && Legal(None, log, r)
  }

  ghost predicate LogAgrees(db: Db, h: History) {
    forall r | IsResource(r) :: Agrees(db, Flatten(h.blocks), r)
  }

  ghost predicate MessagesNumbered(db: Db, h: History) {
    && (forall k :: k in db.messages ==> 1 <= k.1 <= LastMessage(db, k.0))
    && (forall recipient :: IdsOf(h.sent, recipient) == Upto(LastMessage(db, recipient)))
    && (forall recipient :: LastMessage(db, recipient) >= 0)
    && (forall recipient :: MessageLock(recipient) in db.rows ==> LastMessage(db, recipient) >= 1)
  }

  predicate UniquePairs(inbox: map<int, InboxMessage>) {
    forall a, b :: a in inbox && b in inbox && SamePair(inbox[a], inbox[b]) ==> a == b
  }

  predicate InboxNumbered(db: Db, h: History) {
    && (forall id :: id in db.inbox ==> 1 <= id <= Count(db, InboxCounter))
    && h.stored == Upto(Count(db, InboxCounter))
    && Count(db, InboxCounter) >= 0
    && UniquePairs(db.inbox)
  }

  ghost predicate StatesReferToMessages(db: Db) {
    forall id, subject :: ReadState(id, subject) in db.rows ==> id in db.inbox
  }

  ghost predicate DbOk(db: Db, h: History) {
    && CountersExist(db) && LogNumbered(db, h) && LogAgrees(db, h) && MessagesNumbered(db, h)
    && InboxNumbered(db, h) && StatesReferToMessages(db)
  }

  // ----- Open transactions -----

  predicate NoInserts(tx: Tx) {
    tx.newLog == map[] && tx.newMessages == map[] && tx.newInbox == map[]
  }

  // The events collected so far say exactly what the uncommitted rows change.
  predicate LoggedRow(db: Db, writes: map<RowId, Option<Row>>, events: seq<Event>, r: RowId) {
    var v := RowVersion(Get(db.rows, r));
    if r in writes then RowVersion(writes[r]) == Fold(v, events, r) && Legal(v, events, r)
    else !Mentions(events, r)
  }

  ghost predicate Logged(db: Db, writes: map<RowId, Option<Row>>, events: seq<Event>) {
    forall r | IsResource(r) :: LoggedRow(db, writes, events, r)
  }

  predicate DataWrites(writes: map<RowId, Option<Row>>) {
    forall r :: r in writes ==> r.User? || IsResource(r)
  }

  predicate UserWrites(writes: map<RowId, Option<Row>>) {
    forall r :: r in writes ==> r.User?
  }

  // Data rows and, locked last, the eventlog counter.
  predicate LoggingWrites(writes: map<RowId, Option<Row>>) {
    forall r :: r in writes ==> r.User? || IsResource(r) || r == Sequence(EventLogCounter)
  }

  // What holds of a transaction at each point of its program.
  ghost predicate TxOk(db: Db, tx: Tx) {
    match tx.at
    case Writing(ops, events) =>
      NoInserts(tx) && DataWrites(tx.writes) && Logged(db, tx.writes, events) && (forall i :: 0 <= i < |ops| ==> Aimed(ops[i]))
    case Appending(events, first, i) =>
      var counter := Sequence(EventLogCounter);
      && tx.newMessages == map[] && tx.newInbox == map[]
      && |events| > 0 && i <= |events|
      && counter in tx.writes && tx.writes[counter] == Some(CountRow(Count(db, EventLogCounter) + |events|))
      && first == Count(db, EventLogCounter) + 1
      && LoggingWrites(tx.writes)
      && tx.newLog == Block(first, events[..i])
      && Logged(db, tx.writes, events)
    case MessageUser(_, _) => NoInserts(tx) && tx.writes == map[]
    case MessageNumber(_, _) => NoInserts(tx) && UserWrites(tx.writes)
    case MessageInsert(recipient, id, _) => NoInserts(tx) && Numbered(db, tx, recipient, id)
    case MessageDone(recipient, id, message) =>
      tx.newLog == map[] && tx.newInbox == map[] && tx.newMessages == map[(recipient, id) := message] && Numbered(db, tx, recipient, id)
    case PushReserve(_) => NoInserts(tx) && tx.writes == map[]
    case PushLookup(_, id) => NoInserts(tx) && Holding(db, tx, id)
    case PushInsert(push, id) => NoInserts(tx) && Holding(db, tx, id) && Existing(db.inbox, push) == Absent
    case PushDone(push, id) =>
      tx.newLog == map[] && tx.newMessages == map[] && tx.newInbox == map[id := push] && Holding(db, tx, id)
      && Existing(db.inbox, push) == Absent
    case StateLookup(_, _, _) => NoInserts(tx) && tx.writes == map[]
    case StateWrite(_, _, _) => NoInserts(tx) && tx.writes == map[]
    case StateDone(subject, id, change) =>
      var r := ReadState(id, subject);
      NoInserts(tx) && tx.writes == map[r := Some(Changed(Get(db.rows, r), change))] && id in db.inbox
  }

  predicate Aimed(op: Write) {
    match op
    case EnsureUser(_) => true
    case PutDocument(doc, _, _) => doc.Doc?
    case RemoveDocument(doc, _) => doc.Doc?
    case PutProperty(prop, _) => prop.Prop?
    case RemoveProperty(prop) => prop.Prop?
  }

  // The message number was taken from the recipient's row, which is locked.
  predicate Numbered(db: Db, tx: Tx, recipient: string, id: int) {
    var lock := MessageLock(recipient);
    && lock in tx.writes && tx.writes[lock] == Some(CountRow(id))
    && (forall r :: r in tx.writes ==> r.User? || r == lock)
    && id == LastMessage(db, recipient) + 1
  }

  // The inbox id was taken from the inbox counter, which is the only lock.
  predicate Holding(db: Db, tx: Tx, id: int) {
    tx.writes == map[Sequence(InboxCounter) := Some(CountRow(id))] && id == Count(db, InboxCounter) + 1
  }

  // A row is locked by at most one transaction.
  predicate LocksDisjoint(txs: map<nat, Tx>) {
    forall t, u, r :: t in txs && u in txs && r in txs[t].writes && r in txs[u].writes ==> t == u
  }

  ghost predicate Inv(s: State) {
    && DbOk(s.db, s.history)
    && LocksDisjoint(s.txs)
    && forall t :: t in s.txs ==> TxOk(s.db, s.txs[t])
  }

  // ----- A transaction's own steps -----

  lemma StartOk(db: Db, at: Point)
    requires Starts(at)
    ensures TxOk(db, Opened(at))
  {
    match at
    case Writing(ops, events) =>
      forall i | 0 <= i < |ops| ensures Aimed(ops[i]) {
        if SetProgram(ops) && i > 0 {
          assert ops[1..][i - 1] == ops[i];
          assert Target(ops[1..][i - 1]).Prop?;
        } else if exists owner :: UnsetProgram(ops, owner) {
          assert Target(ops[i]).Prop?;
        }
      }
    case _ =>
  }

  // A new event about one row leaves the account of every other as it is.
  lemma LoggedOther(db: Db, writes: map<RowId, Option<Row>>, events: seq<Event>, e: Event, target: RowId, row: Option<Row>, r: RowId)
    requires LoggedRow(db, writes, events, r) && e.resource == target && r != target
    ensures LoggedRow(db, writes[target := row], events + [e], r)
  {
    FoldOne(RowVersion(Get(db.rows, r)), events, e, r);
    assert forall i :: 0 <= i < |events + [e]| && (events + [e])[i].resource == r ==> i < |events| && events[i].resource == r;
  }

  lemma LoggedTarget(db: Db, writes: map<RowId, Option<Row>>, events: seq<Event>, e: Event, row: Option<Row>)
    requires LoggedRow(db, writes, events, e.resource)
    requires var seen := if e.resource in writes then writes[e.resource] else Get(db.rows, e.resource);
      Fits(RowVersion(seen), e) && RowVersion(row) == Apply(RowVersion(seen), e, e.resource)
    ensures LoggedRow(db, writes[e.resource := row], events + [e], e.resource)
  {
    var v := RowVersion(Get(db.rows, e.resource));
    FoldOne(v, events, e, e.resource);
    if e.resource !in writes {
      FoldUnmentioned(v, events, e.resource);
    }
  }

  // One row statement keeps rows and collected events in step.
  lemma WriteKeepsLogged(db: Db, tx: Tx, op: Write)
    requires tx.at.Writing? && TxOk(db, tx) && Aimed(op)
    ensures var (write, logged) := ExecWrite(db, tx, op);
      var writes := if write.Some? then tx.writes[Target(op) := write.value] else tx.writes;
      DataWrites(writes) && Logged(db, writes, tx.at.events + logged)
  {
    var (write, logged) := ExecWrite(db, tx, op);
    var events := tx.at.events;
    var writes := if write.Some? then tx.writes[Target(op) := write.value] else tx.writes;
    forall r | IsResource(r) ensures LoggedRow(db, writes, events + logged, r) {
      assert LoggedRow(db, tx.writes, events, r);
      if logged == [] {
        assert events + logged == events;
      } else {
        assert logged == [logged[0]] && logged[0].resource == Target(op);
        if r == Target(op) {
          LoggedTarget(db, tx.writes, events, logged[0], write.value);
        } else {
          LoggedOther(db, tx.writes, events, logged[0], Target(op), write.value, r);
        }
      }
    }
  }

  lemma AppendKeepsOk(db: Db, tx: Tx)
    requires tx.at.Appending? && tx.at.i < |tx.at.events| && TxOk(db, tx)
    requires Exec(db, tx).Continue?
    ensures TxOk(db, Exec(db, tx).tx)
  {
    BlockGrows(tx.at.first, tx.at.events, tx.at.i);
  }

  lemma ReserveKeepsOk(db: Db, tx: Tx)
    requires tx.at.Writing? && tx.at.ops == [] && tx.at.events != [] && TxOk(db, tx)
    requires Exec(db, tx).Continue?
    ensures TxOk(db, Exec(db, tx).tx)
  {
    var next := Exec(db, tx).tx;
    assert next.newLog == Block(next.at.first, tx.at.events[..0]);
    forall r | IsResource(r) ensures LoggedRow(db, next.writes, tx.at.events, r) {
      assert LoggedRow(db, tx.writes, tx.at.events, r);
    }
  }

  lemma ExecKeepsOk(db: Db, tx: Tx)
    requires !Ready(tx) && TxOk(db, tx) && Exec(db, tx).Continue?
    ensures TxOk(db, Exec(db, tx).tx)
  {
    match tx.at
    case Writing(ops, events) =>
      if ops == [] {
        ReserveKeepsOk(db, tx);
      } else {
        WriteKeepsLogged(db, tx, ops[0]);
      }
    case Appending(_, _, _) => AppendKeepsOk(db, tx);
    case _ =>
  }

  // A statement locks at most the row it needs.
  lemma ExecLocks(db: Db, tx: Tx)
    requires !Ready(tx) && Exec(db, tx).Continue?
    ensures Exec(db, tx).tx.writes.Keys == tx.writes.Keys + (if Needs(db, tx).Some? then {Needs(db, tx).value} else {})
  {
    if tx.at.Writing? && tx.at.ops != [] {
      WriteLocks(db, tx);
    }
  }

  lemma WriteLocks(db: Db, tx: Tx)
    requires tx.at.Writing? && tx.at.ops != []
    ensures Exec(db, tx).Continue?
    ensures Exec(db, tx).tx.writes.Keys == tx.writes.Keys + (if Needs(db, tx).Some? then {Needs(db, tx).value} else {})
  {
  }

  // ----- Other transactions' steps -----

  // The locked rows and the facts a transaction has already read stay as they
  // were.
  ghost predicate Undisturbed(db: Db, db': Db, tx: Tx) {
    && (forall r :: r in tx.writes ==> Get(db'.rows, r) == Get(db.rows, r))
    && (Sequence(InboxCounter) in tx.writes ==> forall id :: id in db'.inbox ==> id in db.inbox && db'.inbox[id] == db.inbox[id])
    && (tx.at.StateDone? && tx.at.id in db.inbox ==> tx.at.id in db'.inbox)
  }

  lemma FrameOk(db: Db, db': Db, tx: Tx)
    requires TxOk(db, tx) && Undisturbed(db, db', tx)
    ensures TxOk(db', tx)
  {
    if tx.at.Writing? || tx.at.Appending? {
      forall r | IsResource(r) ensures LoggedRow(db', tx.writes, tx.at.events, r) {
        assert LoggedRow(db, tx.writes, tx.at.events, r);
      }
    }
  }

  // Which shared rows a transaction can have locked at each point.
  lemma Touched(db: Db, tx: Tx, recipient: string, id: int, subject: string)
    requires TxOk(db, tx)
    ensures Sequence(EventLogCounter) in tx.writes <==> tx.at.Appending?
    ensures Sequence(InboxCounter) in tx.writes <==> tx.at.PushLookup? || tx.at.PushInsert? || tx.at.PushDone?
    ensures MessageLock(recipient) in tx.writes <==>
      (tx.at.MessageInsert? || tx.at.MessageDone?) && tx.at.recipient == recipient
    ensures ReadState(id, subject) in tx.writes <==>
      tx.at.StateDone? && tx.at.id == id && tx.at.subject == subject
    ensures forall r :: r in tx.writes && IsResource(r) ==> tx.at.Writing? || tx.at.Appending?
  {
  }

  lemma MergeGet(rows: map<RowId, Row>, writes: map<RowId, Option<Row>>, r: RowId)
    ensures Get(Merge(rows, writes), r) == if r in writes then writes[r] else Get(rows, r)
  {
  }
}
