/** How the committed tables can change over time: what one step may do, and
    what therefore holds between any two states of a run. */
module StoreHistory {
  import opened Basics
  import opened StoreModel
  import opened StoreInvariant
  import opened StoreSteps

  // The eventlog only grows, above its counter.
  ghost predicate LogLater(db: Db, db': Db) {
    && Count(db, EventLogCounter) <= Count(db', EventLogCounter)
    && (forall id :: id in db.eventlog ==> id in db'.eventlog && db'.eventlog[id] == db.eventlog[id])
    && (forall id :: id in db'.eventlog && id !in db.eventlog ==> Count(db, EventLogCounter) < id)
  }

  // The inbox loses messages and gains them above its counter.
  ghost predicate InboxLater(db: Db, db': Db) {
    && Count(db, InboxCounter) <= Count(db', InboxCounter)
    && (forall id :: id in db'.inbox && id <= Count(db, InboxCounter) ==> id in db.inbox && db'.inbox[id] == db.inbox[id])
  }

  // So do the system messages, recipient by recipient.
  ghost predicate MessagesLater(db: Db, db': Db) {
    && (forall recipient :: LastMessage(db, recipient) <= LastMessage(db', recipient))
    && (forall k :: k in db'.messages && k.1 <= LastMessage(db, k.0) ==> k in db.messages && db'.messages[k] == db.messages[k])
  }

  // What a reader has hidden stays hidden for as long as it exists.
  ghost predicate HiddenLater(db: Db, db': Db) {
    forall id, subject :: HiddenIn(db, id, subject) && id in db'.inbox && id <= Count(db, InboxCounter)
      ==> HiddenIn(db', id, subject)
  }

  // db' is a later state of the tables than db.
  ghost predicate Later(db: Db, db': Db) {
    LogLater(db, db') && InboxLater(db, db') && MessagesLater(db, db') && HiddenLater(db, db')
  }

  predicate HiddenIn(db: Db, id: int, subject: string) {
    IsHidden(Get(db.rows, ReadState(id, subject)))
  }

  lemma CommitHidden(db: Db, tx: Tx, id: int, subject: string)
    requires TxOk(db, tx) && Ready(tx)
    ensures HiddenIn(Committed(db, tx), id, subject)
       <==> HiddenIn(db, id, subject) || (tx.at.StateDone? && tx.at.id == id && tx.at.subject == subject && tx.at.change.Hide?)
  {
    MergeGet(db.rows, tx.writes, ReadState(id, subject));
    Touched(db, tx, "", id, subject);
  }

  lemma CommitLogLater(db: Db, h: History, tx: Tx)
    requires LogNumbered(db, h) && CountersExist(db) && TxOk(db, tx) && Ready(tx)
    ensures LogLater(db, Committed(db, tx))
  {
    CommitCounts(db, tx, EventLogCounter);
    Touched(db, tx, "", 0, "");
  }

  lemma CommitInboxLater(db: Db, h: History, tx: Tx)
    requires InboxNumbered(db, h) && CountersExist(db) && TxOk(db, tx) && Ready(tx)
    ensures InboxLater(db, Committed(db, tx))
  {
    CommitCounts(db, tx, InboxCounter);
    Touched(db, tx, "", 0, "");
  }

  lemma CommitMessagesLater(db: Db, h: History, tx: Tx)
    requires MessagesNumbered(db, h) && TxOk(db, tx) && Ready(tx)
    ensures MessagesLater(db, Committed(db, tx))
  {
    forall recipient ensures LastMessage(db, recipient) <= LastMessage(Committed(db, tx), recipient) {
      CommitNumber(db, tx, recipient);
    }
  }

  lemma CommitLater(db: Db, h: History, tx: Tx)
    requires DbOk(db, h) && TxOk(db, tx) && Ready(tx)
    ensures Later(db, Committed(db, tx))
  {
    CommitLogLater(db, h, tx);
    CommitInboxLater(db, h, tx);
    CommitMessagesLater(db, h, tx);
    forall id, subject | HiddenIn(db, id, subject) ensures HiddenIn(Committed(db, tx), id, subject) {
      CommitHidden(db, tx, id, subject);
    }
  }

  lemma SweepLater(db: Db, h: History, ids: set<int>)
    requires DbOk(db, h)
    ensures Later(db, Swept(db, ids))
  {
    var db' := Swept(db, ids);
    assert forall r: RowId :: !r.ReadState? ==> Get(db'.rows, r) == Get(db.rows, r);
    forall id, subject | HiddenIn(db, id, subject) && id in db'.inbox ensures HiddenIn(db', id, subject) {
      assert ReadState(id, subject) in db'.rows;
    }
  }

  lemma StepLater(s: State, a: Action)
    requires Inv(s) && Enabled(s, a)
    ensures Later(s.db, Next(s, a).db)
  {
    match a
    case Commit(t) =>
      assert TxOk(s.db, s.txs[t]);
      CommitLater(s.db, s.history, s.txs[t]);
    case SweepInbox(ids) => SweepLater(s.db, s.history, ids);
    case _ =>
  }

  lemma LaterTransitive(a: Db, b: Db, c: Db)
    requires Later(a, b) && Later(b, c)
    ensures Later(a, c)
  {
    forall id, subject | HiddenIn(a, id, subject) && id in c.inbox && id <= Count(a, InboxCounter)
      ensures HiddenIn(c, id, subject)
    {
      assert id in b.inbox;
      assert HiddenIn(b, id, subject);
    }
  }

  lemma LaterReflexive(db: Db)
    ensures Later(db, db)
  {
  }

  // Any two states of a run are related by time alone.
  lemma {:induction false} RunLater(run: seq<State>, actions: seq<Action>, i: nat, j: nat)
    requires IsRun(run, actions) && i <= j < |run|
    ensures Later(run[i].db, run[j].db)
    decreases j
  {
    if i == j {
      LaterReflexive(run[i].db);
    } else {
      RunLater(run, actions, i, j - 1);
      RunInv(run, actions, j - 1);
      StepLater(run[j - 1], actions[j - 1]);
      LaterTransitive(run[i].db, run[j - 1].db, run[j].db);
    }
  }
}
