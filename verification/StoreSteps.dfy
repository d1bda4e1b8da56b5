/** Every action of the store preserves its invariant, so every state of every
    run satisfies it. */
module StoreSteps {
  import opened Basics
  import opened StoreModel
  import opened EventFold
  import opened StoreInvariant

  // ----- Commit -----

  lemma CommitCounts(db: Db, tx: Tx, name: CounterName)
    requires CountersExist(db) && TxOk(db, tx)
    ensures CountersExist(Committed(db, tx))
    ensures Count(Committed(db, tx), name)
         == if Sequence(name) in tx.writes then Number(tx.writes[Sequence(name)]) else Count(db, name)
  {
    MergeGet(db.rows, tx.writes, Sequence(name));
  }

  // A commit adds its transaction's events after the counter, as one block.
  lemma CommittedLogIs(db: Db, tx: Tx)
    requires CountersExist(db) && TxOk(db, tx) && Ready(tx)
    ensures Committed(db, tx).eventlog
         == if tx.at.Appending? then db.eventlog + Block(Count(db, EventLogCounter) + 1, tx.at.events) else db.eventlog
    ensures Count(Committed(db, tx), EventLogCounter)
         == Count(db, EventLogCounter) + if tx.at.Appending? then |tx.at.events| else 0
    ensures tx.at.Appending? ==> |tx.at.events| > 0
  {
    CommitCounts(db, tx, EventLogCounter);
    Touched(db, tx, "", 0, "");
    if tx.at.Appending? {
      assert tx.at.events[..tx.at.i] == tx.at.events;
    } else {
      assert tx.newLog == map[];
    }
  }

  lemma LogGrows(log: seq<Event>, events: seq<Event>)
    ensures Block(1, log) + Block(|log| + 1, events) == Block(1, log + events)
  {
    BlockJoin(1, log, events);
  }

  lemma CommitLog(db: Db, h: History, tx: Tx)
    requires DbOk(db, h) && TxOk(db, tx) && Ready(tx)
    ensures LogNumbered(Committed(db, tx), Recorded(h, tx.at))
  {
    CommittedLogIs(db, tx);
    if tx.at.Appending? {
      FlattenOne(h.blocks, tx.at.events);
      LogGrows(Flatten(h.blocks), tx.at.events);
    } else {
      assert Recorded(h, tx.at).blocks == h.blocks;
    }
  }

  lemma CommitAgrees(db: Db, h: History, tx: Tx)
    requires DbOk(db, h) && TxOk(db, tx) && Ready(tx)
    ensures LogAgrees(Committed(db, tx), Recorded(h, tx.at))
  {
    var log := Flatten(h.blocks);
    forall r | IsResource(r) ensures Agrees(Committed(db, tx), Flatten(Recorded(h, tx.at).blocks), r) {
      MergeGet(db.rows, tx.writes, r);
      Touched(db, tx, "", 0, "");
      assert Agrees(db, log, r);
      if tx.at.Appending? || tx.at.Writing? {
        var events := tx.at.events;
        assert LoggedRow(db, tx.writes, events, r);
        if r !in tx.writes {
          FoldUnmentioned(Fold(None, log, r), events, r);
        }
        if tx.at.Appending? {
          FlattenOne(h.blocks, events);
          FoldJoin(None, log, events, r);
        }
      }
    }
  }

  lemma IdsOfOne(sent: seq<(string, int)>, recipient: string, id: int, other: string)
    ensures IdsOf(sent + [(recipient, id)], other)
         == if other == recipient then IdsOf(sent, other) + [id] else IdsOf(sent, other)
  {
    assert (sent + [(recipient, id)])[..|sent|] == sent;
  }

  // Committing a message push advances its recipient's number by one, and no
  // other commit touches a number.
  lemma CommitNumber(db: Db, tx: Tx, recipient: string)
    requires TxOk(db, tx) && Ready(tx)
    ensures LastMessage(Committed(db, tx), recipient)
         == LastMessage(db, recipient) + if tx.at.MessageDone? && tx.at.recipient == recipient then 1 else 0
    ensures MessageLock(recipient) in Committed(db, tx).rows <==>
      MessageLock(recipient) in db.rows || (tx.at.MessageDone? && tx.at.recipient == recipient)
  {
    MergeGet(db.rows, tx.writes, MessageLock(recipient));
    Touched(db, tx, recipient, 0, "");
  }

  lemma RecordedIds(h: History, at: Point, recipient: string)
    ensures IdsOf(Recorded(h, at).sent, recipient)
         == if at.MessageDone? && at.recipient == recipient then IdsOf(h.sent, recipient) + [at.id] else IdsOf(h.sent, recipient)
  {
    if at.MessageDone? {
      IdsOfOne(h.sent, at.recipient, at.id, recipient);
    }
  }

  lemma CommitSent(db: Db, h: History, tx: Tx, recipient: string)
    requires MessagesNumbered(db, h) && TxOk(db, tx) && Ready(tx)
    ensures IdsOf(Recorded(h, tx.at).sent, recipient) == Upto(LastMessage(Committed(db, tx), recipient))
  {
    var n := LastMessage(db, recipient);
    assert IdsOf(h.sent, recipient) == Upto(n) && n >= 0;
    CommitNumber(db, tx, recipient);
    RecordedIds(h, tx.at, recipient);
    assert Upto(n + 1) == Upto(n) + [n + 1];
  }

  lemma CommitMessages(db: Db, h: History, tx: Tx)
    requires MessagesNumbered(db, h) && TxOk(db, tx) && Ready(tx)
    ensures MessagesNumbered(Committed(db, tx), Recorded(h, tx.at))
  {
    var db' := Committed(db, tx);
    forall recipient
      ensures LastMessage(db', recipient) >= LastMessage(db, recipient)
      ensures MessageLock(recipient) in db'.rows ==> LastMessage(db', recipient) >= 1
      ensures IdsOf(Recorded(h, tx.at).sent, recipient) == Upto(LastMessage(db', recipient))
    {
      CommitNumber(db, tx, recipient);
      CommitSent(db, h, tx, recipient);
    }
    forall k | k in db'.messages ensures 1 <= k.1 <= LastMessage(db', k.0) {
      CommitNumber(db, tx, k.0);
      assert k in db.messages || tx.at.MessageDone?;
    }
  }

  lemma ExistingAbsent(inbox: map<int, InboxMessage>, push: InboxMessage)
    ensures Existing(inbox, push) == Absent <==> forall id :: id in inbox ==> !SamePair(inbox[id], push)
  {
  }

  // A commit adds its transaction's inbox message under the next number.
  lemma CommittedInboxIs(db: Db, tx: Tx)
    requires CountersExist(db) && TxOk(db, tx) && Ready(tx)
    ensures Committed(db, tx).inbox == if tx.at.PushDone? then db.inbox[tx.at.id := tx.at.push] else db.inbox
    ensures Count(Committed(db, tx), InboxCounter) == Count(db, InboxCounter) + if tx.at.PushDone? then 1 else 0
    ensures tx.at.PushDone? ==> tx.at.id == Count(db, InboxCounter) + 1 && Existing(db.inbox, tx.at.push) == Absent
  {
    CommitCounts(db, tx, InboxCounter);
    Touched(db, tx, "", 0, "");
    if !tx.at.PushDone? {
      assert tx.newInbox == map[];
    }
  }

  lemma StoredUnderNext(inbox: map<int, InboxMessage>, id: int, push: InboxMessage)
    requires UniquePairs(inbox) && Existing(inbox, push) == Absent
    ensures UniquePairs(inbox[id := push])
  {
    ExistingAbsent(inbox, push);
  }

  lemma CommitInbox(db: Db, h: History, tx: Tx)
    requires DbOk(db, h) && TxOk(db, tx) && Ready(tx)
    ensures InboxNumbered(Committed(db, tx), Recorded(h, tx.at))
  {
    CommittedInboxIs(db, tx);
    if tx.at.PushDone? {
      StoredUnderNext(db.inbox, tx.at.id, tx.at.push);
      assert Recorded(h, tx.at).stored == h.stored + [Count(db, InboxCounter) + 1];
    } else {
      assert Recorded(h, tx.at).stored == h.stored;
    }
  }

  lemma CommitStates(db: Db, tx: Tx)
    requires StatesReferToMessages(db) && TxOk(db, tx) && Ready(tx)
    ensures StatesReferToMessages(Committed(db, tx))
  {
    forall id, subject | ReadState(id, subject) in Committed(db, tx).rows
      ensures id in Committed(db, tx).inbox
    {
      MergeGet(db.rows, tx.writes, ReadState(id, subject));
      Touched(db, tx, "", id, subject);
    }
  }

  lemma CommitKeepsDb(db: Db, h: History, tx: Tx)
    requires DbOk(db, h) && TxOk(db, tx) && Ready(tx)
    ensures DbOk(Committed(db, tx), Recorded(h, tx.at))
  {
    CommitCounts(db, tx, EventLogCounter);
    CommitLog(db, h, tx);
    CommitAgrees(db, h, tx);
    CommitMessages(db, h, tx);
    CommitInbox(db, h, tx);
    CommitStates(db, tx);
  }

  lemma CommitUndisturbed(db: Db, tx: Tx, u: Tx)
    requires TxOk(db, tx) && TxOk(db, u) && Ready(tx)
    requires tx.writes.Keys !! u.writes.Keys
    ensures Undisturbed(db, Committed(db, tx), u)
  {
    forall r | r in u.writes ensures Get(Committed(db, tx).rows, r) == Get(db.rows, r) {
      MergeGet(db.rows, tx.writes, r);
    }
  }

  // ----- Sweeps -----

  lemma SweepKeepsDb(db: Db, h: History, ids: set<int>)
    requires DbOk(db, h)
    ensures DbOk(Swept(db, ids), h)
  {
    var db' := Swept(db, ids);
    assert forall r: RowId :: !r.ReadState? ==> Get(db'.rows, r) == Get(db.rows, r);
    forall r | IsResource(r) ensures Agrees(db', Flatten(h.blocks), r) {
      assert Agrees(db, Flatten(h.blocks), r);
    }
  }

  lemma SweepUndisturbed(s: State, ids: set<int>, t: nat)
    requires Inv(s) && Enabled(s, SweepInbox(ids)) && t in s.txs
    ensures Undisturbed(s.db, Swept(s.db, ids), s.txs[t])
  {
    var tx := s.txs[t];
    assert TxOk(s.db, tx);
    forall r | r in tx.writes ensures Get(Swept(s.db, ids).rows, r) == Get(s.db.rows, r) {
      if r.ReadState? && r.message in ids {
        assert Referenced(s, r.message);
      }
    }
    if tx.at.StateDone? {
      assert ReadState(tx.at.id, tx.at.subject) in tx.writes;
      assert Referenced(s, tx.at.id);
    }
  }

  // ----- The machine -----

  lemma ExecuteKeepsLocks(s: State, t: nat)
    requires Inv(s) && Enabled(s, Execute(t))
    ensures LocksDisjoint(Next(s, Execute(t)).txs)
  {
    ExecLocks(s.db, s.txs[t]);
    forall u | u in s.txs && u != t
      ensures Needs(s.db, s.txs[t]).Some? ==> Needs(s.db, s.txs[t]).value !in s.txs[u].writes
    {
      assert !WaitsFor(s, t, u);
    }
  }

  lemma ExecuteKeepsInv(s: State, t: nat)
    requires Inv(s) && Enabled(s, Execute(t))
    ensures Inv(Next(s, Execute(t)))
  {
    assert TxOk(s.db, s.txs[t]);
    ExecKeepsOk(s.db, s.txs[t]);
    ExecuteKeepsLocks(s, t);
  }

  lemma CommitKeepsInv(s: State, t: nat)
    requires Inv(s) && Enabled(s, Commit(t))
    ensures Inv(Next(s, Commit(t)))
  {
    var s' := Next(s, Commit(t));
    assert TxOk(s.db, s.txs[t]);
    CommitKeepsDb(s.db, s.history, s.txs[t]);
    forall u | u in s'.txs ensures TxOk(s'.db, s'.txs[u]) {
      assert TxOk(s.db, s.txs[u]);
      forall r | r in s.txs[t].writes ensures r !in s.txs[u].writes { }
      CommitUndisturbed(s.db, s.txs[t], s.txs[u]);
      FrameOk(s.db, s'.db, s.txs[u]);
    }
  }

  lemma SweepMessagesKeepsInv(s: State, keys: set<(string, int)>)
    requires Inv(s)
    ensures Inv(Next(s, SweepMessages(keys)))
  {
    var s' := Next(s, SweepMessages(keys));
    forall r | IsResource(r) ensures Agrees(s'.db, Flatten(s'.history.blocks), r) {
      assert Agrees(s.db, Flatten(s.history.blocks), r);
    }
    forall u | u in s'.txs ensures TxOk(s'.db, s'.txs[u]) {
      FrameOk(s.db, s'.db, s.txs[u]);
    }
  }

  lemma SweepInboxKeepsInv(s: State, ids: set<int>)
    requires Inv(s) && Enabled(s, SweepInbox(ids))
    ensures Inv(Next(s, SweepInbox(ids)))
  {
    var s' := Next(s, SweepInbox(ids));
    SweepKeepsDb(s.db, s.history, ids);
    forall u | u in s'.txs ensures TxOk(s'.db, s'.txs[u]) {
      SweepUndisturbed(s, ids, u);
      FrameOk(s.db, s'.db, s.txs[u]);
    }
  }

  lemma StepKeepsInv(s: State, a: Action)
    requires Inv(s) && Enabled(s, a)
    ensures Inv(Next(s, a))
  {
    match a
    case Begin(t, at) => StartOk(s.db, at);
    case Execute(t) => ExecuteKeepsInv(s, t);
    case Commit(t) => CommitKeepsInv(s, t);
    case Rollback(t) =>
    case SweepMessages(keys) => SweepMessagesKeepsInv(s, keys);
    case SweepInbox(ids) => SweepInboxKeepsInv(s, ids);
  }

  lemma InitialInv()
    ensures Inv(INITIAL)
  {
    assert Block(1, []) == map[];
    assert Upto(0) == [];
    forall r | IsResource(r) ensures Agrees(EMPTY, [], r) { }
  }

  lemma {:induction false} RunInv(run: seq<State>, actions: seq<Action>, i: nat)
    requires IsRun(run, actions) && i < |run|
    ensures Inv(run[i])
  {
    if i == 0 {
      InitialInv();
    } else {
      RunInv(run, actions, i - 1);
      StepKeepsInv(run[i - 1], actions[i - 1]);
    }
  }
}
