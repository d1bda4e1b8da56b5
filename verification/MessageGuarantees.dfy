/** What system messages promise over every interleaving: per-recipient ids
    without gaps or reuse, and tailing that survives the retention sweep. */
module MessageGuarantees {
  import opened Basics
  import opened Ascending
  import opened Tail
  import opened StoreModel
  import opened StoreInvariant
  import opened StoreSteps
  import opened StoreHistory

  // For each recipient the pushes handed out 1, 2, 3, ... in commit order, and
  // everything still stored is one of them.
  lemma IdsAreGapless(run: seq<State>, actions: seq<Action>, i: nat, recipient: string)
    requires IsRun(run, actions) && i < |run|
    ensures IdsOf(run[i].history.sent, recipient) == Upto(LastMessage(run[i].db, recipient))
    ensures forall k :: k in run[i].db.messages ==> 1 <= k.1 <= LastMessage(run[i].db, k.0)
  {
    RunInv(run, actions, i);
  }

  lemma CommitTakesNextNumber(db: Db, tx: Tx)
    requires TxOk(db, tx) && tx.at.MessageDone?
    requires forall k :: k in db.messages ==> k.1 <= LastMessage(db, k.0)
    ensures var k := (tx.at.recipient, tx.at.id);
      && tx.at.id == LastMessage(db, tx.at.recipient) + 1
      && k !in db.messages
      && Committed(db, tx).messages == db.messages[k := tx.at.message]
  {
    assert db.messages + tx.newMessages == db.messages[(tx.at.recipient, tx.at.id) := tx.at.message];
  }

  lemma OtherCommitsAddNothing(db: Db, tx: Tx, recipient: string)
    requires TxOk(db, tx) && !(tx.at.MessageDone? && tx.at.recipient == recipient)
    ensures forall k :: k in Committed(db, tx).messages && k.0 == recipient ==> k in db.messages
  {
  }

  // A committing push takes the number after its recipient's last one; sweeps
  // and rollbacks give no number back to be used again.
  lemma PushTakesNextNumber(run: seq<State>, actions: seq<Action>, i: nat, recipient: string)
    requires IsRun(run, actions) && i < |actions|
    ensures var db, db', a := run[i].db, run[i + 1].db, actions[i];
      if a.Commit? && run[i].txs[a.t].at.MessageDone? && run[i].txs[a.t].at.recipient == recipient then
        && run[i].txs[a.t].at.id == LastMessage(db, recipient) + 1 == LastMessage(db', recipient)
        && (recipient, run[i].txs[a.t].at.id) !in db.messages
        && db'.messages == db.messages[(recipient, run[i].txs[a.t].at.id) := run[i].txs[a.t].at.message]
      else
        && LastMessage(db', recipient) == LastMessage(db, recipient)
        && forall k :: k in db'.messages && k.0 == recipient ==> k in db.messages
  {
    RunInv(run, actions, i);
    var s := run[i];
    match actions[i]
    case Commit(t) =>
      assert TxOk(s.db, s.txs[t]);
      CommitNumber(s.db, s.txs[t], recipient);
      if s.txs[t].at.MessageDone? && s.txs[t].at.recipient == recipient {
        CommitTakesNextNumber(s.db, s.txs[t]);
      } else {
        OtherCommitsAddNothing(s.db, s.txs[t], recipient);
      }
    case SweepInbox(ids) =>
      assert Get(Swept(s.db, ids).rows, MessageLock(recipient)) == Get(s.db.rows, MessageLock(recipient));
    case _ =>
  }

  /** A system message stays as it is until a sweep names it, and a sweep
      removes just what it names. */
  lemma OnlySweepsRemove(run: seq<State>, actions: seq<Action>, i: nat)
    requires IsRun(run, actions) && i < |actions|
    ensures actions[i].SweepMessages? ==>
      forall k :: if k in run[i].db.messages && k !in actions[i].keys
        then k in run[i + 1].db.messages && run[i + 1].db.messages[k] == run[i].db.messages[k]
        else k !in run[i + 1].db.messages
    ensures !actions[i].SweepMessages? ==>
      forall k :: k in run[i].db.messages ==> k in run[i + 1].db.messages && run[i + 1].db.messages[k] == run[i].db.messages[k]
  {
    RunInv(run, actions, i);
    var s := run[i];
    if actions[i].Commit? {
      var tx := s.txs[actions[i].t];
      assert TxOk(s.db, tx);
      InsertsNew(s.db, s.history, tx);
    }
  }

  lemma InsertsNew(db: Db, h: History, tx: Tx)
    requires DbOk(db, h) && TxOk(db, tx) && Ready(tx)
    ensures forall k :: k in db.messages ==> k !in tx.newMessages
  {
    if tx.at.MessageDone? {
      CommitTakesNextNumber(db, tx);
    } else {
      assert tx.newMessages == map[];
    }
  }

  function MessageIds(db: Db, recipient: string): set<int> {
    set k | k in db.messages && k.0 == recipient :: k.1
  }

  function MessageFeed(run: seq<State>, recipient: string): seq<set<int>> {
    seq(|run|, i requires 0 <= i < |run| => MessageIds(run[i].db, recipient))
  }

  function MessageMarks(run: seq<State>, recipient: string): seq<int> {
    seq(|run|, i requires 0 <= i < |run| => LastMessage(run[i].db, recipient))
  }

  lemma MessageFeeds(run: seq<State>, actions: seq<Action>, recipient: string)
    requires IsRun(run, actions)
    ensures Feed(MessageFeed(run, recipient), MessageMarks(run, recipient))
  {
    var visible, mark := MessageFeed(run, recipient), MessageMarks(run, recipient);
    forall i, x | 0 <= i < |visible| && x in visible[i] ensures x <= mark[i] {
      IdsAreGapless(run, actions, i, recipient);
    }
    forall i, j, x | 0 <= i <= j < |visible| && x in visible[j] && x !in visible[i] ensures mark[i] < x {
      RunLater(run, actions, i, j);
      assert (recipient, x) in run[j].db.messages;
      assert (recipient, x) !in run[i].db.messages;
    }
  }

  /** Whatever is still stored below a tailer's cursor has been delivered to
      it, once and in order, however often the cleaner has run. */
  lemma MessageTailSkipsNothing(run: seq<State>, actions: seq<Action>, recipient: string, polls: seq<Read>, start: int, now: nat)
    requires IsRun(run, actions) && Schedule(polls, |run|)
    requires now < |run| && (polls != [] ==> polls[|polls| - 1].at <= now)
    ensures var delivered := Delivered(MessageFeed(run, recipient), polls, start, |polls|);
      && Sorted(delivered)
      && forall id | id in MessageIds(run[now].db, recipient)
           && start < id <= CursorAt(MessageFeed(run, recipient), polls, start, |polls|) :: id in delivered
  {
    MessageFeeds(run, actions, recipient);
    DeliveredSorted(MessageFeed(run, recipient), polls, start, |polls|);
    forall id | id in MessageIds(run[now].db, recipient)
        && start < id <= CursorAt(MessageFeed(run, recipient), polls, start, |polls|)
      ensures id in Delivered(MessageFeed(run, recipient), polls, start, |polls|)
    {
      NothingSkipped(MessageFeed(run, recipient), MessageMarks(run, recipient), polls, start, |polls|, now, id);
    }
  }

  // Starting at -1 resolves to the largest id still stored, or 0 when the
  // cleaner has emptied the table. Either way every message committed later
  // lies above it.
  lemma LatestStartMissesNothing(run: seq<State>, actions: seq<Action>, recipient: string, i: nat, j: nat, id: int)
    requires IsRun(run, actions) && i <= j < |run|
    requires id in MessageIds(run[j].db, recipient) && id !in MessageIds(run[i].db, recipient)
    ensures Latest(MessageIds(run[i].db, recipient)) <= LastMessage(run[i].db, recipient) < id
  {
    var ids := MessageIds(run[i].db, recipient);
    LatestIsLargest(ids);
    RunInv(run, actions, i);
    RunLater(run, actions, i, j);
    assert (recipient, id) in run[j].db.messages;
    assert (recipient, id) !in run[i].db.messages;
  }
}
