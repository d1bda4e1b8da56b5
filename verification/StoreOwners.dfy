/** The foreign keys to the user table: every writer makes sure of the user row
    before it writes a row that refers to it, whoever else is at work. */
module StoreOwners {
  import opened Basics
  import opened StoreModel
  import opened StoreInvariant
  import opened StoreSteps

  // The user a row refers to.
  function OwnerRow(r: RowId): Option<RowId> {
    match r
    case Doc(owner, _, _, _) => Some(User(owner))
    case Prop(owner, _, _) => Some(User(owner))
    case MessageLock(recipient) => Some(User(recipient))
    case _ => None
  }

  predicate Seen(db: Db, tx: Tx, r: RowId) {
    View(db, tx, r).Some?
  }

  // Rows that put something under an owner.
  predicate Puts(op: Write) {
    op.PutDocument? || op.PutProperty?
  }

  predicate OpOwned(db: Db, tx: Tx, ops: seq<Write>, i: nat)
    requires i < |ops|
  {
    Puts(ops[i]) && OwnerRow(Target(ops[i])).Some? ==>
      Seen(db, tx, OwnerRow(Target(ops[i])).value)
      || exists j :: 0 <= j < i && ops[j].EnsureUser? && User(ops[j].sub) == OwnerRow(Target(ops[i])).value
  }

  predicate PointOwned(db: Db, tx: Tx) {
    match tx.at
    case Writing(ops, _) => forall i :: 0 <= i < |ops| ==> OpOwned(db, tx, ops, i)
    case MessageNumber(recipient, _) => Seen(db, tx, User(recipient))
    case _ => true
  }

  predicate TxOwned(db: Db, tx: Tx) {
    && (forall r :: r in tx.writes && r.User? ==> tx.writes[r].Some?)
    && (forall r :: r in tx.writes && tx.writes[r].Some? && OwnerRow(r).Some? ==> Seen(db, tx, OwnerRow(r).value))
    && PointOwned(db, tx)
  }

  predicate DbOwned(db: Db) {
    forall r :: r in db.rows && OwnerRow(r).Some? ==> OwnerRow(r).value in db.rows
  }

  ghost predicate Owned(s: State) {
    Inv(s) && DbOwned(s.db) && forall t :: t in s.txs ==> TxOwned(s.db, s.txs[t])
  }

  lemma StartOwned(db: Db, at: Point)
    requires Starts(at)
    ensures TxOwned(db, Opened(at))
  {
    if at.Writing? {
      var ops := at.ops;
      forall i | 0 <= i < |ops| ensures OpOwned(db, Opened(at), ops, i) {
        if SetProgram(ops) && i > 0 {
          assert ops[1..][i - 1] == ops[i];
          assert Target(ops[1..][i - 1]).owner == ops[0].sub;
          assert ops[0].EnsureUser?;
        }
      }
    }
  }

  lemma WriteOwned(db: Db, tx: Tx)
    requires TxOwned(db, tx) && tx.at.Writing? && tx.at.ops != [] && forall i :: 0 <= i < |tx.at.ops| ==> Aimed(tx.at.ops[i])
    ensures TxOwned(db, Exec(db, tx).tx)
  {
    var ops := tx.at.ops;
    var next := Exec(db, tx).tx;
    assert OpOwned(db, tx, ops, 0);
    forall u | Seen(db, tx, u) && u.User? ensures Seen(db, next, u) { }
    assert ops[0].EnsureUser? ==> Seen(db, next, User(ops[0].sub));
    forall i | 0 <= i < |ops[1..]| ensures OpOwned(db, next, ops[1..], i) {
      assert OpOwned(db, tx, ops, i + 1);
      if Puts(ops[i + 1]) && !Seen(db, tx, OwnerRow(Target(ops[i + 1])).value) {
        var j :| 0 <= j < i + 1 && ops[j].EnsureUser? && User(ops[j].sub) == OwnerRow(Target(ops[i + 1])).value;
        if j > 0 {
          assert ops[1..][j - 1] == ops[j];
        }
      }
    }
  }

  lemma ExecOwned(db: Db, tx: Tx)
    requires TxOk(db, tx) && TxOwned(db, tx) && !Ready(tx) && Exec(db, tx).Continue?
    ensures TxOwned(db, Exec(db, tx).tx)
  {
    if tx.at.Writing? && tx.at.ops != [] {
      WriteOwned(db, tx);
    }
  }

  lemma CommitOwned(db: Db, tx: Tx)
    requires DbOwned(db) && TxOwned(db, tx)
    ensures DbOwned(Committed(db, tx))
  {
    forall r | r in Committed(db, tx).rows && OwnerRow(r).Some? ensures OwnerRow(r).value in Committed(db, tx).rows {
      MergeGet(db.rows, tx.writes, r);
      MergeGet(db.rows, tx.writes, OwnerRow(r).value);
    }
  }

  // User rows only ever appear, so what was seen stays seen.
  lemma FrameOwned(db: Db, db': Db, tx: Tx)
    requires TxOwned(db, tx) && forall r: RowId :: r in db.rows && r.User? ==> r in db'.rows
    ensures TxOwned(db', tx)
  {
    forall u: RowId | u.User? && Seen(db, tx, u) ensures Seen(db', tx, u) { }
    if tx.at.Writing? {
      forall i | 0 <= i < |tx.at.ops| ensures OpOwned(db', tx, tx.at.ops, i) {
        assert OpOwned(db, tx, tx.at.ops, i);
      }
    }
  }

  lemma CommitKeepsUsers(db: Db, tx: Tx)
    requires TxOwned(db, tx)
    ensures forall r: RowId :: r in db.rows && r.User? ==> r in Committed(db, tx).rows
  {
    forall r: RowId | r in db.rows && r.User? ensures r in Committed(db, tx).rows {
      MergeGet(db.rows, tx.writes, r);
    }
  }

  lemma CommitStepOwned(s: State, t: nat)
    requires Owned(s) && Enabled(s, Commit(t))
    ensures Owned(Next(s, Commit(t)))
  {
    var s' := Next(s, Commit(t));
    StepKeepsInv(s, Commit(t));
    CommitOwned(s.db, s.txs[t]);
    CommitKeepsUsers(s.db, s.txs[t]);
    forall u | u in s'.txs ensures TxOwned(s'.db, s'.txs[u]) {
      FrameOwned(s.db, s'.db, s.txs[u]);
    }
  }

  lemma SweepStepOwned(s: State, a: Action)
    requires Owned(s) && Enabled(s, a) && (a.SweepMessages? || a.SweepInbox?)
    ensures Owned(Next(s, a))
  {
    var s' := Next(s, a);
    StepKeepsInv(s, a);
    forall u | u in s'.txs ensures TxOwned(s'.db, s'.txs[u]) {
      FrameOwned(s.db, s'.db, s.txs[u]);
    }
  }

  lemma StepOwned(s: State, a: Action)
    requires Owned(s) && Enabled(s, a)
    ensures Owned(Next(s, a))
  {
    match a
    case Begin(_, at) =>
      StepKeepsInv(s, a);
      StartOwned(s.db, at);
    case Execute(t) =>
      StepKeepsInv(s, a);
      assert TxOk(s.db, s.txs[t]);
      ExecOwned(s.db, s.txs[t]);
    case Commit(t) => CommitStepOwned(s, t);
    case Rollback(_) => StepKeepsInv(s, a);
    case _ => SweepStepOwned(s, a);
  }

  lemma {:induction false} RunOwned(run: seq<State>, actions: seq<Action>, i: nat)
    requires IsRun(run, actions) && i < |run|
    ensures Owned(run[i])
  {
    if i == 0 {
      InitialInv();
    } else {
      RunOwned(run, actions, i - 1);
      StepOwned(run[i - 1], actions[i - 1]);
    }
  }

  /** In every committed state the owner of each document, property and message
      number has a user row. */
  lemma ForeignKeysHold(run: seq<State>, actions: seq<Action>, i: nat, r: RowId)
    requires IsRun(run, actions) && i < |run|
    requires r in run[i].db.rows && OwnerRow(r).Some?
    ensures OwnerRow(r).value in run[i].db.rows
  {
    RunOwned(run, actions, i);
  }

  // So has the recipient of each system message.
  lemma RecipientsExist(run: seq<State>, actions: seq<Action>, i: nat, k: (string, int))
    requires IsRun(run, actions) && i < |run| && k in run[i].db.messages
    ensures User(k.0) in run[i].db.rows
  {
    RunOwned(run, actions, i);
    assert 1 <= k.1 <= LastMessage(run[i].db, k.0);
    assert MessageLock(k.0) in run[i].db.rows;
    assert OwnerRow(MessageLock(k.0)) == Some(User(k.0));
  }
}
