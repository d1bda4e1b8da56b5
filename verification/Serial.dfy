/** Settings writers among other transactions. What a committed writer has done
    to the tables is what its statements do alone on the tables it commits on,
    however many transactions came and went between them; only a delete that
    found nothing, and so took no lock, can be overtaken. */
module Serial {
  import opened Basics
  import opened StoreModel
  import opened StoreInvariant
  import opened StoreSteps
  import opened StoreHistory
  import opened StoreOwners
  import opened Alone
  import opened Statements

  // ----- One writer among others -----

  // Everything the transaction has written but the log counter.
  function Data(tx: Tx): map<RowId, Option<Row>> {
    tx.writes - {Sequence(EventLogCounter)}
  }

  // The statements of ops it has run.
  function Done(tx: Tx, ops: seq<Write>): seq<Write> {
    if tx.at.Writing? && |tx.at.ops| <= |ops| then ops[..|ops| - |tx.at.ops|] else ops
  }

  predicate Runs(tx: Tx, ops: seq<Write>) {
    match tx.at
    case Writing(rest, _) => |rest| <= |ops| && rest == ops[|ops| - |rest|..]
    case Appending(_, _, _) => true
    case _ => false
  }

  // What a writer has done so far, in terms of the tables as they are now.
  predicate PutsSoFar(db: Db, tx: Tx, ops: seq<Write>) {
    Runs(tx, ops) && (Data(tx), tx.at.events) == Effect(db, Done(tx, ops))
  }

  // done has removed the rows in writes and collected these events.
  predicate Removes(db: Db, writes: map<RowId, Option<Row>>, events: seq<Event>, done: seq<Write>) {
    && writes == Gone(writes.Keys)
    && writes.Keys <= TargetSet(done) && writes.Keys <= db.rows.Keys
    && events == RemovedEvents(done, writes.Keys)
  }

  predicate RemovalsSoFar(db: Db, tx: Tx, ops: seq<Write>) {
    Runs(tx, ops) && Removes(db, Data(tx), tx.at.events, Done(tx, ops))
  }

  lemma NextDone(tx: Tx, ops: seq<Write>)
    requires Runs(tx, ops) && tx.at.Writing? && tx.at.ops != []
    ensures tx.at.ops[0] in ops && tx.at.ops[1..] == ops[|ops| - |tx.at.ops| + 1..]
    ensures Done(tx, ops) + [tx.at.ops[0]] == ops[..|ops| - |tx.at.ops| + 1]
  {
    assert tx.at.ops[0] == ops[|ops| - |tx.at.ops|];
  }

  // The end of the statements, the counter and the log loop change neither
  // the data rows nor the events.
  lemma LoggingKeeps(db: Db, tx: Tx, ops: seq<Write>)
    requires TxOk(db, tx) && Runs(tx, ops) && !Ready(tx) && Exec(db, tx).Continue?
    requires tx.at.Appending? || tx.at.ops == []
    ensures var next := Exec(db, tx).tx;
      Runs(next, ops) && Data(next) == Data(tx) && next.at.events == tx.at.events && Done(next, ops) == Done(tx, ops)
  {
    var next := Exec(db, tx).tx;
    assert next.writes == tx.writes || next.writes == tx.writes[Sequence(EventLogCounter) := next.writes[Sequence(EventLogCounter)]];
  }

  lemma NoCounterYet(db: Db, tx: Tx)
    requires TxOk(db, tx) && tx.at.Writing?
    ensures Data(tx) == tx.writes
  {
  }

  lemma OwnStepPuts(db: Db, tx: Tx, ops: seq<Write>)
    requires TxOk(db, tx) && !Ready(tx) && Exec(db, tx).Continue? && TxOk(db, Exec(db, tx).tx)
    requires PutsSoFar(db, tx, ops)
    ensures PutsSoFar(db, Exec(db, tx).tx, ops)
  {
    if tx.at.Writing? && tx.at.ops != [] {
      NextDone(tx, ops);
      NoCounterYet(db, tx);
      OwnWrite(db, tx, Done(tx, ops));
      NoCounterYet(db, Exec(db, tx).tx);
    } else {
      LoggingKeeps(db, tx, ops);
    }
  }

  lemma OwnStepRemovals(db: Db, tx: Tx, ops: seq<Write>)
    requires TxOk(db, tx) && !Ready(tx) && Exec(db, tx).Continue? && TxOk(db, Exec(db, tx).tx)
    requires RemovalProgram(ops) && RemovalsSoFar(db, tx, ops)
    ensures RemovalsSoFar(db, Exec(db, tx).tx, ops)
  {
    if tx.at.Writing? && tx.at.ops != [] {
      NextDone(tx, ops);
      NoCounterYet(db, tx);
      NoCounterYet(db, Exec(db, tx).tx);
      OwnRemoval(db, tx, ops);
    } else {
      LoggingKeeps(db, tx, ops);
    }
  }

  lemma OwnRemoval(db: Db, tx: Tx, ops: seq<Write>)
    requires RemovalProgram(ops) && RemovalsSoFar(db, tx, ops) && Data(tx) == tx.writes
    requires tx.at.Writing? && tx.at.ops != []
    requires Data(Exec(db, tx).tx) == Exec(db, tx).tx.writes
    ensures RemovalsSoFar(db, Exec(db, tx).tx, ops)
  {
    NextDone(tx, ops);
    PrefixProgram(ops, |Done(tx, ops)| + 1);
    NextRemoves(db, tx, Done(tx, ops));
    RunsNext(tx, Exec(db, tx).tx, ops);
  }

  lemma NextRemoves(db: Db, tx: Tx, done: seq<Write>)
    requires tx.at.Writing? && tx.at.ops != [] && RemovalProgram(done + [tx.at.ops[0]])
    requires Removes(db, tx.writes, tx.at.events, done)
    ensures var next := Exec(db, tx).tx;
      next.at.Writing? && next.at.ops == tx.at.ops[1..] && Removes(db, next.writes, next.at.events, done + [tx.at.ops[0]])
  {
    var op := tx.at.ops[0];
    assert (done + [op])[|done|] == op;
    RemovalStep(db, tx, op);
    RemovesOneMore(db, tx.writes, tx.at.events, done, op);
  }

  lemma RunsNext(tx: Tx, next: Tx, ops: seq<Write>)
    requires Runs(tx, ops) && tx.at.Writing? && tx.at.ops != []
    requires next.at.Writing? && next.at.ops == tx.at.ops[1..]
    ensures Runs(next, ops) && Done(next, ops) == Done(tx, ops) + [tx.at.ops[0]]
  {
    NextDone(tx, ops);
  }

  lemma RemovesOneMore(db: Db, writes: map<RowId, Option<Row>>, events: seq<Event>, done: seq<Write>, op: Write)
    requires RemovalProgram(done + [op]) && Removes(db, writes, events, done)
    ensures if Target(op) in db.rows && Target(op) !in writes
      then Removes(db, writes[Target(op) := None], events + [RemovalOf(op)], done + [op])
      else Removes(db, writes, events, done + [op])
  {
    TargetsOneMore(done, op);
    EventsOneMore(done, op, writes.Keys);
    if Target(op) in db.rows && Target(op) !in writes {
      LateRemoval(done, op, writes.Keys);
      GoneOneMore(writes.Keys, Target(op));
      assert writes[Target(op) := None].Keys == writes.Keys + {Target(op)};
    }
  }

  lemma RemovalStep(db: Db, tx: Tx, op: Write)
    requires tx.at.Writing? && tx.at.ops != [] && op == tx.at.ops[0] && IsRemoval(op)
    requires forall r :: r in tx.writes ==> tx.writes[r].None?
    ensures var next := Exec(db, tx);
      var found := Target(op) in db.rows && Target(op) !in tx.writes;
      && next.Continue?
      && next.tx.at == Writing(tx.at.ops[1..], tx.at.events + if found then [RemovalOf(op)] else [])
      && next.tx.writes == if found then tx.writes[Target(op) := None] else tx.writes
  {
    OneRemoval(db, tx.writes, op);
    assert View(db, tx, Target(op)) == View(db, Wrote(tx.writes), Target(op));
  }

  lemma PrefixProgram(ops: seq<Write>, n: nat)
    requires RemovalProgram(ops) && n <= |ops|
    ensures RemovalProgram(ops[..n])
  {
  }

  // ----- The others -----

  lemma OthersLeave(s: State, a: Action, t: nat)
    requires Owned(s) && Enabled(s, a) && t in s.txs && t in Next(s, a).txs && !(a.Execute? && a.t == t)
    ensures Next(s, a).txs[t] == s.txs[t]
    ensures LeavesRows(s.db, Next(s, a).db, s.txs[t].writes.Keys)
  {
    match a
    case Commit(u) =>
      CommitKeepsUsers(s.db, s.txs[u]);
      assert TxOk(s.db, s.txs[u]) && TxOk(s.db, s.txs[t]);
      assert s.txs[u].writes.Keys !! s.txs[t].writes.Keys;
      CommitUndisturbed(s.db, s.txs[u], s.txs[t]);
    case SweepInbox(ids) => SweepUndisturbed(s, ids, t);
    case _ =>
  }

  lemma PutsFramed(db: Db, db': Db, tx: Tx, ops: seq<Write>)
    requires NoRemovals(ops) && PutsSoFar(db, tx, ops) && LeavesRows(db, db', tx.writes.Keys)
    ensures PutsSoFar(db', tx, ops)
  {
    PutsAreStable(db, db', Done(tx, ops));
  }

  lemma RemovalsFramed(db: Db, db': Db, tx: Tx, ops: seq<Write>)
    requires RemovalsSoFar(db, tx, ops) && LeavesRows(db, db', tx.writes.Keys)
    ensures RemovalsSoFar(db', tx, ops)
  {
    forall r | r in Data(tx) ensures r in db'.rows {
      assert Get(db'.rows, r) == Get(db.rows, r);
    }
  }

  predicate SoFar(s: State, t: nat, ops: seq<Write>) {
    t in s.txs && if NoRemovals(ops) then PutsSoFar(s.db, s.txs[t], ops) else RemovalsSoFar(s.db, s.txs[t], ops)
  }

  lemma StepSoFar(s: State, a: Action, s': State, t: nat, ops: seq<Write>)
    requires Owned(s) && Owned(s') && Enabled(s, a) && s' == Next(s, a) && t in s'.txs
    requires (NoRemovals(ops) || RemovalProgram(ops)) && SoFar(s, t, ops)
    ensures SoFar(s', t, ops)
  {
    if a.Execute? && a.t == t {
      assert TxOk(s.db, s.txs[t]) && TxOk(s'.db, s'.txs[t]);
      if NoRemovals(ops) {
        OwnStepPuts(s.db, s.txs[t], ops);
      } else {
        OwnStepRemovals(s.db, s.txs[t], ops);
      }
    } else {
      OthersLeave(s, a, t);
      if NoRemovals(ops) {
        PutsFramed(s.db, s'.db, s.txs[t], ops);
      } else {
        RemovalsFramed(s.db, s'.db, s.txs[t], ops);
      }
    }
  }

  // ----- Over a run -----

  // t begins its program at step b and commits it at step c.
  predicate Commits(run: seq<State>, actions: seq<Action>, b: nat, c: nat, t: nat, at: Point) {
    && |run| == |actions| + 1 && b < c < |actions|
    && actions[b] == Begin(t, at) && actions[c] == Commit(t)
    && forall k :: b < k <= c ==> t in run[k].txs
  }

  lemma StepAt(run: seq<State>, actions: seq<Action>, k: nat)
    requires IsRun(run, actions) && k < |actions|
    ensures Enabled(run[k], actions[k]) && run[k + 1] == Next(run[k], actions[k])
  {
  }

  // The four statement lists either only put or only delete.
  lemma ProgramKinds(ops: seq<Write>)
    requires Starts(Writing(ops, []))
    ensures NoRemovals(ops) || RemovalProgram(ops)
    ensures DataTargets(ops)
  {
    if SetProgram(ops) {
      forall i | 0 <= i < |ops| ensures Target(ops[i]).User? || Target(ops[i]).Prop? {
        if i > 0 {
          assert ops[1..][i - 1] == ops[i];
          assert Target(ops[1..][i - 1]).Prop?;
        }
      }
    } else if owner :| UnsetProgram(ops, owner) {
      UnsetIsGrouped(ops, owner);
    }
  }

  lemma UnsetIsGrouped(ops: seq<Write>, owner: string)
    requires UnsetProgram(ops, owner)
    ensures RemovalProgram(ops)
  {
    var rows := Targets(ops);
    forall i, j, k | 0 <= i < j < k < |ops| && Target(ops[i]) == Target(ops[k]) ensures Target(ops[j]) == Target(ops[i]) {
      assert rows[i] == Target(ops[i]) && rows[j] == Target(ops[j]) && rows[k] == Target(ops[k]);
      TextLessTotal(rows[i].application, rows[j].application);
      TextLessTotal(rows[i].key, rows[j].key);
    }
  }

  lemma JustBegun(s: State, t: nat, ops: seq<Write>)
    requires Enabled(s, Begin(t, Writing(ops, [])))
    ensures SoFar(Next(s, Begin(t, Writing(ops, []))), t, ops)
  {
    var tx := Opened(Writing(ops, []));
    assert Done(tx, ops) == [] && ops[0..] == ops;
    assert Data(tx) == map[] == Gone({});
  }

  lemma RunSoFar(run: seq<State>, actions: seq<Action>, b: nat, c: nat, t: nat, ops: seq<Write>)
    requires IsRun(run, actions) && Commits(run, actions, b, c, t, Writing(ops, []))
    ensures SoFar(run[c], t, ops)
  {
    var ok := seq(|run|, k requires 0 <= k < |run| => SoFar(run[k], t, ops));
    StepAt(run, actions, b);
    ProgramKinds(ops);
    JustBegun(run[b], t, ops);
    forall k | b + 1 <= k < c && ok[k] ensures ok[k + 1] {
      NextSoFar(run, actions, k, t, ops);
    }
    Stays(ok, b + 1, c);
  }

  lemma NextSoFar(run: seq<State>, actions: seq<Action>, k: nat, t: nat, ops: seq<Write>)
    requires IsRun(run, actions) && k < |actions| && t in run[k + 1].txs
    requires (NoRemovals(ops) || RemovalProgram(ops)) && SoFar(run[k], t, ops)
    ensures SoFar(run[k + 1], t, ops)
  {
    RunOwned(run, actions, k);
    RunOwned(run, actions, k + 1);
    StepAt(run, actions, k);
    StepSoFar(run[k], actions[k], run[k + 1], t, ops);
  }

  // ----- The commit -----

  // A settings commit: its data rows, then its events in the log.
  lemma CommittedIs(db: Db, tx: Tx)
    requires CountersExist(db) && TxOk(db, tx) && Ready(tx) && (tx.at.Writing? || tx.at.Appending?)
    ensures Committed(db, tx) == WithLog(db.(rows := Merge(db.rows, Data(tx))), tx.at.events)
  {
    var data := Data(tx);
    MergeGet(db.rows, data, Sequence(EventLogCounter));
    if tx.at.Writing? {
      NoCounterYet(db, tx);
      CommittedTables(db, tx);
    } else {
      assert tx.at.events[..tx.at.i] == tx.at.events;
      assert tx.writes == data[Sequence(EventLogCounter) := tx.writes[Sequence(EventLogCounter)]];
      CommittedLog(db, Wrote(data), tx, tx.at.events);
    }
  }

  // A delete found nothing when it ran, and its row is there now.
  predicate Missed(db: Db, tx: Tx, ops: seq<Write>) {
    exists i :: 0 <= i < |ops| && IsRemoval(ops[i]) && Target(ops[i]) in db.rows && Target(ops[i]) !in tx.writes
  }

  lemma PutsCommit(db: Db, tx: Tx, ops: seq<Write>)
    requires CountersExist(db) && LogBelowCounter(db) && DataTargets(ops) && NoRemovals(ops)
    requires TxOk(db, tx) && Ready(tx) && PutsSoFar(db, tx, ops)
    ensures Some(Committed(db, tx)) == CommitAlone(db, Writing(ops, []))
  {
    assert Done(tx, ops) == ops;
    CommittedIs(db, tx);
    AloneIs(db, ops);
  }

  // The tables without these rows, one event logged for each.
  function Without(db: Db, ops: seq<Write>, removed: set<RowId>): Db {
    WithLog(db.(rows := db.rows - removed), RemovedEvents(ops, removed))
  }

  lemma MergeGone(rows: map<RowId, Row>, removed: set<RowId>)
    ensures Merge(rows, Gone(removed)) == rows - removed
  {
  }

  // A committed writer of deletes has removed exactly the rows its events
  // name, each of which was there.
  lemma RemovalsCommit(db: Db, tx: Tx, ops: seq<Write>)
    requires CountersExist(db) && TxOk(db, tx) && Ready(tx) && RemovalsSoFar(db, tx, ops)
    ensures Data(tx).Keys <= TargetSet(ops) * db.rows.Keys
    ensures Committed(db, tx) == Without(db, ops, Data(tx).Keys)
  {
    assert Done(tx, ops) == ops;
    CommittedIs(db, tx);
    MergeGone(db.rows, Data(tx).Keys);
  }

  lemma RemovesAlone(db: Db, ops: seq<Write>)
    requires LogBelowCounter(db) && DataTargets(ops) && forall i :: 0 <= i < |ops| ==> IsRemoval(ops[i])
    ensures CommitAlone(db, Writing(ops, [])) == Some(Without(db, ops, TargetSet(ops) * db.rows.Keys))
  {
    RemovalsAlone(db, ops);
    AloneIs(db, ops);
    MergeGone(db.rows, TargetSet(ops) * db.rows.Keys);
  }

  lemma WithoutRows(db: Db, ops: seq<Write>, removed: set<RowId>, r: RowId)
    requires r != Sequence(EventLogCounter)
    ensures r in Without(db, ops, removed).rows <==> r in db.rows && r !in removed
  {
  }

  lemma MissedMeans(db: Db, tx: Tx, ops: seq<Write>)
    requires DataTargets(ops) && forall i :: 0 <= i < |ops| ==> IsRemoval(ops[i])
    requires Data(tx).Keys <= TargetSet(ops) * db.rows.Keys
    ensures Missed(db, tx, ops) <==> Data(tx).Keys != TargetSet(ops) * db.rows.Keys
  {
    if !Missed(db, tx, ops) {
      forall r | r in TargetSet(ops) * db.rows.Keys ensures r in Data(tx) {
        var i :| 0 <= i < |ops| && Target(ops[i]) == r;
        assert IsRemoval(ops[i]);
      }
    } else {
      var i :| 0 <= i < |ops| && IsRemoval(ops[i]) && Target(ops[i]) in db.rows && Target(ops[i]) !in tx.writes;
      assert Target(ops[i]) in TargetSet(ops) * db.rows.Keys && Target(ops[i]) !in Data(tx).Keys;
    }
  }

  lemma RemovalsCommitIff(db: Db, tx: Tx, ops: seq<Write>)
    requires CountersExist(db) && LogBelowCounter(db) && DataTargets(ops) && RemovalProgram(ops)
    requires TxOk(db, tx) && Ready(tx) && RemovalsSoFar(db, tx, ops)
    ensures Some(Committed(db, tx)) == CommitAlone(db, Writing(ops, [])) <==> !Missed(db, tx, ops)
  {
    RemovalsCommit(db, tx, ops);
    RemovesAlone(db, ops);
    MissedMeans(db, tx, ops);
    WithoutDiffers(db, ops, Data(tx).Keys, TargetSet(ops) * db.rows.Keys);
  }

  lemma WithoutDiffers(db: Db, ops: seq<Write>, removed: set<RowId>, found: set<RowId>)
    requires DataTargets(ops) && removed <= found && found == TargetSet(ops) * db.rows.Keys
    ensures Without(db, ops, removed) == Without(db, ops, found) <==> removed == found
  {
    if removed != found {
      var r :| r in found && r !in removed;
      WithoutRows(db, ops, removed, r);
      WithoutRows(db, ops, found, r);
    }
  }

  /** A committed settings writer has done what its statements do alone on the
      tables it commits on, whatever ran and committed between them, exactly
      unless a row that a delete of its missed is there by then. Puts miss
      nothing. */
  lemma SettingsWritesAreSerial(run: seq<State>, actions: seq<Action>, b: nat, c: nat, t: nat, ops: seq<Write>)
    requires IsRun(run, actions) && Commits(run, actions, b, c, t, Writing(ops, []))
    ensures Some(run[c + 1].db) == CommitAlone(run[c].db, Writing(ops, [])) <==> !Missed(run[c].db, run[c].txs[t], ops)
  {
    RunSoFar(run, actions, b, c, t, ops);
    StepAt(run, actions, b);
    StepAt(run, actions, c);
    ProgramKinds(ops);
    RunOwned(run, actions, c);
    ReachableTables(run, actions, c, "");
    var db, tx := run[c].db, run[c].txs[t];
    assert TxOk(db, tx);
    if NoRemovals(ops) {
      PutsCommit(db, tx, ops);
    } else {
      RemovalsCommitIff(db, tx, ops);
    }
  }

  // ----- The four methods -----

  lemma OnlyUpdates(doc: RowId, content: string, author: string)
    requires Starts(UpdatePoint(doc, content, author))
    ensures doc.Doc? && NoRemovals([EnsureUser(OwnerOf(doc))] + [PutDocument(doc, content, author)])
  {
    var ops := UpdatePoint(doc, content, author).ops;
    assert ops[0] == EnsureUser(OwnerOf(doc)) && ops[1] == PutDocument(doc, content, author);
  }

  /** UpdateDocument: a committed update leaves its content at the next version
      of the document it commits on, and logs that. */
  lemma UpdateCommits(run: seq<State>, actions: seq<Action>, b: nat, c: nat, t: nat, doc: RowId, content: string, author: string)
    requires IsRun(run, actions) && Commits(run, actions, b, c, t, UpdatePoint(doc, content, author))
    ensures run[c + 1].db == WithDocument(run[c].db, doc, content, author)
  {
    var ops := [EnsureUser(OwnerOf(doc))] + [PutDocument(doc, content, author)];
    StepAt(run, actions, b);
    OnlyUpdates(doc, content, author);
    ReachableTables(run, actions, c, "");
    SettingsWritesAreSerial(run, actions, b, c, t, ops);
    UpdateAlone(run[c].db, doc, content, author);
  }

  /** SetProperties: a committed call has merged its values into the properties
      it commits on, in its order, and logged each. */
  lemma SetCommits(run: seq<State>, actions: seq<Action>, b: nat, c: nat, t: nat, owner: string, updates: seq<PropertyUpdate>)
    requires IsRun(run, actions) && Commits(run, actions, b, c, t, SetPoint(owner, updates))
    ensures run[c + 1].db == WithProperties(run[c].db, owner, updates)
  {
    var ops := [EnsureUser(owner)] + PutOps(owner, updates);
    ReachableTables(run, actions, c, "");
    SettingsWritesAreSerial(run, actions, b, c, t, ops);
    assert NoRemovals(ops);
    SetAlone(run[c].db, owner, updates);
  }

  // The listed properties a call found and deleted.
  function Deleted(tx: Tx): set<RowId> {
    Data(tx).Keys
  }

  /** DeleteProperties: a committed call has removed rows of its list and logged
      one event for each of them. It has removed all that are listed, as the
      method means it, exactly if no listed row it did not remove is there when
      it commits. */
  lemma UnsetCommits(run: seq<State>, actions: seq<Action>, b: nat, c: nat, t: nat, owner: string, deletes: seq<PropertyDelete>)
    requires IsRun(run, actions) && Commits(run, actions, b, c, t, UnsetPoint(owner, deletes))
    ensures var db, removed := run[c].db, Deleted(run[c].txs[t]);
      && removed <= db.rows.Keys
      && run[c + 1].db == Without(db, RemoveOps(owner, deletes), removed)
      && (run[c + 1].db == WithoutProperties(db, owner, deletes) <==>
            forall d :: d in deletes && Prop(owner, d.application, d.key) in db.rows ==> Prop(owner, d.application, d.key) in removed)
  {
    DeletesCommit(run, actions, b, c, t, RemoveOps(owner, deletes));
    UnsetAlone(run[c].db, owner, deletes);
    MissedDeletes(run[c].db, run[c].txs[t], owner, deletes);
  }

  lemma DeletesCommit(run: seq<State>, actions: seq<Action>, b: nat, c: nat, t: nat, ops: seq<Write>)
    requires IsRun(run, actions) && Commits(run, actions, b, c, t, Writing(ops, []))
    requires forall i :: 0 <= i < |ops| ==> IsRemoval(ops[i])
    ensures LogBelowCounter(run[c].db)
    ensures var db, removed := run[c].db, Deleted(run[c].txs[t]);
      && removed <= TargetSet(ops) * db.rows.Keys
      && run[c + 1].db == Without(db, ops, removed)
    ensures Some(run[c + 1].db) == CommitAlone(run[c].db, Writing(ops, [])) <==> !Missed(run[c].db, run[c].txs[t], ops)
  {
    SettingsWritesAreSerial(run, actions, b, c, t, ops);
    ReachableTables(run, actions, c, "");
    StepAt(run, actions, c);
    RunOwned(run, actions, c);
    assert TxOk(run[c].db, run[c].txs[t]);
    RunRemovals(run, actions, b, c, t, ops);
    RemovalsCommit(run[c].db, run[c].txs[t], ops);
  }

  lemma RunRemovals(run: seq<State>, actions: seq<Action>, b: nat, c: nat, t: nat, ops: seq<Write>)
    requires IsRun(run, actions) && Commits(run, actions, b, c, t, Writing(ops, []))
    requires forall i :: 0 <= i < |ops| ==> IsRemoval(ops[i])
    ensures RemovalsSoFar(run[c].db, run[c].txs[t], ops)
  {
    RunSoFar(run, actions, b, c, t, ops);
    if ops == [] {
      assert Done(run[c].txs[t], ops) == [] && Data(run[c].txs[t]) == map[] == Gone({});
    }
  }

  lemma MissedDeletes(db: Db, tx: Tx, owner: string, deletes: seq<PropertyDelete>)
    ensures !Missed(db, tx, RemoveOps(owner, deletes)) <==>
      forall d :: d in deletes && Prop(owner, d.application, d.key) in db.rows ==> Prop(owner, d.application, d.key) in Deleted(tx)
  {
    var ops := RemoveOps(owner, deletes);
    forall d | d in deletes && Prop(owner, d.application, d.key) in db.rows && !Missed(db, tx, ops)
      ensures Prop(owner, d.application, d.key) in Deleted(tx)
    {
      var i :| 0 <= i < |deletes| && deletes[i] == d;
      assert Target(ops[i]) == Prop(owner, d.application, d.key);
    }
    if i :| 0 <= i < |ops| && IsRemoval(ops[i]) && Target(ops[i]) in db.rows && Target(ops[i]) !in tx.writes {
      assert deletes[i] in deletes;
    }
  }

  /** DeleteDocument: a committed call has removed the document and logged that,
      or found none; and it left one behind exactly if it found none and one is
      there when it commits. */
  lemma DeleteCommits(run: seq<State>, actions: seq<Action>, b: nat, c: nat, t: nat, doc: RowId, author: string)
    requires IsRun(run, actions) && Commits(run, actions, b, c, t, Writing([RemoveDocument(doc, author)], []))
    ensures run[c + 1].db == WithoutDocument(run[c].db, doc, author) || run[c + 1].db == run[c].db
    ensures run[c + 1].db == WithoutDocument(run[c].db, doc, author) <==>
      (doc in run[c].db.rows ==> doc in Deleted(run[c].txs[t]))
  {
    var ops := [RemoveDocument(doc, author)];
    StepAt(run, actions, b);
    assert doc.Doc?;
    DeletesCommit(run, actions, b, c, t, ops);
    DeleteAlone(run[c].db, doc, author);
    assert ops[0] == RemoveDocument(doc, author);
    assert Missed(run[c].db, run[c].txs[t], ops) <==> doc in run[c].db.rows && doc !in run[c].txs[t].writes;
    OneDelete(run[c].db, Deleted(run[c].txs[t]), doc, author);
  }

  lemma OneDelete(db: Db, removed: set<RowId>, doc: RowId, author: string)
    requires removed <= TargetSet([RemoveDocument(doc, author)]) * db.rows.Keys
    ensures var after := Without(db, [RemoveDocument(doc, author)], removed);
      if doc in removed then after == WithoutDocument(db, doc, author) else after == db
  {
    var ops := [RemoveDocument(doc, author)];
    assert ops == [] + ops && TargetSet([]) == {};
    TargetsOneMore([], ops[0]);
    EventsOneMore([], ops[0], removed);
    if doc in removed {
      assert removed == {doc};
    } else {
      assert removed == {} && db.rows - removed == db.rows;
    }
  }

  // ----- System messages -----

  // The recipient's user row is written or there already, and nothing else is
  // locked but the recipient's number.
  predicate HasUser(db: Db, tx: Tx, recipient: string) {
    && (forall r :: r in tx.writes ==> r == User(recipient) || r == MessageLock(recipient))
    && if User(recipient) in tx.writes then tx.writes[User(recipient)] == Some(UserRow) && User(recipient) !in db.rows
       else User(recipient) in db.rows
  }

  predicate PushSoFar(db: Db, tx: Tx, recipient: string, message: Message) {
    match tx.at
    case MessageUser(to, m) => to == recipient && m == message && tx.writes == map[]
    case MessageNumber(to, m) => to == recipient && m == message && HasUser(db, tx, recipient)
    case MessageInsert(to, _, m) => to == recipient && m == message && HasUser(db, tx, recipient)
    case MessageDone(to, _, m) => to == recipient && m == message && HasUser(db, tx, recipient)
    case _ => false
  }

  lemma OwnStepPush(db: Db, tx: Tx, recipient: string, message: Message)
    requires TxOk(db, tx) && !Ready(tx) && Exec(db, tx).Continue? && PushSoFar(db, tx, recipient, message)
    ensures PushSoFar(db, Exec(db, tx).tx, recipient, message)
  {
  }

  lemma PushFramed(db: Db, db': Db, tx: Tx, recipient: string, message: Message)
    requires PushSoFar(db, tx, recipient, message) && LeavesRows(db, db', tx.writes.Keys)
    ensures PushSoFar(db', tx, recipient, message)
  {
    if User(recipient) in tx.writes {
      assert Get(db'.rows, User(recipient)) == Get(db.rows, User(recipient));
    }
  }

  lemma NextPush(run: seq<State>, actions: seq<Action>, k: nat, t: nat, recipient: string, message: Message)
    requires IsRun(run, actions) && k < |actions| && t in run[k].txs && t in run[k + 1].txs
    requires PushSoFar(run[k].db, run[k].txs[t], recipient, message)
    ensures PushSoFar(run[k + 1].db, run[k + 1].txs[t], recipient, message)
  {
    var s, a := run[k], actions[k];
    RunOwned(run, actions, k);
    StepAt(run, actions, k);
    if a.Execute? && a.t == t {
      assert TxOk(s.db, s.txs[t]);
      OwnStepPush(s.db, s.txs[t], recipient, message);
    } else {
      OthersLeave(s, a, t);
      PushFramed(s.db, run[k + 1].db, s.txs[t], recipient, message);
    }
  }

  lemma PushCommit(db: Db, tx: Tx, recipient: string, message: Message)
    requires TxOk(db, tx) && Ready(tx) && PushSoFar(db, tx, recipient, message)
    ensures Committed(db, tx) == WithMessage(db, recipient, message)
  {
    var next := LastMessage(db, recipient) + 1;
    assert tx.writes[MessageLock(recipient)] == Some(CountRow(next));
    assert Merge(db.rows, tx.writes) == WithUser(db.rows, recipient)[MessageLock(recipient) := CountRow(next)];
    MessageTables(db, recipient, message, tx);
  }

  /** InsertMessage: a committed push has stored its message under the number
      after its recipient's last, as of the tables it commits on. */
  lemma MessageCommits(run: seq<State>, actions: seq<Action>, b: nat, c: nat, t: nat, recipient: string, message: Message)
    requires IsRun(run, actions) && Commits(run, actions, b, c, t, MessageUser(recipient, message))
    ensures run[c + 1].db == WithMessage(run[c].db, recipient, message)
  {
    var ok := seq(|run|, k requires 0 <= k < |run| =>
      t in run[k].txs && PushSoFar(run[k].db, run[k].txs[t], recipient, message));
    StepAt(run, actions, b);
    forall k | b + 1 <= k < c && ok[k] ensures ok[k + 1] {
      NextPush(run, actions, k, t, recipient, message);
    }
    Stays(ok, b + 1, c);
    StepAt(run, actions, c);
    RunOwned(run, actions, c);
    assert TxOk(run[c].db, run[c].txs[t]);
    PushCommit(run[c].db, run[c].txs[t], recipient, message);
  }

  // ----- Marking and hiding -----

  // The message is addressed to one of the reader's owners.
  predicate Addressed(db: Db, reader: Reader, id: int) {
    id in db.inbox && db.inbox[id].recipient in reader.owners
  }

  // The lookup refuses whatever is not there or not the reader's, and nothing
  // else.
  lemma LookupMeans(db: Db, tx: Tx, reader: Reader, id: int, change: Change)
    requires tx.at == StateLookup(reader, id, change)
    ensures Exec(db, tx) ==
      if Addressed(db, reader, id) then Continue(tx.(at := StateWrite(reader.subject, id, change))) else Refuse(NotFound)
  {
  }

  // Its place, and after the lookup a message that was the reader's and still
  // is if it is there.
  predicate ChangeSoFar(db: Db, tx: Tx, reader: Reader, id: int, change: Change) {
    match tx.at
    case StateLookup(who, which, what) => who == reader && which == id && what == change
    case StateWrite(who, which, what) =>
      who == reader.subject && which == id && what == change && (id in db.inbox ==> Addressed(db, reader, id)) && id <= Count(db, InboxCounter)
    case StateDone(who, which, what) =>
      who == reader.subject && which == id && what == change && (id in db.inbox ==> Addressed(db, reader, id)) && id <= Count(db, InboxCounter)
    case _ => false
  }

  lemma NextChange(run: seq<State>, actions: seq<Action>, k: nat, t: nat, reader: Reader, id: int, change: Change)
    requires IsRun(run, actions) && k < |actions| && t in run[k].txs && t in run[k + 1].txs
    requires ChangeSoFar(run[k].db, run[k].txs[t], reader, id, change)
    ensures ChangeSoFar(run[k + 1].db, run[k + 1].txs[t], reader, id, change)
  {
    var s, a := run[k], actions[k];
    RunOwned(run, actions, k);
    StepAt(run, actions, k);
    if a.Execute? && a.t == t {
      if s.txs[t].at.StateLookup? {
        LookupMeans(s.db, s.txs[t], reader, id, change);
      }
    } else {
      OthersLeave(s, a, t);
      StepLater(s, a);
    }
  }

  /** SetInboxMessageRead and HideInboxMessage: a committed call has changed the
      reader's own row of a message that is addressed to the reader and there,
      and nothing else. */
  lemma ChangeCommits(run: seq<State>, actions: seq<Action>, b: nat, c: nat, t: nat, reader: Reader, id: int, change: Change)
    requires IsRun(run, actions) && Commits(run, actions, b, c, t, StateLookup(reader, id, change))
    ensures Addressed(run[c].db, reader, id)
    ensures var r := ReadState(id, reader.subject);
      run[c + 1].db == run[c].db.(rows := run[c].db.rows[r := Changed(Get(run[c].db.rows, r), change)])
  {
    var ok := seq(|run|, k requires 0 <= k < |run| => t in run[k].txs && ChangeSoFar(run[k].db, run[k].txs[t], reader, id, change));
    StepAt(run, actions, b);
    forall k | b + 1 <= k < c && ok[k] ensures ok[k + 1] {
      NextChange(run, actions, k, t, reader, id, change);
    }
    Stays(ok, b + 1, c);
    StepAt(run, actions, c);
    RunOwned(run, actions, c);
    ChangeCommit(run[c].db, run[c].txs[t]);
  }

  lemma ChangeCommit(db: Db, tx: Tx)
    requires TxOk(db, tx) && tx.at.StateDone?
    ensures var r := ReadState(tx.at.id, tx.at.subject);
      Committed(db, tx) == db.(rows := db.rows[r := Changed(Get(db.rows, r), tx.at.change)])
    ensures tx.at.id in db.inbox
  {
    var r := ReadState(tx.at.id, tx.at.subject);
    CommittedTables(db, tx);
    MergeNothing(db.rows);
    MergePut(db.rows, map[], r, Changed(Get(db.rows, r), tx.at.change));
  }
}
