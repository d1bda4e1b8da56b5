/** What a settings writer's list of row statements does to fixed tables: the
    rows it writes, the events it collects, and what of that stays true while
    other transactions change other rows. */
module Statements {
  import opened Basics
  import opened StoreModel
  import opened Alone

  // ----- A statement list on fixed tables -----

  // A transaction that has written these rows.
  function Wrote(writes: map<RowId, Option<Row>>): Tx {
    Opened(Writing([], [])).(writes := writes)
  }

  // The rows a list of statements writes and the events it collects.
  function Effect(db: Db, ops: seq<Write>): (map<RowId, Option<Row>>, seq<Event>) {
    if ops == [] then (map[], [])
    else
      var (writes, events) := Effect(db, ops[..|ops| - 1]);
      var last := ops[|ops| - 1];
      var (write, logged) := ExecWrite(db, Wrote(writes), last);
      (if write.Some? then writes[Target(last) := write.value] else writes, events + logged)
  }

  lemma EffectOneMore(db: Db, done: seq<Write>, op: Write)
    ensures var (writes, events) := Effect(db, done);
      var (write, logged) := ExecWrite(db, Wrote(writes), op);
      Effect(db, done + [op]) == (if write.Some? then writes[Target(op) := write.value] else writes, events + logged)
  {
    assert (done + [op])[..|done|] == done;
  }

  // The next statement of a transaction that has run done.
  lemma OwnWrite(db: Db, tx: Tx, done: seq<Write>)
    requires tx.at.Writing? && tx.at.ops != [] && (tx.writes, tx.at.events) == Effect(db, done)
    ensures var next := Exec(db, tx);
      && next.Continue? && next.tx.at.Writing? && next.tx.at.ops == tx.at.ops[1..]
      && (next.tx.writes, next.tx.at.events) == Effect(db, done + [tx.at.ops[0]])
  {
    EffectOneMore(db, done, tx.at.ops[0]);
    SameWrite(db, tx, tx.at.ops[0]);
  }

  // A statement depends on the rows written only.
  lemma SameWrite(db: Db, tx: Tx, op: Write)
    ensures ExecWrite(db, tx, op) == ExecWrite(db, Wrote(tx.writes), op)
  {
    assert View(db, tx, Target(op)) == View(db, Wrote(tx.writes), Target(op));
  }

  lemma {:induction false} WritesAloneIs(db: Db, tx: Tx, done: seq<Write>)
    requires tx.at.Writing? && (tx.writes, tx.at.events) == Effect(db, done)
    ensures var end := WritesAlone(db, tx); (end.writes, end.at.events) == Effect(db, done + tx.at.ops)
    decreases |tx.at.ops|
  {
    if tx.at.ops == [] {
      assert done + tx.at.ops == done;
    } else {
      OwnWrite(db, tx, done);
      WritesAloneIs(db, Exec(db, tx).tx, done + [tx.at.ops[0]]);
      assert done + [tx.at.ops[0]] + tx.at.ops[1..] == done + tx.at.ops;
    }
  }

  lemma {:induction false} EffectWrites(db: Db, ops: seq<Write>, r: RowId)
    requires r in Effect(db, ops).0
    ensures exists i :: 0 <= i < |ops| && Target(ops[i]) == r
    decreases |ops|
  {
    var before, last := ops[..|ops| - 1], ops[|ops| - 1];
    if r != Target(last) {
      EffectWrites(db, before, r);
      var i :| 0 <= i < |before| && Target(before[i]) == r;
      assert Target(ops[i]) == r;
    } else {
      assert Target(ops[|ops| - 1]) == r;
    }
  }

  predicate DataTargets(ops: seq<Write>) {
    forall i :: 0 <= i < |ops| ==> Target(ops[i]).User? || IsResource(Target(ops[i]))
  }

  // A program run alone, in these terms.
  lemma AloneIs(db: Db, ops: seq<Write>)
    requires LogBelowCounter(db) && DataTargets(ops)
    ensures var (writes, events) := Effect(db, ops);
      CommitAlone(db, Writing(ops, [])) == Some(WithLog(db.(rows := Merge(db.rows, writes)), events))
  {
    var tx := Opened(Writing(ops, []));
    WritesAloneIs(db, tx, []);
    assert [] + ops == ops;
    if Sequence(EventLogCounter) in Effect(db, ops).0 {
      EffectWrites(db, ops, Sequence(EventLogCounter));
    }
    RunsWritesFirst(db, tx);
    WritesKeepInserts(db, tx);
    CommitLogged(db, WritesAlone(db, tx));
  }

  // ----- Statements that lock what they depend on -----

  predicate IsRemoval(op: Write) {
    op.RemoveDocument? || op.RemoveProperty?
  }

  predicate NoRemovals(ops: seq<Write>) {
    forall i :: 0 <= i < |ops| ==> !IsRemoval(ops[i])
  }

  // Other transactions may turn db into db' while these rows are locked.
  ghost predicate LeavesRows(db: Db, db': Db, locked: set<RowId>) {
    && (forall r :: r in locked ==> Get(db'.rows, r) == Get(db.rows, r))
    && (forall sub :: User(sub) in db.rows ==> User(sub) in db'.rows)
  }

  // A put locks its row, and a user found is never deleted.
  lemma {:induction false} PutsAreStable(db: Db, db': Db, ops: seq<Write>)
    requires NoRemovals(ops) && LeavesRows(db, db', Effect(db, ops).0.Keys)
    ensures Effect(db', ops) == Effect(db, ops)
    decreases |ops|
  {
    if ops != [] {
      PutsAreStable(db, db', ops[..|ops| - 1]);
    }
  }

  // ----- Removals -----

  function RemovalOf(op: Write): Event {
    match op
    case RemoveDocument(doc, author) => Event(OwnerOf(doc), Delete, doc, None, author)
    case _ => Event(OwnerOf(Target(op)), Delete, Target(op), None, OwnerOf(Target(op)))
  }

  function TargetSet(ops: seq<Write>): set<RowId> {
    set i | 0 <= i < |ops| :: Target(ops[i])
  }

  // One event for each row that was removed, in the order of the list.
  function RemovedEvents(ops: seq<Write>, removed: set<RowId>): seq<Event> {
    if ops == [] then []
    else
      var before, last := ops[..|ops| - 1], ops[|ops| - 1];
      RemovedEvents(before, removed)
      + if Target(last) in removed && Target(last) !in TargetSet(before) then [RemovalOf(last)] else []
  }

  function Gone(removed: set<RowId>): map<RowId, Option<Row>> {
    map r | r in removed :: None
  }

  // Deletes only, with the deletes of one row next to each other.
  predicate RemovalProgram(ops: seq<Write>) {
    && (forall i :: 0 <= i < |ops| ==> IsRemoval(ops[i]))
    && (forall i, j, k :: 0 <= i < j < k < |ops| && Target(ops[i]) == Target(ops[k]) ==> Target(ops[j]) == Target(ops[i]))
    && (forall i, j :: 0 <= i < j < |ops| && Target(ops[i]) == Target(ops[j]) ==> RemovalOf(ops[i]) == RemovalOf(ops[j]))
  }

  lemma TargetsOneMore(done: seq<Write>, op: Write)
    ensures TargetSet(done + [op]) == TargetSet(done) + {Target(op)}
  {
    var all := done + [op];
    forall r | r in TargetSet(done) + {Target(op)} ensures r in TargetSet(all) {
      if r == Target(op) {
        assert Target(all[|done|]) == r;
      } else {
        var i :| 0 <= i < |done| && Target(done[i]) == r;
        assert Target(all[i]) == r;
      }
    }
    forall r | r in TargetSet(all) ensures r in TargetSet(done) + {Target(op)} {
      var i :| 0 <= i < |all| && Target(all[i]) == r;
      assert i < |done| ==> Target(done[i]) == r;
    }
  }

  lemma EventsOneMore(done: seq<Write>, op: Write, removed: set<RowId>)
    ensures RemovedEvents(done + [op], removed)
         == RemovedEvents(done, removed) + if Target(op) in removed && Target(op) !in TargetSet(done) then [RemovalOf(op)] else []
  {
    assert (done + [op])[..|done|] == done;
  }

  lemma {:induction false} SameEvents(ops: seq<Write>, a: set<RowId>, b: set<RowId>)
    requires a * TargetSet(ops) == b * TargetSet(ops)
    ensures RemovedEvents(ops, a) == RemovedEvents(ops, b)
    decreases |ops|
  {
    if ops != [] {
      var before, last := ops[..|ops| - 1], ops[|ops| - 1];
      assert ops == before + [last];
      TargetsOneMore(before, last);
      forall r | r in TargetSet(before) ensures r in a <==> r in b {
        assert r in TargetSet(ops);
        assert r in a * TargetSet(ops) <==> r in b * TargetSet(ops);
      }
      assert Target(last) in a * TargetSet(ops) <==> Target(last) in b * TargetSet(ops);
      SameEvents(before, a, b);
    }
  }

  lemma Prefix(done: seq<Write>, op: Write)
    requires RemovalProgram(done + [op])
    ensures RemovalProgram(done)
  {
    var all := done + [op];
    assert forall i :: 0 <= i < |done| ==> done[i] == all[i];
  }

  // A row found only now, after a delete of it that missed, is logged once all
  // the same, in its place.
  lemma {:induction false} LateRemoval(done: seq<Write>, op: Write, removed: set<RowId>)
    requires RemovalProgram(done + [op]) && Target(op) !in removed
    ensures RemovedEvents(done + [op], removed + {Target(op)}) == RemovedEvents(done, removed) + [RemovalOf(op)]
    decreases |done|
  {
    var more := removed + {Target(op)};
    EventsOneMore(done, op, more);
    if Target(op) in TargetSet(done) {
      LastIsSame(done, op);
      var before, last := done[..|done| - 1], done[|done| - 1];
      assert done == before + [last];
      LateRemoval(before, last, removed);
      EventsOneMore(before, last, removed);
    } else {
      SameEvents(done, removed, more);
    }
  }

  // Deletes of one row stand next to each other.
  lemma LastIsSame(done: seq<Write>, op: Write)
    requires RemovalProgram(done + [op]) && Target(op) in TargetSet(done)
    ensures done != [] && RemovalProgram(done)
    ensures Target(done[|done| - 1]) == Target(op) && RemovalOf(done[|done| - 1]) == RemovalOf(op)
  {
    var all := done + [op];
    var i :| 0 <= i < |done| && Target(done[i]) == Target(op);
    assert all[i] == done[i] && all[|done| - 1] == done[|done| - 1] && all[|done|] == op;
    Prefix(done, op);
  }

  // Alone, a list of deletes removes what is there of its targets.
  lemma {:induction false} RemovalsAlone(db: Db, ops: seq<Write>)
    requires forall i :: 0 <= i < |ops| ==> IsRemoval(ops[i])
    ensures var found := TargetSet(ops) * db.rows.Keys;
      Effect(db, ops) == (Gone(found), RemovedEvents(ops, found))
    decreases |ops|
  {
    if ops == [] {
      assert Gone(TargetSet(ops) * db.rows.Keys) == map[];
    } else {
      var before, last := ops[..|ops| - 1], ops[|ops| - 1];
      assert ops == before + [last];
      RemovalsAlone(db, before);
      RemovalOneMore(db, before, last);
    }
  }

  lemma RemovalOneMore(db: Db, before: seq<Write>, last: Write)
    requires IsRemoval(last)
    requires var found := TargetSet(before) * db.rows.Keys;
      Effect(db, before) == (Gone(found), RemovedEvents(before, found))
    ensures var found := TargetSet(before + [last]) * db.rows.Keys;
      Effect(db, before + [last]) == (Gone(found), RemovedEvents(before + [last], found))
  {
    var was, found := TargetSet(before) * db.rows.Keys, TargetSet(before + [last]) * db.rows.Keys;
    EffectOneMore(db, before, last);
    OneRemoval(db, Gone(was), last);
    TargetsOneMore(before, last);
    SameEvents(before, was, found);
    EventsOneMore(before, last, found);
    if Target(last) in db.rows && Target(last) !in was {
      GoneOneMore(was, Target(last));
      assert found == was + {Target(last)};
    } else {
      assert found == was;
    }
  }

  lemma GoneOneMore(removed: set<RowId>, r: RowId)
    ensures Gone(removed)[r := None] == Gone(removed + {r})
  {
  }

  // One delete, when the rows in writes have been deleted before.
  lemma OneRemoval(db: Db, writes: map<RowId, Option<Row>>, op: Write)
    requires IsRemoval(op) && forall r :: r in writes ==> writes[r].None?
    ensures ExecWrite(db, Wrote(writes), op)
         == if Target(op) in db.rows && Target(op) !in writes then (Some(None), [RemovalOf(op)]) else (None, [])
  {
  }
}
