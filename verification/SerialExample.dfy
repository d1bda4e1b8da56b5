/** A delete that is overtaken: it finds nothing, so it locks nothing, and the
    document created before it commits stays. */
module SerialExample {
  import opened StoreModel
  import opened StoreSteps
  import opened StoreProgress
  import opened Alone
  import opened Serial

  const DOC := Doc("user", "app", "type", "key")

  const DELETE := Writing([RemoveDocument(DOC, "user")], [])

  const UPDATE := UpdatePoint(DOC, "content", "user")

  // A transaction that holds nothing and is done.
  const IDLE := Opened(Writing([], []))

  lemma Extend(run: seq<State>, actions: seq<Action>, a: Action) returns (run': seq<State>, actions': seq<Action>)
    requires IsRun(run, actions) && Enabled(run[|actions|], a)
    ensures IsRun(run', actions') && run' == run + [Next(run[|actions|], a)] && actions' == actions + [a]
  {
    run', actions' := run + [Next(run[|actions|], a)], actions + [a];
  }

  // Transaction 1 runs to its commit beside the idle transaction 0.
  lemma {:induction false} RunsToReady(run: seq<State>, actions: seq<Action>, tx: Tx)
      returns (run': seq<State>, actions': seq<Action>, tx': Tx)
    requires IsRun(run, actions) && run[|actions|].txs == map[0 := IDLE, 1 := tx]
    requires tx.at.Writing? || tx.at.Appending?
    ensures IsRun(run', actions') && run <= run' && actions <= actions'
    ensures run'[|actions'|] == run[|actions|].(txs := map[0 := IDLE, 1 := tx']) && Ready(tx')
    ensures forall k :: |actions| <= k < |run'| ==> 0 in run'[k].txs && 1 in run'[k].txs
    decreases Remaining(tx)
  {
    var s := run[|actions|];
    if Ready(tx) {
      run', actions', tx' := run, actions, tx;
    } else {
      StepsAlone(run, actions, tx);
      var next, so := Extend(run, actions, Execute(1));
      assert next[|so|].txs == map[0 := IDLE, 1 := Exec(s.db, tx).tx];
      run', actions', tx' := RunsToReady(next, so, Exec(s.db, tx).tx);
    }
  }

  lemma StepsAlone(run: seq<State>, actions: seq<Action>, tx: Tx)
    requires IsRun(run, actions) && run[|actions|].txs == map[0 := IDLE, 1 := tx] && !Ready(tx)
    requires tx.at.Writing? || tx.at.Appending?
    ensures Enabled(run[|actions|], Execute(1))
    ensures var next := Exec(run[|actions|].db, tx).tx;
      Remaining(next) < Remaining(tx) && (next.at.Writing? || next.at.Appending?)
  {
    var s := run[|actions|];
    RunInv(run, actions, |actions|);
    NeverViolates(s, 1);
    ExecShortens(s.db, tx);
    assert forall u :: u in s.txs ==> !WaitsFor(s, 1, u);
  }

  lemma LooksAndMisses() returns (run: seq<State>, actions: seq<Action>)
    ensures IsRun(run, actions) && |actions| == 2 && actions[0] == Begin(0, DELETE)
    ensures run[1].txs == map[0 := Opened(DELETE)] && run[2] == INITIAL.(txs := map[0 := IDLE])
  {
    assert DeleteProgram(DELETE.ops);
    run, actions := Extend([INITIAL], [], Begin(0, DELETE));
    assert run[1].txs == map[0 := Opened(DELETE)];
    var none: seq<Event> := [];
    assert DELETE.ops[1..] == [] && none + none == none;
    assert Exec(EMPTY, Opened(DELETE)) == Continue(IDLE);
    run, actions := Extend(run, actions, Execute(0));
    assert run[2].txs == map[0 := IDLE];
  }

  // Another transaction creates the document meanwhile.
  lemma CreatesIt(run: seq<State>, actions: seq<Action>) returns (run': seq<State>, actions': seq<Action>)
    requires IsRun(run, actions) && run[|actions|].txs == map[0 := IDLE]
    ensures IsRun(run', actions') && run <= run' && actions <= actions'
    ensures run'[|actions'|].txs == map[0 := IDLE] && DOC in run'[|actions'|].db.rows
    ensures forall k :: |actions| <= k < |run'| ==> 0 in run'[k].txs
  {
    assert UpdateProgram(UPDATE.ops);
    var begun, first := Extend(run, actions, Begin(1, UPDATE));
    assert begun[|first|].txs == map[0 := IDLE, 1 := Opened(UPDATE)];
    var ready, so, tx := RunsToReady(begun, first, Opened(UPDATE));
    run', actions' := Extend(ready, so, Commit(1));
    assert run'[|actions'|].txs == map[0 := IDLE];
    assert Commits(run', actions', |actions|, |so|, 1, UPDATE);
    UpdateCommits(run', actions', |actions|, |so|, 1, DOC, "content", "user");
  }

  lemma DocumentGone(db: Db)
    ensures DOC !in WithoutDocument(db, DOC, "user").rows
  {
  }

  /** The committed delete has not done what it does alone: the document is
      there before and after. */
  lemma OvertakenDelete() returns (run: seq<State>, actions: seq<Action>, b: nat, c: nat)
    ensures IsRun(run, actions) && Commits(run, actions, b, c, 0, DELETE)
    ensures DOC in run[c].db.rows && run[c + 1].db == run[c].db != WithoutDocument(run[c].db, DOC, "user")
  {
    var missed, two := LooksAndMisses();
    var created, so := CreatesIt(missed, two);
    run, actions := Extend(created, so, Commit(0));
    b, c := 0, |so|;
    assert forall k :: b < k <= c ==> run[k] == created[k];
    assert created[1] == missed[1];
    CommittedTables(run[c].db, IDLE);
    MergeNothing(run[c].db.rows);
    DocumentGone(run[c].db);
  }
}
