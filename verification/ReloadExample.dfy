/** A reload that succeeds and leaves the validators of one generation beside
    the id of another: an activation commits between its two reads. */
module ReloadExample {
  import opened ConfigModel
  import opened ConfigSteps
  import opened ConfigService
  import opened ConfigAlone
  import opened RaceExample
  import opened ActivationExample
  import opened ValidatorHistory

  // From a state with nobody open, the other generation is activated.
  lemma Activated(run: seq<State>, actions: seq<Action>, g: int, h: int) returns (run': seq<State>, actions': seq<Action>)
    requires IsRun(run, actions) && TwoGenerations(End(run), g, h)
    ensures IsRun(run', actions') && run <= run' && |run'| > |run|
    ensures ActiveIn(End(run').db, h)
  {
    var s := End(run);
    RunInv(run, actions, |actions|);
    var tx := ActivationGets(s.db, s.nextId, g, h);
    var c: nat :| Leads(s.db, Opened(Looking(h)), s.nextId, c, tx, s.nextId);
    var begun, first := OneStepOn(run, actions, Begin(0, Looking(h)));
    assert begun[|first|].txs == map[0 := Opened(Looking(h))];
    var done, next := LeadsIsARun(begun, first, 0, c, tx, s.nextId);
    assert done[|next|].txs == map[0 := tx];
    run', actions' := OneStepOn(done, next, Commit(0));
    CommittedGen(s.db, tx, h);
  }

  lemma OneRead(schema: (Key, Stored), usage: Usage)
    ensures ReadSpecs([schema], usage) == if schema.1.usage == usage then [schema.1.spec] else []
  {
    assert [schema][..0] == [];
  }

  lemma FirstLoads(db: Db, g: int)
    requires RefsStored(db) && SingleActive(db) && ActiveIn(db, g)
    requires db.gens[g].refs == [KA] && KA in db.schemas && db.schemas[KA] == Stored("x", Settings)
    ensures CanLoad(CHOOSY, ActiveSchemas(db))
  {
    ActiveIdIs(db, g);
    var read := ActiveSchemas(db);
    assert read == [(KA, Stored("x", Settings))];
    OneRead(read[0], Settings);
    OneRead(read[0], Messages);
  }

  // The id a validator reports need not be that of the generation it was built
  // from.
  lemma PairDisagrees() returns (run: seq<State>, actions: seq<Action>, reload: Reload)
    ensures Timeline(run, actions, [reload]) && Succeeds(CHOOSY, run, actions, [reload], 0)
    ensures HasActive(run[reload.schemasAt].db)
    ensures After(CHOOSY, run, actions, [reload], 1).1 != ActiveId(run[reload.schemasAt].db)
  {
    var g, h;
    run, actions, g, h := BothRegistered();
    var i := |actions|;
    RunInv(run, actions, i);
    FirstLoads(run[i].db, g);
    run, actions := Activated(run, actions, g, h);
    var j := |actions|;
    RunInv(run, actions, i);
    RunInv(run, actions, j);
    ActiveIdIs(run[i].db, g);
    ActiveIdIs(run[j].db, h);
    reload := Reload(i, j, false);
    assert ReadBy(run, actions, [reload], 0) == ActiveSchemas(run[i].db);
  }
}
