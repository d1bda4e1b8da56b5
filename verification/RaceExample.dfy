/** Two accepted registrations that overtake each other and leave a generation
    behind that no validator can be built from. */
module RaceExample {
  import opened ConfigModel
  import opened ConfigService
  import opened ConfigAlone
  import opened RegistrationRace
  import opened IdentityHash

  const A := Schema("a", "1", "x", Settings)
  const A2 := Schema("a", "1", "y", Settings)
  const B := Schema("b", "1", "z", Settings)

  const KA := Key("a", "1")
  const KB := Key("b", "1")

  const FIRST := Request(Identity([KA]), [A], false)
  const SECOND := Request(Identity([KA, KB]), [A2, B], false)

  // x does not go together with z.
  const CHOOSY := Revisor(s => true, s => true, specs => specs != ["x", "z"])

  lemma DryOneMore(before: seq<Schema>, s: Schema, usage: Usage)
    requires s.spec != ""
    ensures DrySpecs(map[], before + [s], usage)
         == DrySpecs(map[], before, usage) + if s.usage == usage then [s.spec] else []
  {
    assert (before + [s])[..|before|] == before;
  }

  lemma DryRuns(usage: Usage)
    ensures DrySpecs(map[], [A], usage) == if usage == Settings then ["x"] else []
    ensures DrySpecs(map[], [A2, B], usage) == if usage == Settings then ["y", "z"] else []
  {
    DryOneMore([], A, usage);
    DryOneMore([], A2, usage);
    DryOneMore([A2], B, usage);
    assert [] + [A] == [A] && [] + [A2] == [A2] && [A2] + [B] == [A2, B];
  }

  lemma BothAccepted()
    ensures Accepted(CHOOSY, map[], FIRST.schemas) && Accepted(CHOOSY, map[], SECOND.schemas)
  {
    DryRuns(Settings);
    DryRuns(Messages);
  }

  lemma IdentitiesDiffer()
    ensures FIRST.identity != SECOND.identity
  {
    SameIdentityIffSameSet([KA], [KA, KB]);
    assert multiset([KA])[KB] == 0 && multiset([KA, KB])[KB] == 1;
  }

  const EMPTY := Db(map[], map[])
  const ONE := Db(map[KA := Stored("x", Settings)], map[1 := Generation(FIRST.identity, [KA], false)])

  // The state at the end of a run.
  function End(run: seq<State>): State
    requires run != []
  {
    run[|run| - 1]
  }

  ghost predicate Served(run: seq<State>, actions: seq<Action>) {
    IsRun(run, actions) && DryRunFirst(CHOOSY, run, actions)
  }

  lemma ServedOn(run: seq<State>, actions: seq<Action>, run': seq<State>, actions': seq<Action>)
    requires Served(run, actions) && IsRun(run', actions') && Continues(run, actions, run', actions')
    ensures Served(run', actions')
  {
    forall b | 0 <= b < |actions'| && actions'[b].Begin? && actions'[b].at.Ensuring?
      ensures exists d :: 0 <= d <= b && Accepted(CHOOSY, run'[d].db.schemas, actions'[b].at.req.schemas)
    {
      assert actions'[b] == actions[b];
      var d :| 0 <= d <= b && Accepted(CHOOSY, run[d].db.schemas, actions[b].at.req.schemas);
      assert run'[d] == run[d];
    }
  }

  // One statement of one of the two.
  lemma Then(run: seq<State>, actions: seq<Action>, t: nat, tx: Tx) returns (run': seq<State>, actions': seq<Action>)
    requires Served(run, actions) && Enabled(End(run), Execute(t, 0)) && !End(run).txs[t].at.Inserting?
    requires Exec(End(run).db, End(run).txs[t], End(run).nextId, 0) == Continue(tx)
    ensures Served(run', actions') && End(run') == End(run).(txs := End(run).txs[t := tx])
  {
    run', actions' := OneStepOn(run, actions, Execute(t, 0));
    ServedOn(run, actions, run', actions');
  }

  lemma ThenCommit(run: seq<State>, actions: seq<Action>, t: nat) returns (run': seq<State>, actions': seq<Action>)
    requires Served(run, actions) && Enabled(End(run), Commit(t))
    ensures Served(run', actions') && End(run') == Next(End(run), Commit(t))
  {
    run', actions' := OneStepOn(run, actions, Commit(t));
    ServedOn(run, actions, run', actions');
  }

  // From the lookup of its identity to its last statement.
  lemma ThenInsert(run: seq<State>, actions: seq<Action>, t: nat) returns (run': seq<State>, actions': seq<Action>)
    requires Served(run, actions) && Quiet(End(run), t)
    requires var tx := End(run).txs[t];
      && tx.at.Finding? && tx.newGens == map[] && tx.refs == [] && tx.flags == map[]
      && NamesDiffer(tx.at.req.schemas) && !tx.at.req.activate && !Registered(End(run).db, tx.at.req.identity)
    ensures Served(run', actions')
    ensures var s, tx := End(run), End(run).txs[t];
      var req := tx.at.req;
      End(run') == State(s.db,
        s.txs[t := Tx(Done(s.nextId), tx.newSchemas, map[s.nextId := req.identity], Keys(req.schemas), map[s.nextId := false])],
        s.nextId + 1)
  {
    var s, tx := End(run), End(run).txs[t];
    var req := tx.at.req;
    var end := Tx(Done(s.nextId), tx.newSchemas, map[s.nextId := req.identity], Keys(req.schemas), map[s.nextId := false]);
    InsertAlone(s.db, tx, s.nextId);
    var n: nat :| Leads(s.db, tx, s.nextId, n, end, s.nextId + 1);
    run', actions' := LeadsIsARun(run, actions, t, n, end, s.nextId + 1);
    ServedOn(run, actions, run', actions');
  }

  // Both begin, and both look the shared key up before either stores it.
  lemma BothMiss() returns (run: seq<State>, actions: seq<Action>)
    ensures Served(run, actions)
    ensures End(run) == State(EMPTY, map[0 := Opened(Storing(FIRST, 0)), 1 := Opened(Storing(SECOND, 0))], 1)
  {
    run, actions := BothBegin();
    run, actions := Then(run, actions, 0, Opened(Storing(FIRST, 0)));
    run, actions := Then(run, actions, 1, Opened(Storing(SECOND, 0)));
  }

  lemma BothBegin() returns (run: seq<State>, actions: seq<Action>)
    ensures Served(run, actions)
    ensures End(run) == State(EMPTY, map[0 := Opened(Ensuring(FIRST, 0)), 1 := Opened(Ensuring(SECOND, 0))], 1)
  {
    BothAccepted();
    run, actions := OneStepOn([INITIAL], [], Begin(0, Ensuring(FIRST, 0)));
    run, actions := OneStepOn(run, actions, Begin(1, Ensuring(SECOND, 0)));
    assert run[0] == INITIAL && run[1].db == EMPTY;
  }

  lemma FirstTables(tx: Tx)
    requires tx == Tx(Done(1), map[KA := Stored("x", Settings)], map[1 := FIRST.identity], [KA], map[1 := false])
    ensures Committed(EMPTY, tx) == ONE
  {
    assert Committed(EMPTY, tx).gens.Keys == {1} == ONE.gens.Keys;
  }

  // The first stores x and gets to its identity lookup.
  lemma FirstStores() returns (run: seq<State>, actions: seq<Action>)
    ensures Served(run, actions)
    ensures End(run) ==
      State(EMPTY, map[0 := Opened(Finding(FIRST)).(newSchemas := map[KA := Stored("x", Settings)]), 1 := Opened(Storing(SECOND, 0))], 1)
  {
    run, actions := BothMiss();
    var stored := Opened(Ensuring(FIRST, 1)).(newSchemas := map[KA := Stored("x", Settings)]);
    run, actions := Then(run, actions, 0, stored);
    run, actions := Then(run, actions, 0, stored.(at := Finding(FIRST)));
  }

  // It inserts its generation and commits.
  lemma FirstCommits() returns (run: seq<State>, actions: seq<Action>)
    ensures Served(run, actions) && End(run) == State(ONE, map[1 := Opened(Storing(SECOND, 0))], 2)
  {
    run, actions := FirstStores();
    assert !Registered(EMPTY, FIRST.identity);
    run, actions := ThenInsert(run, actions, 0);
    assert Keys([A]) == [KA];
    FirstTables(End(run).txs[0]);
    run, actions := ThenCommit(run, actions, 0);
  }

  // The second's y is dropped, its z is stored.
  lemma SecondStores() returns (run: seq<State>, actions: seq<Action>)
    ensures Served(run, actions)
    ensures End(run) == State(ONE, map[1 := Opened(Finding(SECOND)).(newSchemas := map[KB := Stored("z", Settings)])], 2)
  {
    run, actions := FirstCommits();
    run, actions := Then(run, actions, 1, Opened(Ensuring(SECOND, 1)));
    run, actions := Then(run, actions, 1, Opened(Storing(SECOND, 1)));
    var stored := Opened(Ensuring(SECOND, 2)).(newSchemas := map[KB := Stored("z", Settings)]);
    run, actions := Then(run, actions, 1, stored);
    run, actions := Then(run, actions, 1, stored.(at := Finding(SECOND)));
  }

  /** The guarantee that registered generations load does not survive two
      first registrations of one key at once: both pass their dry run, both
      commit, and what the second one registered cannot be built. */
  lemma OvertakenMayNotLoad() returns (run: seq<State>, actions: seq<Action>)
    ensures IsRun(run, actions) && DecoderOk(CHOOSY) && DryRunFirst(CHOOSY, run, actions)
    ensures !AllLoad(CHOOSY, run[|actions|].db)
  {
    run, actions := SecondStores();
    IdentitiesDiffer();
    assert !Registered(ONE, SECOND.identity);
    run, actions := ThenInsert(run, actions, 1);
    run, actions := ThenCommit(run, actions, 1);
    assert Keys([A2, B]) == [KA, KB];
    DoesNotLoad(run[|actions|].db);
  }

  lemma DoesNotLoad(db: Db)
    requires KA in db.schemas && db.schemas[KA] == Stored("x", Settings)
    requires KB in db.schemas && db.schemas[KB] == Stored("z", Settings)
    requires 2 in db.gens && db.gens[2].refs == [KA, KB]
    ensures !AllLoad(CHOOSY, db)
  {
    assert [KA, KB][..1] == [KA] && [KA][..0] == [];
    assert StoredSpecs(db.schemas, [KA], Settings) == ["x"];
    assert StoredSpecs(db.schemas, [KA, KB], Settings) == ["x", "z"];
  }
}
