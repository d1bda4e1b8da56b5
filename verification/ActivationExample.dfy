/** A registration that asks for activation and returns a generation that is
    not active: it found its generation active, and another activation
    committed before it did. */
module ActivationExample {
  import opened Basics
  import opened ConfigModel
  import opened ConfigSteps
  import opened ConfigStoreMethods
  import opened ConfigService
  import opened ConfigAlone
  import opened RegistrationRace
  import opened RaceExample
  import opened IdentityHash

  const AGAIN := Request(Identity([KA]), [A], true)
  const OTHER := Request(Identity([KB]), [B], false)

  // The first is registered and active, the second registered.
  ghost predicate TwoGenerations(s: State, g: int, h: int) {
    && s.txs == map[] && g != h && h in s.db.gens && ActiveIn(s.db, g)
    && HasIdentity(s.db, AGAIN.identity, g) && s.db.gens[g].refs == [KA]
    && KA in s.db.schemas && s.db.schemas[KA] == Stored("x", Settings)
  }

  lemma FirstTablesAre(nextId: int)
    ensures RegisterAlone(EMPTY, nextId, [A])
         == Some(Db(map[KA := Stored("x", Settings)], map[nextId := Generation(AGAIN.identity, [KA], false)]))
  {
    assert [A][..0] == [] && Keys([A]) == [KA];
    assert EnsureAll(EMPTY.schemas, []) == Kept(EMPTY.schemas);
    assert EnsureAll(EMPTY.schemas, [A]) == Kept(map[KA := Stored("x", Settings)]);
    assert !Registered(EMPTY, AGAIN.identity);
    assert map[KA := Stored("x", Settings)] + EMPTY.schemas == map[KA := Stored("x", Settings)];
    assert EMPTY.gens[nextId := Generation(AGAIN.identity, [KA], false)] == map[nextId := Generation(AGAIN.identity, [KA], false)];
  }

  lemma SecondTablesAre(db: Db, nextId: int)
    requires KB !in db.schemas && !Registered(db, OTHER.identity)
    ensures var db' := RegisterAlone(db, nextId, [B]);
      db'.Some? && db'.value.gens == db.gens[nextId := Generation(OTHER.identity, [KB], false)]
      && forall k :: k in db.schemas ==> k in db'.value.schemas && db'.value.schemas[k] == db.schemas[k]
  {
    assert [B][..0] == [] && Keys([B]) == [KB];
    assert EnsureAll(db.schemas, []) == Kept(db.schemas);
  }

  lemma OneGeneration() returns (run: seq<State>, actions: seq<Action>, g: int)
    ensures IsRun(run, actions) && End(run).txs == map[]
    ensures End(run).db == OneActive(g)
  {
    assert IsRun([INITIAL], []);
    FirstTablesAre(1);
    assert Keys([A]) == [KA];
    run, actions, g := RegistrationAloneIsARun([INITIAL], [], 0, AGAIN);
    assert run[|actions|] == End(run);
  }

  // The first as it is once registered and active.
  function OneActive(g: int): Db {
    Db(map[KA := Stored("x", Settings)], map[g := Generation(AGAIN.identity, [KA], true)])
  }

  lemma OtherIsNew(g: int)
    ensures !Registered(OneActive(g), OTHER.identity)
  {
    SameIdentityIffSameSet([KA], [KB]);
    assert multiset([KA])[KB] == 0 && multiset([KB])[KB] == 1;
  }

  lemma ThenTwo(s: State, g: int, h: int)
    requires s.txs == map[] && g != h && RegisterAlone(OneActive(g), h, [B]).Some?
    requires s.db == RegisterAlone(OneActive(g), h, [B]).value
    ensures TwoGenerations(s, g, h)
  {
    OtherIsNew(g);
    SecondTablesAre(OneActive(g), h);
  }

  lemma BothRegistered() returns (run: seq<State>, actions: seq<Action>, g: int, h: int)
    ensures IsRun(run, actions) && TwoGenerations(End(run), g, h)
  {
    var one, first;
    one, first, g := OneGeneration();
    RunInv(one, first, |first|);
    h := End(one).nextId;
    assert g in End(one).db.gens;
    OtherIsNew(g);
    SecondTablesAre(OneActive(g), h);
    assert Keys([B]) == [KB];
    var id;
    run, actions, id := RegistrationAloneIsARun(one, first, 0, OTHER);
    ThenTwo(run[|actions|], g, h);
  }

  // Transaction 0 has been open since step n.
  predicate OpenSince(run: seq<State>, n: nat) {
    forall k :: n < k < |run| ==> 0 in run[k].txs
  }

  lemma Follow(run: seq<State>, actions: seq<Action>, tx: Tx, n: nat) returns (run': seq<State>, actions': seq<Action>)
    requires IsRun(run, actions) && Enabled(End(run), Execute(0, 0)) && !End(run).txs[0].at.Inserting?
    requires Exec(End(run).db, End(run).txs[0], End(run).nextId, 0) == Continue(tx) && End(run).txs.Keys == {0}
    requires OpenSince(run, n)
    ensures IsRun(run', actions') && actions <= actions' && OpenSince(run', n)
    ensures End(run') == End(run).(txs := map[0 := tx])
  {
    run', actions' := OneStepOn(run, actions, Execute(0, 0));
  }

  // The registration gets as far as finding its generation active.
  lemma FindsActive(run: seq<State>, actions: seq<Action>, g: int, h: int) returns (run': seq<State>, actions': seq<Action>)
    requires IsRun(run, actions) && TwoGenerations(End(run), g, h)
    ensures IsRun(run', actions') && actions + [Begin(0, Ensuring(AGAIN, 0))] <= actions' && OpenSince(run', |actions|)
    ensures End(run') == End(run).(txs := map[0 := Opened(Done(g))])
  {
    var s := End(run);
    RunInv(run, actions, |actions|);
    run', actions' := OneStepOn(run, actions, Begin(0, Ensuring(AGAIN, 0)));
    assert End(run').txs == map[0 := Opened(Ensuring(AGAIN, 0))];
    run', actions' := Follow(run', actions', Opened(Ensuring(AGAIN, 1)), |actions|);
    run', actions' := Follow(run', actions', Opened(Finding(AGAIN)), |actions|);
    assert Registered(s.db, AGAIN.identity);
    run', actions' := Follow(run', actions', Opened(Done(g)), |actions|);
  }

  lemma {:induction false} StillOpen(run: seq<State>, actions: seq<Action>, m: nat, k: nat)
    requires IsRun(run, actions) && m <= k < |run| && 0 in run[m].txs
    requires forall i :: m <= i < k ==> !(actions[i] == Commit(0)) && !(actions[i] == Rollback(0))
    ensures 0 in run[k].txs
    decreases k
  {
    if m < k {
      StillOpen(run, actions, m, k - 1);
    }
  }

  // The statements of an activation with nobody else switching.
  lemma ActivationGets(db: Db, nextId: int, g: int, h: int) returns (tx: Tx)
    requires SingleActive(db) && ActiveIn(db, g) && h in db.gens && g != h
    ensures tx == Opened(Done(h)).(flags := tx.flags) && Switched(db, tx, h)
    ensures Gets(db, Opened(Looking(h)), nextId, tx, nextId)
  {
    assert !ActiveIn(db, h);
    tx := SwitchAlone(db, Opened(Deactivate(h)), nextId);
    GetsFirst(db, Opened(Looking(h)), nextId, 0, tx, nextId);
  }

  lemma OpenThroughout(run: seq<State>, run': seq<State>, actions: seq<Action>, actions': seq<Action>, n: nat)
    requires IsRun(run, actions) && IsRun(run', actions') && run <= run' && actions <= actions'
    requires OpenSince(run, n) && n < |actions|
    requires forall i :: |actions| <= i < |actions'| ==> actions'[i] != Commit(0) && actions'[i] != Rollback(0)
    ensures OpenSince(run', n)
  {
    forall k | n < k < |run'| ensures 0 in run'[k].txs {
      if k < |run| {
        assert run'[k] == run[k];
      } else {
        assert run'[|actions|] == run[|actions|];
        StillOpen(run', actions', |actions|, k);
      }
    }
  }

  // Meanwhile another transaction begins to activate h and gets to its commit.
  lemma OtherActivates(run: seq<State>, actions: seq<Action>, g: int, h: int, n: nat)
      returns (run': seq<State>, actions': seq<Action>, tx: Tx)
    requires IsRun(run, actions) && OpenSince(run, n) && n < |actions|
    requires End(run).txs == map[0 := Opened(Done(g))] && g != h && h in End(run).db.gens && ActiveIn(End(run).db, g)
    ensures IsRun(run', actions') && actions <= actions' && OpenSince(run', n)
    ensures End(run') == End(run).(txs := map[0 := Opened(Done(g)), 1 := tx])
    ensures tx == Opened(Done(h)).(flags := tx.flags) && Switched(End(run).db, tx, h)
  {
    RunInv(run, actions, |actions|);
    tx := ActivationGets(End(run).db, End(run).nextId, g, h);
    run', actions' := ThenActivates(run, actions, g, h, tx);
    OpenThroughout(run, run', actions, actions', n);
  }

  lemma ThenActivates(run: seq<State>, actions: seq<Action>, g: int, h: int, tx: Tx)
      returns (run': seq<State>, actions': seq<Action>)
    requires IsRun(run, actions) && End(run).txs == map[0 := Opened(Done(g))]
    requires Gets(End(run).db, Opened(Looking(h)), End(run).nextId, tx, End(run).nextId)
    ensures IsRun(run', actions') && run <= run' && actions <= actions'
    ensures End(run') == End(run).(txs := map[0 := Opened(Done(g)), 1 := tx])
    ensures forall i :: |actions| <= i < |actions'| ==> actions'[i] != Commit(0) && actions'[i] != Rollback(0)
  {
    var s := End(run);
    var c: nat :| Leads(s.db, Opened(Looking(h)), s.nextId, c, tx, s.nextId);
    var begun, first := OneStepOn(run, actions, Begin(1, Looking(h)));
    assert begun[|first|].txs == map[0 := Opened(Done(g)), 1 := Opened(Looking(h))];
    run', actions' := LeadsIsARun(begun, first, 1, c, tx, s.nextId);
    assert actions'[|actions|] == Begin(1, Looking(h));
  }

  /** Active is not what every registration with activation returns: this one
      commits, in a reachable state, after its generation has been switched
      off. */
  lemma ReturnsInactive() returns (run: seq<State>, actions: seq<Action>, b: nat, c: nat, t: nat, req: Request)
    ensures IsRun(run, actions) && Registers(run, actions, b, c, t, req) && c < |actions| && actions[c] == Commit(t)
    ensures req.activate && !ActiveIn(run[c + 1].db, run[c].txs[t].at.id)
  {
    var g, h;
    run, actions, g, h := BothRegistered();
    b, t, req := |actions|, 0, AGAIN;
    run, actions := FindsActive(run, actions, g, h);
    run, actions := LosesOut(run, actions, g, h, b);
    c := |actions| - 1;
  }

  // From finding its generation active to committing with it inactive.
  lemma LosesOut(run: seq<State>, actions: seq<Action>, g: int, h: int, n: nat) returns (run': seq<State>, actions': seq<Action>)
    requires IsRun(run, actions) && OpenSince(run, n) && n < |actions|
    requires End(run).txs == map[0 := Opened(Done(g))] && g != h && h in End(run).db.gens && ActiveIn(End(run).db, g)
    ensures IsRun(run', actions') && actions <= actions' && |actions'| > |actions|
    ensures var c := |actions'| - 1;
      && actions'[c] == Commit(0) && (forall k :: n < k <= c ==> 0 in run'[k].txs)
      && run'[c].txs[0].at == Done(g) && !ActiveIn(run'[c + 1].db, g)
  {
    var tx;
    run', actions', tx := OtherActivates(run, actions, g, h, n);
    SwitchedOff(End(run).db, tx, g, h);
    run', actions' := BothCommit(run', actions', g, tx, n);
  }

  // The other commits first.
  lemma BothCommit(run: seq<State>, actions: seq<Action>, g: int, tx: Tx, n: nat) returns (run': seq<State>, actions': seq<Action>)
    requires IsRun(run, actions) && OpenSince(run, n) && tx.at.Done? && !ActiveIn(Committed(End(run).db, tx), g)
    requires End(run).txs == map[0 := Opened(Done(g)), 1 := tx]
    ensures IsRun(run', actions') && actions <= actions' && |actions'| == |actions| + 2
    ensures var c := |actions| + 1;
      && actions'[c] == Commit(0) && (forall k :: n < k <= c ==> 0 in run'[k].txs)
      && run'[c].txs[0].at == Done(g) && !ActiveIn(run'[c + 1].db, g)
  {
    var next, so := OneStepOn(run, actions, Commit(1));
    run', actions' := OneStepOn(next, so, Commit(0));
    CommittedGen(next[|so|].db, Opened(Done(g)), g);
  }

  lemma SwitchedOff(db: Db, tx: Tx, g: int, h: int)
    requires Switched(db, tx, h) && g != h && ActiveIn(db, g) && tx.newGens == map[]
    ensures !ActiveIn(Committed(db, tx), g)
  {
    CommittedGen(db, tx, g);
  }
}
