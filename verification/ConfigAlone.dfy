/** One registration run from begin to commit while nobody else holds
    anything: the statements of the machine add up to the change of tables
    that the store's methods describe. */
module ConfigAlone {
  import opened Basics
  import Ascending
  import opened ConfigModel
  import opened ConfigSteps
  import opened ConfigStoreMethods
  import opened ConfigService
  import opened IdentityHash

  // n statements of one transaction, each accepted.
  ghost predicate Leads(db: Db, tx: Tx, nextId: int, n: nat, tx': Tx, nextId': int)
    decreases n
  {
    if n == 0 then tx' == tx && nextId' == nextId
    else !Ready(tx) && exists row :: Takes(db, tx, nextId, row) && Leads(db, Exec(db, tx, nextId, row).tx, NextIdAfter(tx, nextId), n - 1, tx', nextId')
  }

  ghost predicate Takes(db: Db, tx: Tx, nextId: int, row: int)
    requires !Ready(tx)
  {
    && (tx.at.Deactivating? && tx.at.candidates != {} ==> row in tx.at.candidates)
    && Exec(db, tx, nextId, row).Continue?
  }

  function NextIdAfter(tx: Tx, nextId: int): int {
    if tx.at.Inserting? then nextId + 1 else nextId
  }

  ghost predicate Gets(db: Db, tx: Tx, nextId: int, tx': Tx, nextId': int) {
    exists n: nat :: Leads(db, tx, nextId, n, tx', nextId')
  }

  lemma GetsSelf(db: Db, tx: Tx, nextId: int)
    ensures Gets(db, tx, nextId, tx, nextId)
  {
    assert Leads(db, tx, nextId, 0, tx, nextId);
  }

  lemma GetsFirst(db: Db, tx: Tx, nextId: int, row: int, tx': Tx, nextId': int)
    requires !Ready(tx) && Takes(db, tx, nextId, row)
    requires Gets(db, Exec(db, tx, nextId, row).tx, NextIdAfter(tx, nextId), tx', nextId')
    ensures Gets(db, tx, nextId, tx', nextId')
  {
    var n: nat :| Leads(db, Exec(db, tx, nextId, row).tx, NextIdAfter(tx, nextId), n, tx', nextId');
    assert Leads(db, tx, nextId, n + 1, tx', nextId');
  }

  lemma {:induction false} GetsJoin(db: Db, a: Tx, i: int, n: nat, b: Tx, j: int, c: Tx, k: int)
    requires Leads(db, a, i, n, b, j) && Gets(db, b, j, c, k)
    ensures Gets(db, a, i, c, k)
    decreases n
  {
    if n > 0 {
      var row :| Takes(db, a, i, row) && Leads(db, Exec(db, a, i, row).tx, NextIdAfter(a, i), n - 1, b, j);
      GetsJoin(db, Exec(db, a, i, row).tx, NextIdAfter(a, i), n - 1, b, j, c, k);
      GetsFirst(db, a, i, row, c, k);
    }
  }

  lemma GetsThen(db: Db, a: Tx, i: int, b: Tx, j: int, c: Tx, k: int)
    requires Gets(db, a, i, b, j) && Gets(db, b, j, c, k)
    ensures Gets(db, a, i, c, k)
  {
    var n: nat :| Leads(db, a, i, n, b, j);
    GetsJoin(db, a, i, n, b, j, c, k);
  }

  // ----- Storing the schemas -----

  // The lookup of a schema, and its storing if it is not there.
  lemma EnsureOneAlone(db: Db, tx: Tx, nextId: int)
    requires tx.at.Ensuring? && tx.at.i < |tx.at.req.schemas|
    requires EnsureOne(db.schemas + tx.newSchemas, tx.at.req.schemas[tx.at.i]).Kept?
    ensures var s := tx.at.req.schemas[tx.at.i];
      var stored := KeyOf(s) in db.schemas || KeyOf(s) in tx.newSchemas;
      var next := tx.(at := Ensuring(tx.at.req, tx.at.i + 1),
                      newSchemas := if stored then tx.newSchemas else tx.newSchemas[KeyOf(s) := Stored(s.spec, s.usage)]);
      && Gets(db, tx, nextId, next, nextId)
      && EnsureOne(db.schemas + tx.newSchemas, s) == Kept(db.schemas + next.newSchemas)
  {
    var Ensuring(req, i) := tx.at;
    var s := req.schemas[i];
    var stored := KeyOf(s) in db.schemas || KeyOf(s) in tx.newSchemas;
    var next := tx.(at := Ensuring(req, i + 1),
                    newSchemas := if stored then tx.newSchemas else tx.newSchemas[KeyOf(s) := Stored(s.spec, s.usage)]);
    GetsSelf(db, next, nextId);
    if stored {
      assert Exec(db, tx, nextId, 0) == Continue(next);
    } else {
      var storing := tx.(at := Storing(req, i));
      assert Exec(db, storing, nextId, 0) == Continue(next);
      GetsFirst(db, storing, nextId, 0, next, nextId);
      assert Exec(db, tx, nextId, 0) == Continue(storing);
    }
    GetsFirst(db, tx, nextId, 0, next, nextId);
  }

  lemma {:induction false} EnsureAlone(db: Db, tx: Tx, nextId: int) returns (tx': Tx)
    requires tx.at.Ensuring? && tx.at.i <= |tx.at.req.schemas|
    requires EnsureAll(db.schemas, tx.at.req.schemas[..tx.at.i]) == Kept(db.schemas + tx.newSchemas)
    requires EnsureAll(db.schemas, tx.at.req.schemas).Kept?
    ensures tx' == tx.(at := Finding(tx.at.req), newSchemas := tx'.newSchemas)
    ensures EnsureAll(db.schemas, tx.at.req.schemas) == Kept(db.schemas + tx'.newSchemas)
    ensures Gets(db, tx, nextId, tx', nextId)
    decreases |tx.at.req.schemas| - tx.at.i
  {
    var Ensuring(req, i) := tx.at;
    if i == |req.schemas| {
      assert req.schemas[..i] == req.schemas;
      tx' := tx.(at := Finding(req));
      GetsSelf(db, tx', nextId);
      GetsFirst(db, tx, nextId, 0, tx', nextId);
    } else {
      assert req.schemas[..i + 1][..i] == req.schemas[..i];
      if EnsureAll(db.schemas, req.schemas[..i + 1]).Refused? {
        RefusalStays(db.schemas, req.schemas, i + 1);
      }
      EnsureOneAlone(db, tx, nextId);
      var s := req.schemas[i];
      var stored := KeyOf(s) in db.schemas || KeyOf(s) in tx.newSchemas;
      var next := tx.(at := Ensuring(req, i + 1),
                      newSchemas := if stored then tx.newSchemas else tx.newSchemas[KeyOf(s) := Stored(s.spec, s.usage)]);
      tx' := EnsureAlone(db, next, nextId);
      GetsThen(db, tx, nextId, next, nextId, tx', nextId);
    }
  }

  // ----- The generation -----

  predicate NamesDiffer(schemas: seq<Schema>) {
    forall i, j :: 0 <= i < j < |schemas| ==> schemas[i].name != schemas[j].name
  }

  lemma {:induction false} ReferenceAlone(db: Db, tx: Tx, nextId: int)
    requires tx.at.Referencing? && tx.at.i <= |tx.at.req.schemas| && NamesDiffer(tx.at.req.schemas)
    requires tx.refs == Keys(tx.at.req.schemas[..tx.at.i])
    ensures Gets(db, tx, nextId, tx.(at := Decide(tx.at.req, tx.at.id, false), refs := Keys(tx.at.req.schemas)), nextId)
    decreases |tx.at.req.schemas| - tx.at.i
  {
    var Referencing(req, id, i) := tx.at;
    var end := tx.(at := Decide(req, id, false), refs := Keys(req.schemas));
    if i == |req.schemas| {
      assert req.schemas[..i] == req.schemas;
      GetsSelf(db, end, nextId);
    } else {
      assert Keys(req.schemas[..i + 1]) == Keys(req.schemas[..i]) + [KeyOf(req.schemas[i])];
      forall k | k in tx.refs ensures k.name != req.schemas[i].name {
        var j :| 0 <= j < i && k == KeyOf(req.schemas[j]);
      }
      ReferenceAlone(db, tx.(at := Referencing(req, id, i + 1), refs := Keys(req.schemas[..i + 1])), nextId);
    }
    GetsFirst(db, tx, nextId, 0, end, nextId);
  }

  // Insert the generation and its references.
  lemma InsertAlone(db: Db, tx: Tx, nextId: int)
    requires tx.at.Finding? && tx.newGens == map[] && tx.refs == [] && tx.flags == map[]
    requires NamesDiffer(tx.at.req.schemas) && !Registered(db, tx.at.req.identity)
    ensures var req := tx.at.req;
      Gets(db, tx, nextId, Tx(Decide(req, nextId, false), tx.newSchemas, map[nextId := req.identity], Keys(req.schemas), map[nextId := false]), nextId + 1)
  {
    var req := tx.at.req;
    var end := Tx(Decide(req, nextId, false), tx.newSchemas, map[nextId := req.identity], Keys(req.schemas), map[nextId := false]);
    var inserting := tx.(at := Inserting(req));
    var inserted := Tx(Referencing(req, nextId, 0), tx.newSchemas, map[nextId := req.identity], [], map[nextId := false]);
    assert Exec(db, inserting, nextId, 0) == Continue(inserted);
    ReferenceAlone(db, inserted, nextId + 1);
    GetsFirst(db, inserting, nextId, 0, end, nextId + 1);
    assert Exec(db, tx, nextId, 0) == Continue(inserting);
    GetsFirst(db, tx, nextId, 0, end, nextId + 1);
  }

  // ----- The switch -----

  // Everything active but id is switched off or among the candidates.
  predicate SwitchingOff(db: Db, flags: map<int, bool>, candidates: set<int>, id: int) {
    && AllFalse(flags)
    && id !in candidates
    && forall g :: g in db.gens && ActiveIn(db, g) && g != id ==> g in flags || g in candidates
  }

  lemma {:induction false} DeactivateAlone(db: Db, tx: Tx, nextId: int) returns (tx': Tx)
    requires tx.at.Deactivating? && SwitchingOff(db, tx.flags, tx.at.candidates, tx.at.id)
    ensures tx' == tx.(at := Activate(tx.at.id), flags := tx'.flags)
    ensures SwitchingOff(db, tx'.flags, {}, tx.at.id)
    ensures tx'.flags.Keys <= tx.flags.Keys + tx.at.candidates
    ensures Gets(db, tx, nextId, tx', nextId)
    decreases tx.at.candidates
  {
    var Deactivating(id, candidates) := tx.at;
    if candidates == {} {
      tx' := tx.(at := Activate(id));
      GetsSelf(db, tx', nextId);
      GetsFirst(db, tx, nextId, 0, tx', nextId);
    } else {
      Ascending.SomeMember(candidates);
      var row :| row in candidates;
      var next := Exec(db, tx, nextId, row).tx;
      tx' := DeactivateAlone(db, next, nextId);
      GetsFirst(db, tx, nextId, row, tx', nextId);
    }
  }

  lemma SwitchAlone(db: Db, tx: Tx, nextId: int) returns (tx': Tx)
    requires tx.at.Deactivate? && AllFalse(tx.flags)
    ensures tx' == tx.(at := Done(tx.at.id), flags := tx'.flags)
    ensures Switched(db, tx', tx.at.id)
    ensures tx'.flags.Keys <= db.gens.Keys + tx.flags.Keys + {tx.at.id}
    ensures Gets(db, tx, nextId, tx', nextId)
  {
    var id := tx.at.id;
    var off := Exec(db, tx, nextId, 0).tx;
    var on := DeactivateAlone(db, off, nextId);
    tx' := Exec(db, on, nextId, 0).tx;
    GetsSelf(db, tx', nextId);
    GetsFirst(db, on, nextId, 0, tx', nextId);
    GetsThen(db, off, nextId, on, nextId, tx', nextId);
    GetsFirst(db, tx, nextId, 0, tx', nextId);
  }

  // ----- The whole registration -----

  lemma CommittedNew(db: Db, tx: Tx, req: Request, id: int)
    requires EnsureAll(db.schemas, req.schemas) == Kept(db.schemas + tx.newSchemas)
    requires id !in db.gens && !Registered(db, req.identity) && req.identity == Identity(Keys(req.schemas))
    requires tx.newGens == map[id := req.identity] && tx.refs == Keys(req.schemas) && tx.flags == map[id := false]
    ensures Some(Committed(db, tx)) == RegisterAlone(db, id, req.schemas)
  {
    var kept := db.schemas + tx.newSchemas;
    EnsureAllKeeps(db.schemas, req.schemas);
    assert kept + db.schemas == kept;
    assert Committed(db, tx).gens == WithGeneration(db, kept, id, req.identity, Keys(req.schemas)).gens;
  }

  lemma CommittedOld(db: Db, tx: Tx, nextId: int, req: Request)
    requires EnsureAll(db.schemas, req.schemas) == Kept(db.schemas + tx.newSchemas)
    requires Registered(db, req.identity) && req.identity == Identity(Keys(req.schemas))
    requires tx.newGens == map[] && tx.flags == map[]
    ensures Some(Committed(db, tx)) == RegisterAlone(db, nextId, req.schemas)
  {
    assert Committed(db, tx).gens == db.gens;
  }

  // Switched off and on in the transaction is switched in the tables.
  lemma CommittedSwitch(db: Db, before: Tx, after: Tx, id: int)
    requires Untouched(before) && Exists(db, before, id) && Switched(db, after, id)
    requires after == before.(at := Done(id), flags := after.flags)
    requires after.flags.Keys <= db.gens.Keys + before.flags.Keys + {id}
    requires before.newGens.Keys <= after.flags.Keys && before.newGens.Keys !! db.gens.Keys
    ensures Committed(db, after).gens == Switch(Committed(db, before).gens, id)
  {
    var was, now := Committed(db, before).gens, Committed(db, after).gens;
    assert was.Keys == db.gens.Keys + before.newGens.Keys == now.Keys;
    forall g | g in now ensures now[g] == was[g].(active := g == id) {
      assert ActiveIn(db, g) && g != id ==> g in after.flags;
    }
  }

  /** A registration that meets nobody else does to the tables exactly what
      the store's methods describe: schemas, generation and switch. */
  lemma RegistrationAlone(db: Db, nextId: int, req: Request) returns (tx: Tx, nextId': int)
    requires DbOk(db, nextId) && NamesDiffer(req.schemas) && req.identity == Identity(Keys(req.schemas))
    requires RegisterAlone(db, nextId, req.schemas).Some?
    ensures tx.at.Done? && Gets(db, Opened(Ensuring(req, 0)), nextId, tx, nextId')
    ensures var db' := RegisterAlone(db, nextId, req.schemas).value;
      && HasIdentity(db', req.identity, tx.at.id)
      && Committed(db, tx) ==
        if req.activate && !db'.gens[tx.at.id].active then db'.(gens := Switch(db'.gens, tx.at.id)) else db'
  {
    var begun := Opened(Ensuring(req, 0));
    assert req.schemas[..0] == [];
    var ensured := EnsureAlone(db, begun, nextId);
    var decided;
    if Registered(db, req.identity) {
      decided, nextId' := Exec(db, ensured, nextId, 0).tx, nextId;
      GetsSelf(db, decided, nextId);
      GetsFirst(db, ensured, nextId, 0, decided, nextId);
      CommittedOld(db, decided, nextId, req);
    } else {
      InsertAlone(db, ensured, nextId);
      decided, nextId' := Tx(Decide(req, nextId, false), ensured.newSchemas, map[nextId := req.identity], Keys(req.schemas), map[nextId := false]), nextId + 1;
      CommittedNew(db, decided, req, nextId);
    }
    GetsThen(db, begun, nextId, ensured, nextId, decided, nextId');
    tx := decided;
    if decided.at.Deactivate? {
      tx := SwitchAlone(db, decided, nextId');
      GetsThen(db, begun, nextId, decided, nextId', tx, nextId');
      CommittedSwitch(db, decided, tx, tx.at.id);
    }
  }

  // ----- The same in the machine -----

  // Nobody but t holds anything.
  predicate Quiet(s: State, t: nat) {
    t in s.txs && forall u :: u in s.txs && u != t ==>
      s.txs[u].newSchemas == map[] && s.txs[u].newGens == map[] && s.txs[u].flags == map[]
  }

  predicate Continues(run: seq<State>, actions: seq<Action>, run': seq<State>, actions': seq<Action>) {
    run <= run' && actions <= actions' && forall k :: |actions| <= k < |actions'| ==> actions'[k].Execute? || actions'[k].Commit?
  }

  lemma OneStepOn(run: seq<State>, actions: seq<Action>, a: Action) returns (run': seq<State>, actions': seq<Action>)
    requires IsRun(run, actions) && Enabled(run[|actions|], a)
    ensures IsRun(run', actions') && run' == run + [Next(run[|actions|], a)] && actions' == actions + [a]
  {
    run', actions' := run + [Next(run[|actions|], a)], actions + [a];
  }

  lemma {:induction false} LeadsIsARun(run: seq<State>, actions: seq<Action>, t: nat, n: nat, tx: Tx, nextId: int)
      returns (run': seq<State>, actions': seq<Action>)
    requires IsRun(run, actions) && Quiet(run[|actions|], t)
    requires var s := run[|actions|]; Leads(s.db, s.txs[t], s.nextId, n, tx, nextId)
    ensures IsRun(run', actions') && Continues(run, actions, run', actions')
    ensures forall k :: |actions| <= k < |actions'| ==> actions'[k].Execute?
    ensures var s := run[|actions|]; run'[|actions'|] == State(s.db, s.txs[t := tx], nextId)
    decreases n
  {
    var s := run[|actions|];
    if n == 0 {
      run', actions' := run, actions;
      assert s.txs[t := tx] == s.txs;
    } else {
      var row :| Takes(s.db, s.txs[t], s.nextId, row)
              && Leads(s.db, Exec(s.db, s.txs[t], s.nextId, row).tx, NextIdAfter(s.txs[t], s.nextId), n - 1, tx, nextId);
      QuietStep(s, t, row);
      var next, so := OneStepOn(run, actions, Execute(t, row));
      run', actions' := LeadsIsARun(next, so, t, n - 1, tx, nextId);
      assert next[|so|].txs[t := tx] == s.txs[t := tx];
    }
  }

  // Nothing the others hold is in the way.
  lemma QuietStep(s: State, t: nat, row: int)
    requires Quiet(s, t) && !Ready(s.txs[t]) && Takes(s.db, s.txs[t], s.nextId, row)
    ensures Enabled(s, Execute(t, row))
    ensures var s' := Next(s, Execute(t, row));
      && s' == State(s.db, s.txs[t := Exec(s.db, s.txs[t], s.nextId, row).tx], NextIdAfter(s.txs[t], s.nextId))
      && Quiet(s', t)
  {
    assert forall u :: u in s.txs ==> !WaitsFor(s, t, row, u);
  }

  // From any reachable state with nobody else about, the registration above
  // is a run: begin, its statements, commit.
  lemma RegistrationAloneIsARun(run: seq<State>, actions: seq<Action>, t: nat, req: Request)
      returns (run': seq<State>, actions': seq<Action>, id: int)
    requires IsRun(run, actions) && run[|actions|].txs == map[]
    requires NamesDiffer(req.schemas) && req.identity == Identity(Keys(req.schemas))
    requires RegisterAlone(run[|actions|].db, run[|actions|].nextId, req.schemas).Some?
    ensures IsRun(run', actions') && run <= run' && run'[|actions'|].txs == map[]
    ensures var s := run[|actions|];
      var db' := RegisterAlone(s.db, s.nextId, req.schemas).value;
      && HasIdentity(db', req.identity, id)
      && run'[|actions'|].db ==
        if req.activate && !db'.gens[id].active then db'.(gens := Switch(db'.gens, id)) else db'
  {
    var s := run[|actions|];
    RunInv(run, actions, |actions|);
    var tx, nextId := RegistrationAlone(s.db, s.nextId, req);
    var n: nat :| Leads(s.db, Opened(Ensuring(req, 0)), s.nextId, n, tx, nextId);
    var begun, first := OneStepOn(run, actions, Begin(t, Ensuring(req, 0)));
    assert begun[|first|].txs == map[t := Opened(Ensuring(req, 0))];
    var done, next := LeadsIsARun(begun, first, t, n, tx, nextId);
    assert done[|next|].txs == map[t := tx];
    run', actions' := OneStepOn(done, next, Commit(t));
    assert run'[|actions'|] == Next(done[|next|], Commit(t));
    id := tx.at.id;
  }

  lemma ActivationAlone(db: Db, nextId: int, id: int) returns (tx: Tx)
    requires id in db.gens
    ensures tx.at == Done(id) && Gets(db, Opened(Looking(id)), nextId, tx, nextId)
    ensures tx.newGens == map[] && tx.newSchemas == map[]
    ensures if ActiveIn(db, id) then tx.flags == map[] else Switched(db, tx, id) && tx.flags.Keys <= db.gens.Keys
  {
    var looking := Opened(Looking(id));
    if ActiveIn(db, id) {
      tx := Opened(Done(id));
      GetsSelf(db, tx, nextId);
    } else {
      tx := SwitchAlone(db, Opened(Deactivate(id)), nextId);
    }
    GetsFirst(db, looking, nextId, 0, tx, nextId);
  }

  lemma CommittedActivation(db: Db, tx: Tx, id: int)
    requires SingleActive(db) && id in db.gens && tx.newGens == map[] && tx.newSchemas == map[]
    requires if ActiveIn(db, id) then tx.flags == map[] else Switched(db, tx, id) && tx.flags.Keys <= db.gens.Keys
    ensures Committed(db, tx) == db.(gens := Switch(db.gens, id))
  {
    forall g | g in db.gens ensures Committed(db, tx).gens[g] == db.gens[g].(active := g == id) {
      CommittedGen(db, tx, g);
      assert ActiveIn(db, g) <==> db.gens[g].active;
    }
    assert Committed(db, tx).gens.Keys == db.gens.Keys;
    assert db.schemas + map[] == db.schemas;
  }

  /** From any reachable state with nobody else about, any registered generation
      can be activated: begin, its statements, commit, and it alone is active. */
  lemma ActivationAloneIsARun(run: seq<State>, actions: seq<Action>, t: nat, id: int)
      returns (run': seq<State>, actions': seq<Action>)
    requires IsRun(run, actions) && run[|actions|].txs == map[] && id in run[|actions|].db.gens
    ensures IsRun(run', actions') && run <= run' && run'[|actions'|].txs == map[]
    ensures run'[|actions'|].db == run[|actions|].db.(gens := Switch(run[|actions|].db.gens, id))
  {
    var s := run[|actions|];
    RunInv(run, actions, |actions|);
    var tx := ActivationAlone(s.db, s.nextId, id);
    CommittedActivation(s.db, tx, id);
    var n: nat :| Leads(s.db, Opened(Looking(id)), s.nextId, n, tx, s.nextId);
    var begun, first := OneStepOn(run, actions, Begin(t, Looking(id)));
    assert begun[|first|].txs == map[t := Opened(Looking(id))];
    var done, next := LeadsIsARun(begun, first, t, n, tx, s.nextId);
    assert done[|next|].txs == map[t := tx];
    run', actions' := OneStepOn(done, next, Commit(t));
    assert run'[|actions'|] == Next(done[|next|], Commit(t));
  }
}
