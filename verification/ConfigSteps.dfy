/** What every reachable state of the config tables keeps, and how they can
    change over time. */
module ConfigSteps {
  import opened ConfigModel

  // ----- Invariant -----

  // The partial unique index: at most one active row.
  ghost predicate SingleActive(db: Db) {
    forall a, b :: ActiveIn(db, a) && ActiveIn(db, b) ==> a == b
  }

  predicate UniqueIdentity(db: Db) {
    forall a, b :: a in db.gens && b in db.gens && db.gens[a].identity == db.gens[b].identity ==> a == b
  }

  predicate RefsStored(db: Db) {
    forall g :: g in db.gens ==> forall k :: k in db.gens[g].refs ==> k in db.schemas
  }

  predicate IdsUsed(db: Db, nextId: int) {
    forall g :: g in db.gens ==> g < nextId
  }

  predicate AllFalse(flags: map<int, bool>) {
    forall g :: g in flags ==> !flags[g]
  }

  predicate StoredFor(db: Db, tx: Tx, k: Key) {
    k in db.schemas || k in tx.newSchemas
  }

  predicate Covers(db: Db, tx: Tx, req: Request, n: nat) {
    n <= |req.schemas| && forall j :: 0 <= j < n ==> StoredFor(db, tx, KeyOf(req.schemas[j]))
  }

  predicate Exists(db: Db, tx: Tx, id: int) {
    id in db.gens || id in tx.newGens
  }

  // The transaction has switched the active generation to id: everything else
  // that was active it has switched off itself.
  predicate Switched(db: Db, tx: Tx, id: int) {
    && id in tx.flags && tx.flags[id]
    && (forall g :: g in tx.flags && g != id ==> !tx.flags[g])
    && (forall g :: g in db.gens && ActiveIn(db, g) && g != id ==> g in tx.flags)
  }

  // It has written no flag but that of the generation it inserted.
  predicate Untouched(tx: Tx) {
    tx.flags.Keys == tx.newGens.Keys && AllFalse(tx.flags)
  }

  predicate FlagsOk(db: Db, tx: Tx) {
    match tx.at
    case Referencing(req, id, i) =>
      tx.newGens == map[id := req.identity] && Untouched(tx) && i <= |req.schemas| && tx.refs == Keys(req.schemas[..i])
      && Covers(db, tx, req, |req.schemas|)
    case Deactivate(id) => Untouched(tx) && Exists(db, tx, id)
    case Deactivating(id, _) => AllFalse(tx.flags) && Exists(db, tx, id)
    case Activate(id) => AllFalse(tx.flags) && Exists(db, tx, id)
    case Done(id) => (Switched(db, tx, id) || Untouched(tx)) && Exists(db, tx, id)
    case Ensuring(req, i) => tx.newGens == map[] && Untouched(tx) && tx.refs == [] && Covers(db, tx, req, i)
    case Storing(req, i) => tx.newGens == map[] && Untouched(tx) && tx.refs == [] && i < |req.schemas| && Covers(db, tx, req, i)
    case Finding(req) => tx.newGens == map[] && Untouched(tx) && tx.refs == [] && Covers(db, tx, req, |req.schemas|)
    case Inserting(req) => tx.newGens == map[] && Untouched(tx) && tx.refs == [] && Covers(db, tx, req, |req.schemas|)
    case Looking(_) => tx.newGens == map[] && Untouched(tx) && tx.refs == []
  }

  predicate TxOk(db: Db, nextId: int, tx: Tx) {
    && FlagsOk(db, tx)
    && tx.newGens.Keys <= tx.flags.Keys
    && (forall g :: g in tx.newGens ==> g < nextId && g !in db.gens && !Registered(db, tx.newGens[g]))
    && (forall g, h :: g in tx.newGens && h in tx.newGens ==> g == h)
    && (forall g :: g in tx.flags ==> Exists(db, tx, g))
    && (forall k :: k in tx.refs ==> StoredFor(db, tx, k))
  }

  predicate Switches(tx: Tx) {
    exists g :: g in tx.flags && tx.flags[g]
  }

  // Locks and unique keys keep open transactions apart.
  predicate Apart(a: Tx, b: Tx) {
    && a.flags.Keys !! b.flags.Keys
    && a.newGens.Values !! b.newGens.Values
    && !(Switches(a) && Switches(b))
  }

  predicate AllApart(txs: map<nat, Tx>) {
    forall t, u :: t in txs && u in txs && t != u ==> Apart(txs[t], txs[u])
  }

  ghost predicate DbOk(db: Db, nextId: int) {
    SingleActive(db) && UniqueIdentity(db) && RefsStored(db) && IdsUsed(db, nextId)
  }

  ghost predicate Inv(s: State) {
    && DbOk(s.db, s.nextId)
    && AllApart(s.txs)
    && forall t :: t in s.txs ==> TxOk(s.db, s.nextId, s.txs[t])
  }

  // ----- A transaction's own steps -----

  lemma ActivateKeepsOk(s: State, t: nat, row: int)
    requires Inv(s) && Enabled(s, Execute(t, row)) && s.txs[t].at.Activate?
    ensures TxOk(s.db, s.nextId, Exec(s.db, s.txs[t], s.nextId, row).tx)
  {
    assert TxOk(s.db, s.nextId, s.txs[t]);
  }

  lemma ReferenceKeepsOk(db: Db, nextId: int, tx: Tx, row: int)
    requires TxOk(db, nextId, tx) && tx.at.Referencing? && Exec(db, tx, nextId, row).Continue?
    ensures TxOk(db, nextId, Exec(db, tx, nextId, row).tx)
  {
    var Referencing(req, id, i) := tx.at;
    if i < |req.schemas| {
      assert Keys(req.schemas[..i + 1]) == Keys(req.schemas[..i]) + [KeyOf(req.schemas[i])];
    }
  }

  // Up to the insertion of a generation no flag is written.
  lemma EnsureKeepsOk(db: Db, nextId: int, tx: Tx, row: int)
    requires TxOk(db, nextId, tx) && (tx.at.Ensuring? || tx.at.Storing?) && Exec(db, tx, nextId, row).Continue?
    ensures TxOk(db, nextId, Exec(db, tx, nextId, row).tx)
  {
  }

  lemma FindKeepsOk(db: Db, nextId: int, tx: Tx, row: int)
    requires TxOk(db, nextId, tx) && (tx.at.Finding? || tx.at.Looking?) && Exec(db, tx, nextId, row).Continue?
    ensures TxOk(db, nextId, Exec(db, tx, nextId, row).tx)
  {
  }

  lemma InsertKeepsOk(db: Db, nextId: int, tx: Tx, row: int)
    requires TxOk(db, nextId, tx) && tx.at.Inserting? && Exec(db, tx, nextId, row).Continue?
    requires IdsUsed(db, nextId)
    ensures TxOk(db, nextId + 1, Exec(db, tx, nextId, row).tx)
  {
    var req := tx.at.req;
    var next := Exec(db, tx, nextId, row).tx;
    assert next.refs == Keys(req.schemas[..0]);
    assert next.newGens == map[nextId := req.identity];
  }

  lemma FlipKeepsOk(db: Db, nextId: int, tx: Tx, row: int)
    requires TxOk(db, nextId, tx) && (tx.at.Deactivate? || tx.at.Deactivating?) && Exec(db, tx, nextId, row).Continue?
    ensures TxOk(db, nextId, Exec(db, tx, nextId, row).tx)
  {
  }

  lemma ExecKeepsOk(s: State, t: nat, row: int)
    requires Inv(s) && Enabled(s, Execute(t, row))
    ensures var s' := Next(s, Execute(t, row)); TxOk(s'.db, s'.nextId, s'.txs[t])
  {
    var tx := s.txs[t];
    assert TxOk(s.db, s.nextId, tx);
    match tx.at
    case Activate(_) => ActivateKeepsOk(s, t, row);
    case Referencing(_, _, _) => ReferenceKeepsOk(s.db, s.nextId, tx, row);
    case Inserting(_) => InsertKeepsOk(s.db, s.nextId, tx, row);
    case Ensuring(_, _) => EnsureKeepsOk(s.db, s.nextId, tx, row);
    case Storing(_, _) => EnsureKeepsOk(s.db, s.nextId, tx, row);
    case Finding(_) => FindKeepsOk(s.db, s.nextId, tx, row);
    case Looking(_) => FindKeepsOk(s.db, s.nextId, tx, row);
    case Deactivate(_) => FlipKeepsOk(s.db, s.nextId, tx, row);
    case Deactivating(_, _) => FlipKeepsOk(s.db, s.nextId, tx, row);
  }

  // Most statements touch neither flags nor new generations.
  lemma ExecFlags(db: Db, tx: Tx, nextId: int, row: int)
    requires !Ready(tx) && Exec(db, tx, nextId, row).Continue?
    ensures !tx.at.Inserting? ==> Exec(db, tx, nextId, row).tx.newGens == tx.newGens
    ensures !tx.at.Inserting? && !tx.at.Deactivating? && !tx.at.Activate? ==> Exec(db, tx, nextId, row).tx.flags == tx.flags
  {
  }

  lemma InsertKeepsApart(s: State, t: nat, row: int, u: nat)
    requires Inv(s) && Enabled(s, Execute(t, row)) && u in s.txs && u != t && s.txs[t].at.Inserting?
    ensures Apart(Next(s, Execute(t, row)).txs[t], s.txs[u])
  {
    var tx, other := s.txs[t], s.txs[u];
    assert TxOk(s.db, s.nextId, tx) && TxOk(s.db, s.nextId, other);
    assert !WaitsFor(s, t, row, u);
    var next := Exec(s.db, tx, s.nextId, row).tx;
    assert next.newGens == map[s.nextId := tx.at.req.identity];
    assert next.flags == map[s.nextId := false];
    assert s.nextId !in s.db.gens;
  }

  // Switching off writes at most the row it looks at.
  lemma DeactivateFlags(db: Db, tx: Tx, nextId: int, row: int)
    requires tx.at.Deactivating?
    ensures var next := Exec(db, tx, nextId, row);
      && next.Continue? && next.tx.newGens == tx.newGens
      && (next.tx.flags == tx.flags || (row in tx.at.candidates && next.tx.flags == tx.flags[row := false]))
  {
  }

  lemma DeactivateKeepsApart(s: State, t: nat, row: int, u: nat)
    requires Inv(s) && Enabled(s, Execute(t, row)) && u in s.txs && u != t && s.txs[t].at.Deactivating?
    ensures Apart(Next(s, Execute(t, row)).txs[t], s.txs[u])
  {
    DeactivateFlags(s.db, s.txs[t], s.nextId, row);
    assert FlagsOk(s.db, s.txs[t]) && Apart(s.txs[t], s.txs[u]);
    assert !WaitsFor(s, t, row, u);
  }

  lemma ActivateKeepsApart(s: State, t: nat, row: int, u: nat)
    requires Inv(s) && Enabled(s, Execute(t, row)) && u in s.txs && u != t && s.txs[t].at.Activate?
    ensures Apart(Next(s, Execute(t, row)).txs[t], s.txs[u])
  {
    assert !WaitsFor(s, t, row, u);
    assert Apart(s.txs[t], s.txs[u]);
  }

  lemma ExecKeepsApart(s: State, t: nat, row: int, u: nat)
    requires Inv(s) && Enabled(s, Execute(t, row)) && u in s.txs && u != t
    ensures Apart(Next(s, Execute(t, row)).txs[t], s.txs[u])
  {
    if s.txs[t].at.Inserting? {
      InsertKeepsApart(s, t, row, u);
    } else if s.txs[t].at.Deactivating? {
      DeactivateKeepsApart(s, t, row, u);
    } else if s.txs[t].at.Activate? {
      ActivateKeepsApart(s, t, row, u);
    } else {
      ExecFlags(s.db, s.txs[t], s.nextId, row);
      assert Apart(s.txs[t], s.txs[u]);
    }
  }

  // ----- Commits -----

  // What a commit makes of one generation.
  lemma CommittedGen(db: Db, tx: Tx, g: int)
    ensures g in Committed(db, tx).gens <==> g in db.gens || g in tx.newGens
    ensures g in db.gens && g !in tx.newGens ==>
      Committed(db, tx).gens[g].identity == db.gens[g].identity && Committed(db, tx).gens[g].refs == db.gens[g].refs
    ensures g in tx.newGens ==>
      Committed(db, tx).gens[g].identity == tx.newGens[g] && Committed(db, tx).gens[g].refs == tx.refs
    ensures ActiveIn(Committed(db, tx), g) <==>
      (g in db.gens || g in tx.newGens) && if g in tx.flags then tx.flags[g] else (g !in tx.newGens && ActiveIn(db, g))
  {
  }

  lemma CommitKeepsDb(db: Db, nextId: int, tx: Tx)
    requires DbOk(db, nextId) && TxOk(db, nextId, tx) && Ready(tx)
    ensures DbOk(Committed(db, tx), nextId)
  {
    var db' := Committed(db, tx);
    forall g ensures g in db'.gens ==> g < nextId {
      CommittedGen(db, tx, g);
    }
    forall a, b | ActiveIn(db', a) && ActiveIn(db', b) ensures a == b {
      CommittedGen(db, tx, a);
      CommittedGen(db, tx, b);
    }
    forall a, b | a in db'.gens && b in db'.gens && db'.gens[a].identity == db'.gens[b].identity ensures a == b {
      CommittedGen(db, tx, a);
      CommittedGen(db, tx, b);
      assert a in tx.newGens && b in db.gens ==> !HasIdentity(db, tx.newGens[a], b);
      assert b in tx.newGens && a in db.gens ==> !HasIdentity(db, tx.newGens[b], a);
    }
    forall g, k | g in db'.gens && k in db'.gens[g].refs ensures k in db'.schemas {
      CommittedGen(db, tx, g);
    }
  }

  // A committed generation is none of another transaction's new ones.
  lemma CommitKeepsNewGen(db: Db, nextId: int, tx: Tx, other: Tx, g: int)
    requires TxOk(db, nextId, tx) && TxOk(db, nextId, other) && Apart(tx, other) && g in other.newGens
    ensures g !in Committed(db, tx).gens && !Registered(Committed(db, tx), other.newGens[g])
  {
    var db' := Committed(db, tx);
    assert g in other.flags.Keys;
    assert g !in tx.newGens;
    forall h | h in db'.gens ensures !HasIdentity(db', other.newGens[g], h) {
      CommittedGen(db, tx, h);
      assert h in db.gens ==> !HasIdentity(db, other.newGens[g], h);
      assert other.newGens[g] in other.newGens.Values;
      assert h in tx.newGens ==> tx.newGens[h] in tx.newGens.Values;
    }
  }

  lemma CommitKeepsSwitched(db: Db, nextId: int, tx: Tx, other: Tx)
    requires TxOk(db, nextId, tx) && Ready(tx) && TxOk(db, nextId, other) && Apart(tx, other)
    requires other.at.Done? && Switched(db, other, other.at.id)
    ensures Switched(Committed(db, tx), other, other.at.id)
  {
    var db' := Committed(db, tx);
    assert Switches(other) && !Switches(tx);
    forall g | g in db'.gens && ActiveIn(db', g) && g != other.at.id ensures g in other.flags {
      CommittedGen(db, tx, g);
    }
  }

  // Another transaction's commit leaves what this one relies on.
  lemma CommitKeepsOther(db: Db, nextId: int, tx: Tx, other: Tx)
    requires TxOk(db, nextId, tx) && Ready(tx) && TxOk(db, nextId, other) && Apart(tx, other)
    ensures TxOk(Committed(db, tx), nextId, other)
  {
    var db' := Committed(db, tx);
    forall g | g in other.newGens ensures g !in db'.gens && !Registered(db', other.newGens[g]) {
      CommitKeepsNewGen(db, nextId, tx, other, g);
    }
    assert db.gens.Keys <= db'.gens.Keys;
    assert db.schemas.Keys <= db'.schemas.Keys;
    if other.at.Done? && Switched(db, other, other.at.id) {
      CommitKeepsSwitched(db, nextId, tx, other);
    }
    FrameFlags(db, db', other);
  }

  lemma FrameFlags(db: Db, db': Db, tx: Tx)
    requires FlagsOk(db, tx) && db.gens.Keys <= db'.gens.Keys && db.schemas.Keys <= db'.schemas.Keys
    requires tx.at.Done? && Switched(db, tx, tx.at.id) ==> Switched(db', tx, tx.at.id)
    ensures FlagsOk(db', tx)
  {
  }

  // ----- The machine -----

  lemma BeginKeepsInv(s: State, t: nat, at: Point)
    requires Inv(s) && Enabled(s, Begin(t, at))
    ensures Inv(Next(s, Begin(t, at)))
  {
    OpenedOk(s.db, s.nextId, at);
    forall u | u in s.txs ensures Apart(Opened(at), s.txs[u]) && Apart(s.txs[u], Opened(at)) {
      OpenedApart(at, s.txs[u]);
    }
  }

  // A transaction that has just begun holds nothing.
  lemma OpenedOk(db: Db, nextId: int, at: Point)
    requires Starts(at)
    ensures TxOk(db, nextId, Opened(at))
  {
  }

  lemma OpenedApart(at: Point, other: Tx)
    ensures Apart(Opened(at), other) && Apart(other, Opened(at))
  {
  }

  lemma ExecuteKeepsInv(s: State, t: nat, row: int)
    requires Inv(s) && Enabled(s, Execute(t, row))
    ensures Inv(Next(s, Execute(t, row)))
  {
    var s' := Next(s, Execute(t, row));
    ExecKeepsOk(s, t, row);
    forall u | u in s.txs && u != t ensures Apart(s'.txs[t], s'.txs[u]) && Apart(s'.txs[u], s'.txs[t]) {
      ExecKeepsApart(s, t, row, u);
    }
    forall u | u in s'.txs ensures TxOk(s'.db, s'.nextId, s'.txs[u]) {
      assert u != t ==> TxOk(s.db, s.nextId, s.txs[u]);
    }
  }

  lemma CommitKeepsInv(s: State, t: nat)
    requires Inv(s) && Enabled(s, Commit(t))
    ensures Inv(Next(s, Commit(t)))
  {
    var s' := Next(s, Commit(t));
    assert TxOk(s.db, s.nextId, s.txs[t]);
    CommitKeepsDb(s.db, s.nextId, s.txs[t]);
    forall u | u in s'.txs ensures TxOk(s'.db, s'.nextId, s'.txs[u]) {
      CommitKeepsOther(s.db, s.nextId, s.txs[t], s.txs[u]);
    }
  }

  lemma StepKeepsInv(s: State, a: Action)
    requires Inv(s) && Enabled(s, a)
    ensures Inv(Next(s, a))
  {
    match a
    case Begin(t, at) => BeginKeepsInv(s, t, at);
    case Execute(t, row) => ExecuteKeepsInv(s, t, row);
    case Commit(t) => CommitKeepsInv(s, t);
    case Rollback(t) =>
  }

  lemma {:induction false} RunInv(run: seq<State>, actions: seq<Action>, i: nat)
    requires IsRun(run, actions) && i < |run|
    ensures Inv(run[i])
  {
    if i > 0 {
      RunInv(run, actions, i - 1);
      StepKeepsInv(run[i - 1], actions[i - 1]);
    }
  }

  // ----- Time -----

  // Schemas and generations are never changed or deleted, apart from the
  // active flag, and once something is active something stays active.
  ghost predicate Later(db: Db, db': Db) {
    && (forall k :: k in db.schemas ==> k in db'.schemas && db'.schemas[k] == db.schemas[k])
    && (forall g :: g in db.gens ==> g in db'.gens && db'.gens[g].identity == db.gens[g].identity && db'.gens[g].refs == db.gens[g].refs)
    && (HasActive(db) ==> HasActive(db'))
  }

  ghost predicate HasActive(db: Db) {
    exists g :: g in db.gens && ActiveIn(db, g)
  }

  // No transaction has stored a schema that is stored by now.
  predicate SchemasApart(s: State) {
    && (forall t, k :: t in s.txs && k in s.txs[t].newSchemas ==> k !in s.db.schemas)
    && (forall t, u, k :: t in s.txs && u in s.txs && k in s.txs[t].newSchemas && k in s.txs[u].newSchemas ==> t == u)
  }

  lemma ExecSchemas(db: Db, tx: Tx, nextId: int, row: int)
    requires !Ready(tx) && Exec(db, tx, nextId, row).Continue?
    ensures forall k :: k in Exec(db, tx, nextId, row).tx.newSchemas ==>
      k in tx.newSchemas || (tx.at.Storing? && tx.at.i < |tx.at.req.schemas| && k == KeyOf(tx.at.req.schemas[tx.at.i]) && k !in db.schemas)
  {
  }

  lemma StepKeepsSchemasApart(s: State, a: Action)
    requires SchemasApart(s) && Enabled(s, a)
    ensures SchemasApart(Next(s, a))
  {
    match a
    case Execute(t, row) =>
      ExecSchemas(s.db, s.txs[t], s.nextId, row);
      forall u | u in s.txs && u != t ensures !WaitsFor(s, t, row, u) { }
    case _ =>
  }

  lemma {:induction false} RunSchemasApart(run: seq<State>, actions: seq<Action>, i: nat)
    requires IsRun(run, actions) && i < |run|
    ensures SchemasApart(run[i])
  {
    if i > 0 {
      RunSchemasApart(run, actions, i - 1);
      StepKeepsSchemasApart(run[i - 1], actions[i - 1]);
    }
  }

  lemma StepLater(s: State, a: Action)
    requires Inv(s) && SchemasApart(s) && Enabled(s, a)
    ensures Later(s.db, Next(s, a).db)
  {
    if a.Commit? {
      var tx := s.txs[a.t];
      assert TxOk(s.db, s.nextId, tx);
      var db' := Committed(s.db, tx);
      forall g | g in s.db.gens
        ensures g in db'.gens && db'.gens[g].identity == s.db.gens[g].identity && db'.gens[g].refs == s.db.gens[g].refs
      {
        CommittedGen(s.db, tx, g);
      }
      if g :| g in s.db.gens && ActiveIn(s.db, g) {
        CommittedGen(s.db, tx, g);
        CommittedGen(s.db, tx, tx.at.id);
        assert ActiveIn(db', if Switched(s.db, tx, tx.at.id) then tx.at.id else g);
      }
    }
  }

  lemma LaterTransitive(a: Db, b: Db, c: Db)
    requires Later(a, b) && Later(b, c)
    ensures Later(a, c)
  {
  }

  lemma LaterReflexive(db: Db)
    ensures Later(db, db)
  {
  }

  lemma RunStepLater(run: seq<State>, actions: seq<Action>, i: nat)
    requires IsRun(run, actions) && i < |actions|
    ensures Later(run[i].db, run[i + 1].db)
  {
    RunInv(run, actions, i);
    RunSchemasApart(run, actions, i);
    StepLater(run[i], actions[i]);
  }

  lemma LaterByOne(run: seq<State>, actions: seq<Action>, i: nat, j: nat)
    requires IsRun(run, actions) && i < j < |run| && Later(run[i].db, run[j - 1].db)
    ensures Later(run[i].db, run[j].db)
  {
    RunStepLater(run, actions, j - 1);
    LaterTransitive(run[i].db, run[j - 1].db, run[j].db);
  }

  lemma {:induction false} RunLater(run: seq<State>, actions: seq<Action>, i: nat, j: nat)
    requires IsRun(run, actions) && i <= j < |run|
    ensures Later(run[i].db, run[j].db)
    decreases j
  {
    if i == j {
      LaterReflexive(run[i].db);
    } else {
      RunLater(run, actions, i, j - 1);
      LaterByOne(run, actions, i, j);
    }
  }
}
