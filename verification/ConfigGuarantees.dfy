/** What config generations promise over every interleaving of registrations
    and activations, statement by statement. */
module ConfigGuarantees {
  import opened ConfigModel
  import opened ConfigSteps

  /** At most one generation is active in every committed state, and once one
      has been active exactly one is. */
  lemma OneActiveGeneration(run: seq<State>, actions: seq<Action>, i: nat, j: nat)
    requires IsRun(run, actions) && i <= j < |run|
    ensures forall a, b :: ActiveIn(run[j].db, a) && ActiveIn(run[j].db, b) ==> a == b
    ensures HasActive(run[i].db) ==> exists g :: g in run[j].db.gens && ActiveIn(run[j].db, g)
  {
    RunInv(run, actions, j);
    RunLater(run, actions, i, j);
  }

  // The commit of an activation leaves exactly its generation active; every
  // other commit leaves the active generation as it is.
  lemma CommitSwitches(run: seq<State>, actions: seq<Action>, i: nat, g: int)
    requires IsRun(run, actions) && i < |actions| && actions[i].Commit?
    ensures var tx := run[i].txs[actions[i].t];
      ActiveIn(run[i + 1].db, g) <==> if Switches(tx) then g == tx.at.id else ActiveIn(run[i].db, g)
  {
    RunInv(run, actions, i);
    assert TxOk(run[i].db, run[i].nextId, run[i].txs[actions[i].t]);
    SwitchedBy(run[i].db, run[i].nextId, run[i].txs[actions[i].t], g);
  }

  lemma SwitchedBy(db: Db, nextId: int, tx: Tx, g: int)
    requires TxOk(db, nextId, tx) && Ready(tx)
    ensures ActiveIn(Committed(db, tx), g) <==> if Switches(tx) then g == tx.at.id else ActiveIn(db, g)
  {
    CommittedGen(db, tx, g);
    CommittedGen(db, tx, tx.at.id);
    if Switches(tx) {
      assert Switched(db, tx, tx.at.id);
    } else {
      assert Untouched(tx);
    }
  }

  /** The generation a registration or activation returns is active at its
      commit exactly if it switched to it itself, or found it active and it
      still is. */
  lemma ActiveAtCommitIff(run: seq<State>, actions: seq<Action>, i: nat)
    requires IsRun(run, actions) && i < |actions| && actions[i].Commit?
    ensures var tx := run[i].txs[actions[i].t];
      ActiveIn(run[i + 1].db, tx.at.id) <==> Switches(tx) || ActiveIn(run[i].db, tx.at.id)
  {
    CommitSwitches(run, actions, i, run[i].txs[actions[i].t].at.id);
  }

  // The activation of an id: refused only if there is no such generation, over
  // at once if it is active, and else a switch to it.
  lemma ActivationMeans(db: Db, tx: Tx, nextId: int, row: int, id: int)
    requires tx.at == Looking(id)
    ensures Exec(db, tx, nextId, row) ==
      if id !in db.gens then Refuse(NotFound)
      else Continue(tx.(at := if ActiveIn(db, id) then Done(id) else Deactivate(id)))
  {
  }

  // If another generation is active later, an activation of it has committed in
  // between.
  lemma {:induction false} ActivationBetween(run: seq<State>, actions: seq<Action>, i: nat, j: nat, g: int, h: int)
      returns (c: nat)
    requires IsRun(run, actions) && i <= j < |run|
    requires ActiveIn(run[i].db, g) && ActiveIn(run[j].db, h) && g != h
    ensures i <= c < j && actions[c].Commit?
    ensures Switches(run[c].txs[actions[c].t]) && run[c].txs[actions[c].t].at.id == h
    decreases j
  {
    if i == j {
      OneActiveGeneration(run, actions, i, i);
    } else if ActiveIn(run[j - 1].db, h) {
      c := ActivationBetween(run, actions, i, j - 1, g, h);
    } else {
      c := j - 1;
      if actions[c].Commit? {
        CommitSwitches(run, actions, c, h);
      }
    }
  }

  // ----- Registration -----

  // A generation with this identity, once there, stays.
  lemma RegisteredStays(run: seq<State>, actions: seq<Action>, i: nat, j: nat, identity: string)
    requires IsRun(run, actions) && i <= j < |run| && Registered(run[i].db, identity)
    ensures Registered(run[j].db, identity)
  {
    RunLater(run, actions, i, j);
    var g :| g in run[i].db.gens && HasIdentity(run[i].db, identity, g);
    assert HasIdentity(run[j].db, identity, g);
  }

  /** Two attempts suffice. When an attempt loses to an identity conflict, any
      later attempt at the same identity finds the generation and goes on with
      it, whatever else happens in between; it never reaches the insertion. */
  lemma SecondAttemptFinds(run: seq<State>, actions: seq<Action>, i: nat, t: nat, row: int, j: nat, u: nat, identity: string)
    requires IsRun(run, actions) && i <= j < |run|
    requires t in run[i].txs && run[i].txs[t].at.Inserting? && run[i].txs[t].at.req.identity == identity
    requires Exec(run[i].db, run[i].txs[t], run[i].nextId, row) == Refuse(HashConflict)
    requires u in run[j].txs && run[j].txs[u].at.Finding? && run[j].txs[u].at.req.identity == identity
    ensures var next := Exec(run[j].db, run[j].txs[u], run[j].nextId, row);
      && next.Continue?
      && (next.tx.at.Done? || next.tx.at.Deactivate?)
      && HasIdentity(run[j].db, identity, next.tx.at.id)
      && next.tx.newGens == map[]
  {
    RegisteredStays(run, actions, i, j, identity);
    RunInv(run, actions, j);
    assert TxOk(run[j].db, run[j].nextId, run[j].txs[u]);
  }

  // No two generations share an identity, and a committed one never changes
  // it or its schema list.
  lemma GenerationsAreFixed(run: seq<State>, actions: seq<Action>, i: nat, j: nat, g: int)
    requires IsRun(run, actions) && i <= j < |run| && g in run[i].db.gens
    ensures g in run[j].db.gens
    ensures run[j].db.gens[g].identity == run[i].db.gens[g].identity
    ensures run[j].db.gens[g].refs == run[i].db.gens[g].refs
    ensures forall h :: h in run[j].db.gens && run[j].db.gens[h].identity == run[i].db.gens[g].identity ==> h == g
  {
    RunLater(run, actions, i, j);
    RunInv(run, actions, j);
  }

  // ----- Reading the active generation -----

  // GetConfigGenerationSchemasWithSpec: references in ordinal order, joined
  // with the stored schemas.
  function SchemasOf(db: Db, g: int): seq<(Key, Stored)>
    requires g in db.gens && RefsStored(db)
  {
    var refs := db.gens[g].refs;
    seq(|refs|, i requires 0 <= i < |refs| => (refs[i], db.schemas[refs[i]]))
  }

  /** GetActiveConfigGeneration reads the active id and then its schemas.
      However many activations and registrations commit in between, it returns
      the schemas the generation was registered with, all of them, in order. */
  lemma ActiveReadIsCoherent(run: seq<State>, actions: seq<Action>, i: nat, j: nat, g: int)
    requires IsRun(run, actions) && i <= j < |run| && ActiveIn(run[i].db, g)
    ensures RefsStored(run[i].db) && RefsStored(run[j].db) && g in run[j].db.gens
    ensures SchemasOf(run[j].db, g) == SchemasOf(run[i].db, g)
  {
    RunInv(run, actions, i);
    RunInv(run, actions, j);
    RunLater(run, actions, i, j);
    forall k | 0 <= k < |run[i].db.gens[g].refs|
      ensures SchemasOf(run[j].db, g)[k] == SchemasOf(run[i].db, g)[k]
    {
      var key := run[i].db.gens[g].refs[k];
      assert key in run[i].db.schemas;
    }
  }
}
