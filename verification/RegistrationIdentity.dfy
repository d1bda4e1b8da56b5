/** Registration is idempotent over every interleaving: a set registered before
    is found again, and what is stored under an identity is a set that has it. */
module RegistrationIdentity {
  import opened Basics
  import opened ConfigModel
  import opened ConfigSteps
  import opened ConfigGuarantees
  import opened ConfigStoreMethods
  import opened RegistrationRace
  import opened IdentityHash

  // ----- Identities belong to their lists -----

  // Registrations carry the identity of their own list.
  predicate OwnIdentity(req: Request) {
    req.identity == Identity(Keys(req.schemas))
  }

  predicate OwnIdentities(actions: seq<Action>) {
    forall b :: 0 <= b < |actions| && actions[b].Begin? && actions[b].at.Ensuring? ==> OwnIdentity(actions[b].at.req)
  }

  // A transaction's new generation, if any, is the one its request asks for.
  predicate InsertsOwn(db: Db, tx: Tx, req: Request) {
    && OwnIdentity(req) && Progressing(db, tx, req) && RefsAre(tx, req)
    && forall g :: g in tx.newGens ==> tx.newGens[g] == req.identity
  }

  ghost predicate HonestTx(db: Db, tx: Tx) {
    OnlyActivates(tx) || exists req :: InsertsOwn(db, tx, req)
  }

  ghost predicate Honest(s: State) {
    IdentitiesMatch(s.db) && forall t :: t in s.txs ==> HonestTx(s.db, s.txs[t])
  }

  lemma ExecInserts(db: Db, tx: Tx, nextId: int, row: int)
    requires !Ready(tx) && Exec(db, tx, nextId, row).Continue?
    ensures var added := Exec(db, tx, nextId, row).tx.newGens;
      if tx.at.Inserting? then added == tx.newGens[nextId := tx.at.req.identity] else added == tx.newGens
  {
  }

  lemma OwnStepHonest(db: Db, nextId: int, tx: Tx, row: int)
    requires TxOk(db, nextId, tx) && HonestTx(db, tx) && !Ready(tx) && Exec(db, tx, nextId, row).Continue?
    ensures HonestTx(db, Exec(db, tx, nextId, row).tx)
  {
    var next := Exec(db, tx, nextId, row).tx;
    if OnlyActivates(tx) {
      ActivationStays(db, tx, nextId, row);
    } else {
      var req :| InsertsOwn(db, tx, req);
      OwnStepProgresses(db, tx, req, nextId, row);
      OwnStepRefs(db, tx, req, nextId, row);
      ExecInserts(db, tx, nextId, row);
      assert InsertsOwn(db, next, req);
    }
  }

  lemma CommitHonest(db: Db, nextId: int, tx: Tx)
    requires IdentitiesMatch(db) && TxOk(db, nextId, tx) && Ready(tx) && HonestTx(db, tx)
    ensures IdentitiesMatch(Committed(db, tx))
  {
    forall g | g in Committed(db, tx).gens
      ensures Committed(db, tx).gens[g].identity == Identity(Committed(db, tx).gens[g].refs)
    {
      CommittedGen(db, tx, g);
    }
  }

  // Whether a transaction is honest does not depend on the tables.
  lemma HonestAnywhere(db: Db, db': Db, tx: Tx)
    requires HonestTx(db, tx)
    ensures HonestTx(db', tx)
  {
    if !OnlyActivates(tx) {
      var req :| InsertsOwn(db, tx, req);
      assert InsertsOwn(db', tx, req);
    }
  }

  lemma BegunHonest(db: Db, at: Point)
    requires Starts(at) && (at.Ensuring? ==> OwnIdentity(at.req))
    ensures HonestTx(db, Opened(at))
  {
    if at.Ensuring? {
      assert InsertsOwn(db, Opened(at), at.req);
    }
  }

  lemma StepHonest(s: State, a: Action)
    requires Inv(s) && Honest(s) && Enabled(s, a)
    requires a.Begin? && a.at.Ensuring? ==> OwnIdentity(a.at.req)
    ensures Honest(Next(s, a))
  {
    var s' := Next(s, a);
    match a
    case Begin(t, at) => BegunHonest(s.db, at);
    case Execute(t, row) =>
      assert TxOk(s.db, s.nextId, s.txs[t]);
      OwnStepHonest(s.db, s.nextId, s.txs[t], row);
    case Commit(t) =>
      assert TxOk(s.db, s.nextId, s.txs[t]);
      CommitHonest(s.db, s.nextId, s.txs[t]);
      forall u | u in s'.txs ensures HonestTx(s'.db, s'.txs[u]) {
        HonestAnywhere(s.db, s'.db, s.txs[u]);
      }
    case Rollback(_) =>
  }

  lemma {:induction false} RunHonest(run: seq<State>, actions: seq<Action>, i: nat)
    requires IsRun(run, actions) && OwnIdentities(actions) && i < |run|
    ensures Honest(run[i])
  {
    if i > 0 {
      RunHonest(run, actions, i - 1);
      RunInv(run, actions, i - 1);
      StepHonest(run[i - 1], actions[i - 1]);
    }
  }

  /** In every reachable state a permutation of a stored generation's list has
      that generation's identity and no other's, and storing its schemas adds
      nothing. */
  lemma ReachablePermutationsFindThemselves(run: seq<State>, actions: seq<Action>, i: nat, g: int, requested: seq<Schema>)
    requires IsRun(run, actions) && OwnIdentities(actions) && i < |run| && g in run[i].db.gens
    requires multiset(Keys(requested)) == multiset(run[i].db.gens[g].refs)
    ensures forall id :: HasIdentity(run[i].db, Identity(Keys(requested)), id) <==> id == g
    ensures var ensured := EnsureAll(run[i].db.schemas, requested); ensured.Kept? ==> ensured == Kept(run[i].db.schemas)
  {
    RunHonest(run, actions, i);
    RunInv(run, actions, i);
    PermutationFindsItself(run[i].db, g, requested);
  }

  // ----- A set registered before -----

  // It has inserted nothing, and from its lookup on it is at that generation.
  predicate FindsIt(db: Db, tx: Tx, req: Request) {
    && IsFor(tx.at, req) && tx.newGens == map[]
    && !tx.at.Inserting? && !tx.at.Referencing?
    && (Flipping(tx.at) ==> HasIdentity(db, req.identity, tx.at.id))
  }

  lemma OwnStepFinds(db: Db, tx: Tx, req: Request, nextId: int, row: int)
    requires Registered(db, req.identity) && FindsIt(db, tx, req)
    requires !Ready(tx) && Exec(db, tx, nextId, row).Continue?
    ensures FindsIt(db, Exec(db, tx, nextId, row).tx, req)
  {
    OwnStepFollows(db, tx, nextId, row);
    ExecInserts(db, tx, nextId, row);
  }

  lemma NextFinds(run: seq<State>, actions: seq<Action>, k: nat, t: nat, req: Request)
    requires IsRun(run, actions) && k < |actions| && t in run[k].txs && t in run[k + 1].txs
    requires Registered(run[k].db, req.identity) && FindsIt(run[k].db, run[k].txs[t], req)
    ensures FindsIt(run[k + 1].db, run[k + 1].txs[t], req)
  {
    StepOf(run, actions, k + 1);
    var s, a := run[k], actions[k];
    if a.Execute? && a.t == t {
      OwnStepFinds(s.db, s.txs[t], req, s.nextId, a.row);
    } else {
      RunStepLater(run, actions, k);
    }
  }

  /** A registration of a set that is registered when it begins inserts no
      generation, whatever others do meanwhile; once it is done it is at the
      generation that was there. */
  lemma RegisteredIsFound(run: seq<State>, actions: seq<Action>, b: nat, e: nat, t: nat, req: Request, g: int)
    requires IsRun(run, actions) && Registers(run, actions, b, e, t, req)
    requires HasIdentity(run[b].db, req.identity, g)
    ensures run[e].txs[t].newGens == map[]
    ensures run[e].txs[t].at.Done? ==> run[e].txs[t].at.id == g
  {
    var ok := seq(|run|, k requires 0 <= k < |run| => t in run[k].txs && FindsIt(run[k].db, run[k].txs[t], req));
    StepOf(run, actions, b + 1);
    forall k | b + 1 <= k < e && ok[k] ensures ok[k + 1] {
      assert Registered(run[b].db, req.identity);
      RegisteredStays(run, actions, b, k, req.identity);
      NextFinds(run, actions, k, t, req);
    }
    Stays(ok, b + 1, e);
    RunLater(run, actions, b, e);
    RunInv(run, actions, e);
    assert HasIdentity(run[e].db, req.identity, g);
  }
}
