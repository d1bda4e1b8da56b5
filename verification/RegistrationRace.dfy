/** Registrations statement by statement. A schema is looked up first and
    stored later, and storing does nothing when the key has appeared in
    between, so what another registration commits at that moment decides
    whether a request ends up stored as it was made. */
module RegistrationRace {
  import opened ConfigModel
  import opened ConfigSteps
  import opened ConfigStoreMethods
  import opened ConfigService

  // The schemas a transaction sees.
  function Seen(db: Db, tx: Tx): map<Key, Stored> {
    db.schemas + tx.newSchemas
  }

  predicate KeptUpTo(stored: map<Key, Stored>, req: Request, n: nat) {
    n <= |req.schemas| && forall j :: 0 <= j < n ==> AsRequested(stored, req.schemas[j])
  }

  // How many of the schemas a registration has dealt with.
  function Passed(at: Point, req: Request): nat {
    if at.Ensuring? || at.Storing? then at.i else |req.schemas|
  }

  // The transaction registers req and is at a schema of it.
  predicate IsFor(at: Point, req: Request) {
    && !at.Looking?
    && (at.Ensuring? || at.Storing? || at.Finding? || at.Inserting? || at.Referencing? ==> at.req == req)
  }

  // Another registration has committed something else under the key that is
  // about to be stored.
  predicate Overtaken(db: Db, tx: Tx) {
    && tx.at.Storing? && tx.at.i < |tx.at.req.schemas|
    && var s := tx.at.req.schemas[tx.at.i];
       KeyOf(s) in db.schemas && !AsRequested(db.schemas, s)
  }

  predicate OvertakenStep(s: State, a: Action, t: nat) {
    a.Execute? && a.t == t && t in s.txs && Overtaken(s.db, s.txs[t])
  }

  // A schema about to be stored was not there when it was looked up.
  predicate Missing(tx: Tx) {
    tx.at.Storing? ==>
      tx.at.i < |tx.at.req.schemas| &&
      var s := tx.at.req.schemas[tx.at.i];
      s.spec != "" && KeyOf(s) !in tx.newSchemas
  }

  predicate Progressing(db: Db, tx: Tx, req: Request) {
    IsFor(tx.at, req) && Passed(tx.at, req) <= |req.schemas| && Missing(tx)
  }

  predicate Kept(db: Db, tx: Tx, req: Request) {
    KeptUpTo(Seen(db, tx), req, Passed(tx.at, req))
  }

  // Only the storing of a schema adds one, under a key that was free.
  lemma OwnStepAdds(db: Db, tx: Tx, nextId: int, row: int)
    requires !Ready(tx) && Exec(db, tx, nextId, row).Continue?
    ensures var added := Exec(db, tx, nextId, row).tx.newSchemas;
      || added == tx.newSchemas
      || (tx.at.Storing? && tx.at.i < |tx.at.req.schemas|
          && var s := tx.at.req.schemas[tx.at.i];
             KeyOf(s) !in db.schemas && KeyOf(s) !in tx.newSchemas
             && added == tx.newSchemas[KeyOf(s) := Stored(s.spec, s.usage)])
  {
  }

  predicate Flipping(at: Point) {
    at.Deactivate? || at.Deactivating? || at.Activate? || at.Done?
  }

  // Where the next statement of a registration leads.
  predicate Follows(at: Point, next: Point) {
    match at
    case Ensuring(req, i) =>
      if i >= |req.schemas| then next == Finding(req)
      else next == Ensuring(req, i + 1) || (next == Storing(req, i) && req.schemas[i].spec != "")
    case Storing(req, i) => next == Ensuring(req, i + 1)
    case Finding(req) => next == Inserting(req) || Flipping(next)
    case Inserting(req) => next.Referencing? && next.req == req
    case Referencing(req, _, _) => (next.Referencing? && next.req == req) || Flipping(next)
    case _ => Flipping(next)
  }

  lemma OwnStepFollows(db: Db, tx: Tx, nextId: int, row: int)
    requires !Ready(tx) && Exec(db, tx, nextId, row).Continue?
    ensures Follows(tx.at, Exec(db, tx, nextId, row).tx.at)
  {
  }

  lemma LookupMisses(db: Db, tx: Tx, nextId: int, row: int)
    requires tx.at.Ensuring? && Exec(db, tx, nextId, row).Continue? && Exec(db, tx, nextId, row).tx.at.Storing?
    ensures tx.at.i < |tx.at.req.schemas| && KeyOf(tx.at.req.schemas[tx.at.i]) !in tx.newSchemas
    ensures Exec(db, tx, nextId, row).tx.newSchemas == tx.newSchemas
  {
  }

  lemma OwnStepProgresses(db: Db, tx: Tx, req: Request, nextId: int, row: int)
    requires Progressing(db, tx, req) && !Ready(tx) && Exec(db, tx, nextId, row).Continue?
    ensures var tx' := Exec(db, tx, nextId, row).tx;
      Progressing(db, tx', req) && Passed(tx.at, req) <= Passed(tx'.at, req) <= Passed(tx.at, req) + 1
  {
    var tx' := Exec(db, tx, nextId, row).tx;
    OwnStepFollows(db, tx, nextId, row);
    if tx'.at.Storing? {
      LookupMisses(db, tx, nextId, row);
    }
  }

  lemma NextIsKept(db: Db, tx: Tx, req: Request, nextId: int, row: int)
    requires Progressing(db, tx, req) && !Ready(tx) && Exec(db, tx, nextId, row).Continue?
    ensures var tx' := Exec(db, tx, nextId, row).tx;
      var n := Passed(tx.at, req);
      && (Overtaken(db, tx) ==> Passed(tx'.at, req) == n + 1)
      && (Passed(tx'.at, req) == n + 1 ==> (AsRequested(Seen(db, tx'), req.schemas[n]) <==> !Overtaken(db, tx)))
  {
    assert tx.at.Ensuring? || tx.at.Storing? || Passed(tx.at, req) == |req.schemas|;
    OwnStepProgresses(db, tx, req, nextId, row);
    OwnStepAdds(db, tx, nextId, row);
  }

  // One statement of the registration itself: what was kept stays so, and the
  // next schema is kept unless it has been overtaken.
  lemma OwnStep(db: Db, tx: Tx, req: Request, nextId: int, row: int)
    requires Progressing(db, tx, req) && Covers(db, tx, req, Passed(tx.at, req))
    requires !Ready(tx) && Exec(db, tx, nextId, row).Continue?
    ensures var tx' := Exec(db, tx, nextId, row).tx;
      Progressing(db, tx', req) && (Kept(db, tx', req) <==> Kept(db, tx, req) && !Overtaken(db, tx))
  {
    var tx' := Exec(db, tx, nextId, row).tx;
    OwnStepProgresses(db, tx, req, nextId, row);
    NextIsKept(db, tx, req, nextId, row);
    OwnStepAdds(db, tx, nextId, row);
    Extended(Seen(db, tx), Seen(db, tx'), req, Passed(tx.at, req));
  }

  lemma Extended(a: map<Key, Stored>, b: map<Key, Stored>, req: Request, n: nat)
    requires n <= |req.schemas| && forall j :: 0 <= j < n ==> KeyOf(req.schemas[j]) in a
    requires Extends(a, b)
    ensures KeptUpTo(a, req, n) <==> KeptUpTo(b, req, n)
  {
    forall j | 0 <= j < n ensures AsRequested(a, req.schemas[j]) <==> AsRequested(b, req.schemas[j]) {
      assert KeyOf(req.schemas[j]) in a;
    }
  }

  // An inserted generation has the requested list.
  predicate RefsAre(tx: Tx, req: Request) {
    Flipping(tx.at) && tx.newGens != map[] ==> tx.refs == Keys(req.schemas) && tx.at.id in tx.newGens
  }

  lemma OwnStepRefs(db: Db, tx: Tx, req: Request, nextId: int, row: int)
    requires TxOk(db, nextId, tx) && Progressing(db, tx, req) && RefsAre(tx, req)
    requires !Ready(tx) && Exec(db, tx, nextId, row).Continue?
    ensures RefsAre(Exec(db, tx, nextId, row).tx, req)
  {
    OwnStepFollows(db, tx, nextId, row);
    if tx.at.Referencing? {
      assert tx.at.i == |req.schemas| ==> req.schemas[..tx.at.i] == req.schemas;
    }
  }

  predicate Progresses(s: State, t: nat, req: Request) {
    && t in s.txs && Progressing(s.db, s.txs[t], req)
    && Covers(s.db, s.txs[t], req, Passed(s.txs[t].at, req))
    && RefsAre(s.txs[t], req)
  }

  predicate KeptIn(s: State, t: nat, req: Request) {
    t in s.txs && Kept(s.db, s.txs[t], req)
  }

  // Whatever else is committed, it adds schemas and changes none.
  lemma OthersStep(db: Db, db': Db, tx: Tx, req: Request)
    requires Progressing(db, tx, req) && Later(db, db') && Covers(db, tx, req, Passed(tx.at, req))
    ensures Progressing(db', tx, req) && (Kept(db', tx, req) <==> Kept(db, tx, req))
  {
    assert forall j :: 0 <= j < Passed(tx.at, req) ==> StoredFor(db, tx, KeyOf(req.schemas[j]));
    Extended(Seen(db, tx), Seen(db', tx), req, Passed(tx.at, req));
  }

  // ----- Over a run -----

  // t begins to register req at step b and is still open at e.
  predicate Registers(run: seq<State>, actions: seq<Action>, b: nat, e: nat, t: nat, req: Request) {
    && |run| == |actions| + 1 && b < e < |run|
    && actions[b] == Begin(t, Ensuring(req, 0))
    && forall k :: b < k <= e ==> t in run[k].txs
  }

  predicate NeverOvertaken(run: seq<State>, actions: seq<Action>, b: nat, e: nat, t: nat) {
    |run| == |actions| + 1 && b < e < |run| && forall k :: b < k < e ==> !OvertakenStep(run[k], actions[k], t)
  }

  lemma CoversPassed(db: Db, nextId: int, tx: Tx, req: Request)
    requires TxOk(db, nextId, tx) && Progressing(db, tx, req) && !Flipping(tx.at)
    ensures Covers(db, tx, req, Passed(tx.at, req))
  {
  }

  lemma StillCovered(db: Db, tx: Tx, req: Request, nextId: int, row: int)
    requires !Ready(tx) && Exec(db, tx, nextId, row).Continue? && Covers(db, tx, req, |req.schemas|)
    ensures Covers(db, Exec(db, tx, nextId, row).tx, req, |req.schemas|)
  {
    OwnStepAdds(db, tx, nextId, row);
  }

  lemma OwnStepCovers(s: State, a: Action, req: Request)
    requires Inv(s) && a.Execute? && Enabled(s, a) && Progresses(s, a.t, req)
    ensures var tx := Next(s, a).txs[a.t]; Covers(s.db, tx, req, Passed(tx.at, req))
  {
    var tx, tx' := s.txs[a.t], Next(s, a).txs[a.t];
    StepKeepsInv(s, a);
    OwnStepProgresses(s.db, tx, req, s.nextId, a.row);
    OwnStepFollows(s.db, tx, s.nextId, a.row);
    assert TxOk(s.db, Next(s, a).nextId, tx');
    if Flipping(tx'.at) {
      StillCovered(s.db, tx, req, s.nextId, a.row);
    } else {
      CoversPassed(s.db, Next(s, a).nextId, tx', req);
    }
  }

  lemma OwnStepKeeps(s: State, a: Action, req: Request)
    requires Inv(s) && a.Execute? && Enabled(s, a) && Progresses(s, a.t, req)
    ensures Progresses(Next(s, a), a.t, req)
    ensures KeptIn(Next(s, a), a.t, req) <==> KeptIn(s, a.t, req) && !OvertakenStep(s, a, a.t)
  {
    var tx := s.txs[a.t];
    OwnStep(s.db, tx, req, s.nextId, a.row);
    OwnStepCovers(s, a, req);
    assert TxOk(s.db, s.nextId, tx);
    OwnStepRefs(s.db, tx, req, s.nextId, a.row);
  }

  lemma OtherStepKeeps(s: State, a: Action, t: nat, req: Request)
    requires Enabled(s, a) && !(a.Execute? && a.t == t) && t in Next(s, a).txs
    requires Progresses(s, t, req) && Later(s.db, Next(s, a).db)
    ensures Progresses(Next(s, a), t, req)
    ensures KeptIn(Next(s, a), t, req) <==> KeptIn(s, t, req)
  {
    OthersStep(s.db, Next(s, a).db, s.txs[t], req);
  }

  // Any step, by anyone.
  lemma StepKeeps(s: State, a: Action, t: nat, req: Request)
    requires Inv(s) && SchemasApart(s) && Enabled(s, a) && t in Next(s, a).txs && Progresses(s, t, req)
    ensures Progresses(Next(s, a), t, req)
    ensures KeptIn(Next(s, a), t, req) <==> KeptIn(s, t, req) && !OvertakenStep(s, a, t)
  {
    if a.Execute? && a.t == t {
      OwnStepKeeps(s, a, req);
    } else {
      StepLater(s, a);
      OtherStepKeeps(s, a, t, req);
    }
  }

  lemma RunStepKeeps(run: seq<State>, actions: seq<Action>, e: nat, t: nat, req: Request)
    requires IsRun(run, actions) && 0 < e < |run| && t in run[e].txs && Progresses(run[e - 1], t, req)
    ensures Progresses(run[e], t, req)
    ensures KeptIn(run[e], t, req) <==> KeptIn(run[e - 1], t, req) && !OvertakenStep(run[e - 1], actions[e - 1], t)
  {
    SoundBefore(run, actions, e);
    StepOf(run, actions, e);
    StepTo(run[e - 1], actions[e - 1], run[e], t, req);
  }

  ghost predicate Sound(s: State) {
    Inv(s) && SchemasApart(s)
  }

  lemma SoundBefore(run: seq<State>, actions: seq<Action>, e: nat)
    requires IsRun(run, actions) && 0 < e < |run|
    ensures Sound(run[e - 1])
  {
    RunInv(run, actions, e - 1);
    RunSchemasApart(run, actions, e - 1);
  }

  lemma StepOf(run: seq<State>, actions: seq<Action>, e: nat)
    requires IsRun(run, actions) && 0 < e < |run|
    ensures Enabled(run[e - 1], actions[e - 1]) && run[e] == Next(run[e - 1], actions[e - 1])
  {
    assert run[(e - 1) + 1] == run[e];
  }

  lemma StepTo(s: State, a: Action, s': State, t: nat, req: Request)
    requires Sound(s) && Enabled(s, a) && s' == Next(s, a) && t in s'.txs && Progresses(s, t, req)
    ensures Progresses(s', t, req)
    ensures KeptIn(s', t, req) <==> KeptIn(s, t, req) && !OvertakenStep(s, a, t)
  {
    StepKeeps(s, a, t, req);
  }

  lemma JustBegun(s: State, t: nat, req: Request)
    requires Enabled(s, Begin(t, Ensuring(req, 0)))
    ensures var s' := Next(s, Begin(t, Ensuring(req, 0)));
      Progresses(s', t, req) && KeptIn(s', t, req) && s'.txs[t].at == Ensuring(req, 0)
  {
  }

  // Something that holds until it is lost, seen along a run.
  lemma {:induction false} Latch(ok: seq<bool>, kept: seq<bool>, lost: seq<bool>, b: nat, e: nat)
    requires |ok| == |kept| == |lost| + 1 && b < e < |ok| && ok[b + 1] && kept[b + 1]
    requires forall i :: b < i < e && ok[i] ==> ok[i + 1] && (kept[i + 1] <==> kept[i] && !lost[i])
    ensures ok[e] && (kept[e] <==> forall i :: b < i < e ==> !lost[i])
    decreases e
  {
    if e > b + 1 {
      Latch(ok, kept, lost, b, e - 1);
    }
  }

  // A registration has kept everything it has dealt with exactly if it has
  // not been overtaken.
  lemma KeptSoFar(run: seq<State>, actions: seq<Action>, b: nat, e: nat, t: nat, req: Request)
    requires IsRun(run, actions) && Registers(run, actions, b, e, t, req)
    ensures Progresses(run[e], t, req)
    ensures KeptIn(run[e], t, req) <==> NeverOvertaken(run, actions, b, e, t)
  {
    var ok := seq(|run|, i requires 0 <= i < |run| => Progresses(run[i], t, req));
    var kept := seq(|run|, i requires 0 <= i < |run| => KeptIn(run[i], t, req));
    var lost := seq(|actions|, i requires 0 <= i < |actions| => OvertakenStep(run[i], actions[i], t));
    JustBegun(run[b], t, req);
    forall i | b < i < e && ok[i] ensures ok[i + 1] && (kept[i + 1] <==> kept[i] && !lost[i]) {
      RunStepKeeps(run, actions, i + 1, t, req);
    }
    Latch(ok, kept, lost, b, e);
    assert forall i :: b < i < e ==> lost[i] == OvertakenStep(run[i], actions[i], t);
  }

  /** A committed registration has all its schemas stored as it asked for
      exactly if no other registration committed a different schema under one
      of its keys between its lookup of the key and its storing of it. */
  lemma StoredAsRequestedIff(run: seq<State>, actions: seq<Action>, b: nat, c: nat, t: nat, req: Request)
    requires IsRun(run, actions) && Registers(run, actions, b, c, t, req) && c < |actions| && actions[c] == Commit(t)
    ensures (forall j :: 0 <= j < |req.schemas| ==> AsRequested(run[c + 1].db.schemas, req.schemas[j]))
      <==> NeverOvertaken(run, actions, b, c, t)
  {
    KeptSoFar(run, actions, b, c, t, req);
  }

  /** A registration that asks for activation leaves its generation active at
      its commit, or found it active at a moment of its transaction. */
  lemma {:induction false} ActiveMeanwhile(run: seq<State>, actions: seq<Action>, b: nat, e: nat, t: nat, req: Request)
      returns (k: nat)
    requires IsRun(run, actions) && Registers(run, actions, b, e, t, req) && req.activate && run[e].txs[t].at.Done?
    ensures Switches(run[e].txs[t]) || (b < k < e && ActiveIn(run[k].db, run[e].txs[t].at.id))
    decreases e
  {
    k := e - 1;
    DoneStep(run, actions, b, e, t, req);
    if run[e - 1].txs[t] == run[e].txs[t] {
      k := ActiveMeanwhile(run, actions, b, e - 1, t, req);
    }
  }

  lemma DoneStep(run: seq<State>, actions: seq<Action>, b: nat, e: nat, t: nat, req: Request)
    requires IsRun(run, actions) && Registers(run, actions, b, e, t, req) && req.activate && run[e].txs[t].at.Done?
    ensures b + 1 < e
    ensures var tx := run[e].txs[t]; run[e - 1].txs[t] == tx || Switches(tx) || ActiveIn(run[e - 1].db, tx.at.id)
  {
    if e == b + 1 {
      JustBegun(run[b], t, req);
    } else {
      KeptSoFar(run, actions, b, e - 1, t, req);
      DoneBefore(run[e - 1], actions[e - 1], t, req);
    }
  }

  lemma DoneBefore(s: State, a: Action, t: nat, req: Request)
    requires Enabled(s, a) && t in s.txs && t in Next(s, a).txs
    requires IsFor(s.txs[t].at, req) && req.activate && Next(s, a).txs[t].at.Done?
    ensures var tx := Next(s, a).txs[t];
      tx == s.txs[t] || Switches(tx) || ActiveIn(s.db, tx.at.id)
  {
    if a.Execute? && a.t == t {
      LastStatement(s.db, s.txs[t], req, s.nextId, a.row);
    }
  }

  lemma LastStatement(db: Db, tx: Tx, req: Request, nextId: int, row: int)
    requires IsFor(tx.at, req) && req.activate && !Ready(tx)
    requires Exec(db, tx, nextId, row).Continue? && Exec(db, tx, nextId, row).tx.at.Done?
    ensures var tx' := Exec(db, tx, nextId, row).tx; Switches(tx') || ActiveIn(db, tx'.at.id)
  {
    var tx' := Exec(db, tx, nextId, row).tx;
    assert tx.at.Activate? ==> tx'.flags[tx'.at.id];
  }

  // ----- What loads -----

  lemma {:induction false} KeptLoads(rev: Revisor, dry: map<Key, Stored>, kept: map<Key, Stored>, requested: seq<Schema>)
    requires DecoderOk(rev) && Accepted(rev, dry, requested) && Extends(dry, kept)
    requires forall i :: 0 <= i < |requested| ==> AsRequested(kept, requested[i])
    ensures Loads(rev, kept, Keys(requested))
  {
    forall i | 0 <= i < |requested| ensures ResolvedAs(dry, kept, requested[i]) {
      assert AsRequested(kept, requested[i]) && Decodes(rev, dry, requested[i]);
    }
    DrySpecsAreStored(dry, kept, requested, Settings);
    DrySpecsAreStored(dry, kept, requested, Messages);
    forall i | 0 <= i < |requested|
      ensures Keys(requested)[i] in kept && rev.lenient(kept[Keys(requested)[i]].spec)
    {
      assert ResolvedAs(dry, kept, requested[i]) && Decodes(rev, dry, requested[i]);
    }
  }

  // Registrations go through the service: each begins after its dry run was
  // accepted against the schemas stored at some earlier moment.
  ghost predicate DryRunFirst(rev: Revisor, run: seq<State>, actions: seq<Action>) {
    && |run| == |actions| + 1
    && forall b :: 0 <= b < |actions| && actions[b].Begin? && actions[b].at.Ensuring? ==>
        exists d :: 0 <= d <= b && Accepted(rev, run[d].db.schemas, actions[b].at.req.schemas)
  }

  predicate NobodyOvertaken(run: seq<State>, actions: seq<Action>) {
    |run| == |actions| + 1 && forall k, t :: 0 <= k < |actions| && t in run[k].txs ==> !OvertakenStep(run[k], actions[k], t)
  }

  // A registration under way whose generation will load.
  ghost predicate GoodFor(rev: Revisor, s: State, t: nat, req: Request, dry: map<Key, Stored>) {
    && Progresses(s, t, req) && KeptIn(s, t, req)
    && Extends(dry, s.db.schemas) && Accepted(rev, dry, req.schemas)
  }

  // The activation of a generation by its id.
  predicate OnlyActivates(tx: Tx) {
    tx.newGens == map[] && (tx.at.Looking? || Flipping(tx.at))
  }

  ghost predicate WillLoad(rev: Revisor, s: State, t: nat) {
    t in s.txs && ((exists req, dry :: GoodFor(rev, s, t, req, dry)) || OnlyActivates(s.txs[t]))
  }

  ghost predicate EverythingLoads(rev: Revisor, s: State) {
    AllLoad(rev, s.db) && forall t :: t in s.txs ==> WillLoad(rev, s, t)
  }

  lemma ActivationStays(db: Db, tx: Tx, nextId: int, row: int)
    requires OnlyActivates(tx) && !Ready(tx) && Exec(db, tx, nextId, row).Continue?
    ensures OnlyActivates(Exec(db, tx, nextId, row).tx)
  {
    OwnStepFollows(db, tx, nextId, row);
    ExecFlags(db, tx, nextId, row);
  }

  lemma StepKeepsWillLoad(rev: Revisor, s: State, a: Action, t: nat)
    requires Inv(s) && SchemasApart(s) && Enabled(s, a) && t in Next(s, a).txs
    requires WillLoad(rev, s, t) && !OvertakenStep(s, a, t)
    ensures WillLoad(rev, Next(s, a), t)
  {
    var own := a.Execute? && a.t == t;
    if OnlyActivates(s.txs[t]) {
      if own {
        ActivationStays(s.db, s.txs[t], s.nextId, a.row);
      }
    } else {
      var req, dry :| GoodFor(rev, s, t, req, dry);
      StepKeeps(s, a, t, req);
      StepLater(s, a);
      assert GoodFor(rev, Next(s, a), t, req, dry);
    }
  }

  lemma CommitKeepsLoading(rev: Revisor, s: State, t: nat)
    requires DecoderOk(rev) && Inv(s) && SchemasApart(s) && Enabled(s, Commit(t))
    requires AllLoad(rev, s.db) && WillLoad(rev, s, t)
    ensures AllLoad(rev, Next(s, Commit(t)).db)
  {
    var tx, db' := s.txs[t], Next(s, Commit(t)).db;
    StepLater(s, Commit(t));
    forall g | g in db'.gens ensures Loads(rev, db'.schemas, db'.gens[g].refs) {
      if g in tx.newGens {
        var req, dry :| GoodFor(rev, s, t, req, dry);
        KeptLoads(rev, dry, Seen(s.db, tx), req.schemas);
      } else {
        LoadsLater(rev, s.db.schemas, db'.schemas, s.db.gens[g].refs);
      }
    }
  }

  /** Registrations statement by statement, activations among them: as long as
      every request passed its dry run and none is overtaken, every generation
      of every reachable state can be decoded and built. */
  lemma {:induction false} ReachableGenerationsLoad(rev: Revisor, run: seq<State>, actions: seq<Action>, i: nat)
    requires DecoderOk(rev) && IsRun(run, actions) && i < |run|
    requires DryRunFirst(rev, run, actions) && NobodyOvertaken(run, actions)
    ensures EverythingLoads(rev, run[i])
  {
    if i > 0 {
      var s, a := run[i - 1], actions[i - 1];
      ReachableGenerationsLoad(rev, run, actions, i - 1);
      RunInv(run, actions, i - 1);
      RunSchemasApart(run, actions, i - 1);
      if a.Commit? {
        CommitKeepsLoading(rev, s, a.t);
      }
      forall t | t in run[i].txs ensures WillLoad(rev, run[i], t) {
        if t in s.txs {
          assert !OvertakenStep(s, a, t);
          StepKeepsWillLoad(rev, s, a, t);
        } else {
          BegunWillLoad(rev, run, actions, i - 1);
        }
      }
    }
  }

  lemma BegunWillLoad(rev: Revisor, run: seq<State>, actions: seq<Action>, b: nat)
    requires IsRun(run, actions) && b < |actions| && actions[b].Begin? && DryRunFirst(rev, run, actions)
    ensures WillLoad(rev, run[b + 1], actions[b].t)
  {
    var Begin(t, at) := actions[b];
    if at.Ensuring? {
      var d :| 0 <= d <= b && Accepted(rev, run[d].db.schemas, at.req.schemas);
      RunLater(run, actions, d, b);
      JustBegun(run[b], t, at.req);
      assert GoodFor(rev, run[b + 1], t, at.req, run[d].db.schemas);
    }
  }

  // ----- What does not load -----

  // All of one usage, as requested and as stored.
  predicate OneUsage(kept: map<Key, Stored>, requested: seq<Schema>, usage: Usage) {
    forall j :: 0 <= j < |requested| ==>
      && requested[j].usage == usage
      && KeyOf(requested[j]) in kept && kept[KeyOf(requested[j])].usage == usage
  }

  lemma {:induction false} SpecAt(kept: map<Key, Stored>, dry: map<Key, Stored>, requested: seq<Schema>, usage: Usage, j: nat)
    requires OneUsage(kept, requested, usage) && j < |requested|
    requires forall i :: 0 <= i < |requested| ==> Resolve(dry, requested[i]).Some?
    ensures |StoredSpecs(kept, Keys(requested), usage)| == |DrySpecs(dry, requested, usage)| == |requested|
    ensures StoredSpecs(kept, Keys(requested), usage)[j] == kept[KeyOf(requested[j])].spec
    ensures DrySpecs(dry, requested, usage)[j] == Resolve(dry, requested[j]).value
    decreases |requested|
  {
    var before := requested[..|requested| - 1];
    assert Keys(requested)[..|requested| - 1] == Keys(before);
    if before != [] {
      SpecAt(kept, dry, before, usage, if j < |before| then j else 0);
    } else {
      assert Keys(before) == [];
    }
  }

  // A revisor that takes what the dry run showed it and nothing else.
  function OnlyTakes(specs: seq<string>): Revisor {
    Revisor(s => true, s => true, taken => taken == specs)
  }

  lemma {:induction false} NoSpecs(dry: map<Key, Stored>, requested: seq<Schema>, usage: Usage)
    requires forall j :: 0 <= j < |requested| ==> requested[j].usage != usage
    ensures DrySpecs(dry, requested, usage) == []
    decreases |requested|
  {
    if requested != [] {
      NoSpecs(dry, requested[..|requested| - 1], usage);
    }
  }

  lemma OnlyTakesAccepts(rev: Revisor, dry: map<Key, Stored>, requested: seq<Schema>, usage: Usage)
    requires Accepted(rev, dry, requested) && forall j :: 0 <= j < |requested| ==> requested[j].usage == usage
    ensures Accepted(OnlyTakes(DrySpecs(dry, requested, usage)), dry, requested)
  {
    NoSpecs(dry, requested, if usage == Settings then Messages else Settings);
    forall j | 0 <= j < |requested| ensures Decodes(OnlyTakes(DrySpecs(dry, requested, usage)), dry, requested[j]) {
      assert Decodes(rev, dry, requested[j]);
    }
  }

  // A spec that was replaced shows up in what is built.
  lemma ReplacedDoesNotLoad(rev: Revisor, dry: map<Key, Stored>, kept: map<Key, Stored>, requested: seq<Schema>, usage: Usage, j: nat)
    requires Accepted(rev, dry, requested) && OneUsage(kept, requested, usage)
    requires j < |requested| && !AsRequested(kept, requested[j])
    ensures !Loads(OnlyTakes(DrySpecs(dry, requested, usage)), kept, Keys(requested))
  {
    forall i | 0 <= i < |requested| ensures Resolve(dry, requested[i]).Some? {
      assert Decodes(rev, dry, requested[i]);
    }
    SpecAt(kept, dry, requested, usage, j);
    assert StoredSpecs(kept, Keys(requested), usage) != DrySpecs(dry, requested, usage);
  }

  /** Exactly when the dry run decides. For a request of one usage, stored under
      that usage, what it inserted can be loaded by every revisor that accepted
      the dry run if and only if it was never overtaken. */
  lemma InsertedLoadsIff(run: seq<State>, actions: seq<Action>, b: nat, c: nat, t: nat, req: Request, d: nat, rev: Revisor, usage: Usage)
    requires IsRun(run, actions) && Registers(run, actions, b, c, t, req) && c < |actions| && actions[c] == Commit(t)
    requires d <= b && Accepted(rev, run[d].db.schemas, req.schemas)
    requires run[c].txs[t].newGens != map[] && OneUsage(run[c + 1].db.schemas, req.schemas, usage)
    ensures var db, id := run[c + 1].db, run[c].txs[t].at.id;
      && id in db.gens && id !in run[c].db.gens
      && ((forall r | DecoderOk(r) && Accepted(r, run[d].db.schemas, req.schemas) :: Loads(r, db.schemas, db.gens[id].refs))
          <==> NeverOvertaken(run, actions, b, c, t))
  {
    var dry, kept := run[d].db.schemas, run[c + 1].db.schemas;
    InsertedRow(run, actions, b, c, t, req);
    StoredAsRequestedIff(run, actions, b, c, t, req);
    RunLater(run, actions, d, c + 1);
    if NeverOvertaken(run, actions, b, c, t) {
      forall r | DecoderOk(r) && Accepted(r, dry, req.schemas) ensures Loads(r, kept, Keys(req.schemas)) {
        KeptLoads(r, dry, kept, req.schemas);
      }
    } else {
      var j :| 0 <= j < |req.schemas| && !AsRequested(kept, req.schemas[j]);
      OnlyTakesAccepts(rev, dry, req.schemas, usage);
      ReplacedDoesNotLoad(rev, dry, kept, req.schemas, usage, j);
    }
  }

  lemma InsertedRow(run: seq<State>, actions: seq<Action>, b: nat, c: nat, t: nat, req: Request)
    requires IsRun(run, actions) && Registers(run, actions, b, c, t, req) && c < |actions| && actions[c] == Commit(t)
    requires run[c].txs[t].newGens != map[]
    ensures var db, id := run[c + 1].db, run[c].txs[t].at.id;
      id in db.gens && id !in run[c].db.gens && db.gens[id].refs == Keys(req.schemas)
  {
    KeptSoFar(run, actions, b, c, t, req);
    RunInv(run, actions, c);
    var tx := run[c].txs[t];
    assert TxOk(run[c].db, run[c].nextId, tx);
    CommittedGen(run[c].db, tx, tx.at.id);
  }
}
