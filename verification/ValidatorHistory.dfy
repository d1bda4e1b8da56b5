/** The validator over time: reloads at any moments of any run of the config
    tables, each reading the schemas in one statement and the generation id in
    a later one, and any of them failing. */
module ValidatorHistory {
  import opened ConfigModel
  import opened ConfigSteps
  import opened ConfigGuarantees
  import opened ConfigService
  import opened RegistrationRace

  // ----- What a reload reads -----

  ghost function ActiveId(db: Db): int {
    if HasActive(db) then
      var g :| g in db.gens && ActiveIn(db, g);
      g
    else 0
  }

  // GetActiveSchemas: the schemas of whatever is active, read in one go.
  ghost function ActiveSchemas(db: Db): seq<(Key, Stored)>
    requires RefsStored(db)
  {
    if HasActive(db) then SchemasOf(db, ActiveId(db)) else []
  }

  // broken: one of the reads itself went wrong.
  datatype Reload = Reload(schemasAt: nat, idAt: nat, broken: bool)

  // Reloads follow each other, and each reads the schemas first.
  ghost predicate Timeline(run: seq<State>, actions: seq<Action>, reloads: seq<Reload>) {
    && IsRun(run, actions)
    && (forall k :: 0 <= k < |reloads| ==> reloads[k].schemasAt <= reloads[k].idAt < |run|)
    && (forall k, l :: 0 <= k < l < |reloads| ==> reloads[k].idAt <= reloads[l].schemasAt)
  }

  ghost function ReadBy(run: seq<State>, actions: seq<Action>, reloads: seq<Reload>, k: nat): seq<(Key, Stored)>
    requires Timeline(run, actions, reloads) && k < |reloads|
  {
    RunInv(run, actions, reloads[k].schemasAt);
    ActiveSchemas(run[reloads[k].schemasAt].db)
  }

  ghost predicate Succeeds(rev: Revisor, run: seq<State>, actions: seq<Action>, reloads: seq<Reload>, k: nat)
    requires Timeline(run, actions, reloads) && k < |reloads|
  {
    !reloads[k].broken && CanLoad(rev, ReadBy(run, actions, reloads, k))
  }

  // The validators and generation id after the first k reloads.
  ghost function After(rev: Revisor, run: seq<State>, actions: seq<Action>, reloads: seq<Reload>, k: nat): (map<Usage, seq<string>>, int)
    requires Timeline(run, actions, reloads) && k <= |reloads|
  {
    if k == 0 then (map[], 0)
    else if Succeeds(rev, run, actions, reloads, k - 1) then
      (Built(ReadBy(run, actions, reloads, k - 1)), ActiveId(run[reloads[k - 1].idAt].db))
    else After(rev, run, actions, reloads, k - 1)
  }

  // ----- History -----

  // Reload m is the last of the first k that succeeded.
  ghost predicate LastGood(rev: Revisor, run: seq<State>, actions: seq<Action>, reloads: seq<Reload>, k: nat, m: int)
    requires Timeline(run, actions, reloads) && k <= |reloads|
  {
    && 0 <= m < k && Succeeds(rev, run, actions, reloads, m)
    && (forall n :: m < n < k ==> !Succeeds(rev, run, actions, reloads, n))
  }

  /** At all times the validators are the build of one generation's whole
      schema list, the one that was active when the last successful reload read
      it (or of nothing, if nothing was); failed reloads leave no trace. */
  lemma {:induction false} ValidatorsAreOneGeneration(rev: Revisor, run: seq<State>, actions: seq<Action>, reloads: seq<Reload>, k: nat)
      returns (m: int)
    requires Timeline(run, actions, reloads) && k <= |reloads|
    ensures m == -1 || LastGood(rev, run, actions, reloads, k, m)
    ensures m == -1 ==> After(rev, run, actions, reloads, k) == (map[], 0)
    ensures m == -1 ==> forall n :: 0 <= n < k ==> !Succeeds(rev, run, actions, reloads, n)
    ensures m >= 0 ==>
      var db := run[reloads[m].schemasAt].db;
      && RefsStored(db)
      && After(rev, run, actions, reloads, k).0 == Built(if HasActive(db) then SchemasOf(db, ActiveId(db)) else [])
      && (HasActive(db) ==> ActiveIn(db, ActiveId(db)))
      && After(rev, run, actions, reloads, k).1 == ActiveId(run[reloads[m].idAt].db)
  {
    m := -1;
    if k > 0 {
      RunInv(run, actions, reloads[k - 1].schemasAt);
      if Succeeds(rev, run, actions, reloads, k - 1) {
        m := k - 1;
      } else {
        m := ValidatorsAreOneGeneration(rev, run, actions, reloads, k - 1);
      }
    }
  }

  /** Reloads follow the order of activations and never go back: the validators
      after more reloads come from a read no earlier, and if they are those of
      another generation, an activation of that generation committed between
      the two reads. */
  lemma ReloadsGoForward(rev: Revisor, run: seq<State>, actions: seq<Action>, reloads: seq<Reload>, k: nat, l: nat)
      returns (m: int, n: int, c: nat)
    requires Timeline(run, actions, reloads) && k <= l <= |reloads|
    requires After(rev, run, actions, reloads, k).0 != map[] && After(rev, run, actions, reloads, l).0 != map[]
    ensures LastGood(rev, run, actions, reloads, k, m) && LastGood(rev, run, actions, reloads, l, n)
    ensures m <= n && reloads[m].schemasAt <= reloads[n].schemasAt
    ensures var i, j := reloads[m].schemasAt, reloads[n].schemasAt;
      && HasActive(run[i].db) && HasActive(run[j].db)
      && (ActiveId(run[i].db) != ActiveId(run[j].db) ==>
            && i <= c < j && actions[c].Commit?
            && Switches(run[c].txs[actions[c].t]) && run[c].txs[actions[c].t].at.id == ActiveId(run[j].db))
  {
    m := ValidatorsAreOneGeneration(rev, run, actions, reloads, k);
    n := ValidatorsAreOneGeneration(rev, run, actions, reloads, l);
    var i, j := reloads[m].schemasAt, reloads[n].schemasAt;
    c := 0;
    if ActiveId(run[i].db) != ActiveId(run[j].db) {
      c := ActivationBetween(run, actions, i, j, ActiveId(run[i].db), ActiveId(run[j].db));
    }
  }

  lemma ActiveIdIs(db: Db, g: int)
    requires SingleActive(db) && ActiveIn(db, g)
    ensures HasActive(db) && ActiveId(db) == g
  {
    assert g in db.gens && ActiveIn(db, g);
  }

  /** Once a reload that began after the last activation has succeeded, both
      validators and generation id are those of the active generation, and stay
      so through all further reloads, failed ones included. */
  lemma CaughtUp(rev: Revisor, run: seq<State>, actions: seq<Action>, reloads: seq<Reload>, k: nat, good: nat, g: int, now: nat)
    requires Timeline(run, actions, reloads) && good < k <= |reloads| && Succeeds(rev, run, actions, reloads, good)
    requires forall i :: reloads[good].schemasAt <= i < |run| ==> ActiveIn(run[i].db, g)
    requires reloads[k - 1].idAt <= now < |run|
    ensures RefsStored(run[now].db) && g in run[now].db.gens
    ensures After(rev, run, actions, reloads, k) == (Built(SchemasOf(run[now].db, g)), g)
  {
    var m := ValidatorsAreOneGeneration(rev, run, actions, reloads, k);
    var i, j := reloads[m].schemasAt, reloads[m].idAt;
    LaterReload(run, actions, reloads, good, m, k, now);
    ActiveAt(run, actions, i, g);
    ActiveAt(run, actions, j, g);
    ActiveReadIsCoherent(run, actions, i, now, g);
  }

  lemma LaterReload(run: seq<State>, actions: seq<Action>, reloads: seq<Reload>, good: nat, m: nat, k: nat, now: nat)
    requires Timeline(run, actions, reloads) && good <= m < k <= |reloads| && reloads[k - 1].idAt <= now
    ensures reloads[good].schemasAt <= reloads[m].schemasAt <= reloads[m].idAt <= now
  {
  }

  lemma ActiveAt(run: seq<State>, actions: seq<Action>, i: nat, g: int)
    requires IsRun(run, actions) && i < |run| && ActiveIn(run[i].db, g)
    ensures HasActive(run[i].db) && ActiveId(run[i].db) == g
  {
    RunInv(run, actions, i);
    ActiveIdIs(run[i].db, g);
  }

  // ----- The pair -----

  predicate IdsPositive(s: State) {
    && s.nextId >= 1
    && (forall g :: g in s.db.gens ==> g >= 1)
    && (forall t, g :: t in s.txs && g in s.txs[t].newGens ==> g >= 1)
  }

  lemma StepKeepsPositive(s: State, a: Action)
    requires IdsPositive(s) && Enabled(s, a)
    ensures IdsPositive(Next(s, a))
  {
    if a.Execute? {
      ExecFlags(s.db, s.txs[a.t], s.nextId, a.row);
    }
  }

  lemma {:induction false} RunIdsPositive(run: seq<State>, actions: seq<Action>, i: nat)
    requires IsRun(run, actions) && i < |run|
    ensures IdsPositive(run[i])
  {
    if i > 0 {
      RunIdsPositive(run, actions, i - 1);
      StepKeepsPositive(run[i - 1], actions[i - 1]);
    }
  }

  // The same is active in both: the same generation, or none.
  ghost predicate SameActive(db: Db, db': Db) {
    if HasActive(db) then ActiveIn(db', ActiveId(db)) else !HasActive(db')
  }

  lemma SameActiveIff(run: seq<State>, actions: seq<Action>, i: nat, j: nat)
    requires IsRun(run, actions) && i < |run| && j < |run|
    ensures ActiveId(run[j].db) == ActiveId(run[i].db) <==> SameActive(run[i].db, run[j].db)
  {
    RunIdsPositive(run, actions, i);
    RunIdsPositive(run, actions, j);
    RunInv(run, actions, j);
    if HasActive(run[i].db) && ActiveIn(run[j].db, ActiveId(run[i].db)) {
      ActiveIdIs(run[j].db, ActiveId(run[i].db));
    }
  }

  /** Exactly when the generation id is that of the generation the validators
      were built from: if what was active when the last successful reload read
      the schemas is what was active when it read the id. */
  lemma PairAgreesIff(rev: Revisor, run: seq<State>, actions: seq<Action>, reloads: seq<Reload>, k: nat)
      returns (m: int)
    requires Timeline(run, actions, reloads) && k <= |reloads|
    ensures m == -1 || LastGood(rev, run, actions, reloads, k, m)
    ensures m == -1 ==> After(rev, run, actions, reloads, k) == (map[], 0)
    ensures m >= 0 ==>
      var before, later := run[reloads[m].schemasAt].db, run[reloads[m].idAt].db;
      && RefsStored(before)
      && After(rev, run, actions, reloads, k).0 == Built(ActiveSchemas(before))
      && (After(rev, run, actions, reloads, k).1 == ActiveId(before) <==> SameActive(before, later))
  {
    m := ValidatorsAreOneGeneration(rev, run, actions, reloads, k);
    if m >= 0 {
      SameActiveIff(run, actions, reloads[m].schemasAt, reloads[m].idAt);
    }
  }

  // ----- Loading does not fail on what registration let in -----

  lemma {:induction false} ReadIsStored(db: Db, refs: seq<Key>, read: seq<(Key, Stored)>, usage: Usage)
    requires |read| == |refs|
    requires forall i :: 0 <= i < |refs| ==> refs[i] in db.schemas && read[i] == (refs[i], db.schemas[refs[i]])
    ensures ReadSpecs(read, usage) == StoredSpecs(db.schemas, refs, usage)
    decreases |refs|
  {
    if refs != [] {
      ReadIsStored(db, refs[..|refs| - 1], read[..|refs| - 1], usage);
    }
  }

  lemma ActiveLoads(rev: Revisor, db: Db)
    requires RefsStored(db) && AllLoad(rev, db)
    ensures CanLoad(rev, ActiveSchemas(db))
  {
    if HasActive(db) {
      var g := ActiveId(db);
      assert Loads(rev, db.schemas, db.gens[g].refs);
      ReadIsStored(db, db.gens[g].refs, SchemasOf(db, g), Settings);
      ReadIsStored(db, db.gens[g].refs, SchemasOf(db, g), Messages);
    }
  }

  /** While no registration is overtaken, a reload can only fail because one
      of its reads does: what was let in by the dry run always builds. */
  lemma ReloadsSucceed(rev: Revisor, run: seq<State>, actions: seq<Action>, reloads: seq<Reload>, k: nat)
    requires DecoderOk(rev) && Timeline(run, actions, reloads) && k < |reloads|
    requires DryRunFirst(rev, run, actions) && NobodyOvertaken(run, actions)
    ensures Succeeds(rev, run, actions, reloads, k) <==> !reloads[k].broken
  {
    var at := reloads[k].schemasAt;
    RunInv(run, actions, at);
    ReachableGenerationsLoad(rev, run, actions, at);
    ActiveLoads(rev, run[at].db);
  }

  // ----- The loop -----

  // What one pass of the loop is given.
  datatype Given = Given(read: seq<(Key, Stored)>, generationID: int, broken: bool)

  ghost predicate Gives(run: seq<State>, actions: seq<Action>, reloads: seq<Reload>, given: seq<Given>)
    requires Timeline(run, actions, reloads)
  {
    && |given| == |reloads|
    && forall k :: 0 <= k < |given| ==>
        && given[k].broken == reloads[k].broken
        && given[k].read == ReadBy(run, actions, reloads, k)
        && given[k].generationID == ActiveId(run[reloads[k].idAt].db)
  }

  // What one pass makes of the fields.
  lemma OnePass(rev: Revisor, run: seq<State>, actions: seq<Action>, reloads: seq<Reload>, given: seq<Given>, k: nat)
    requires Timeline(run, actions, reloads) && Gives(run, actions, reloads, given) && k < |given|
    ensures After(rev, run, actions, reloads, k + 1)
         == if !given[k].broken && CanLoad(rev, given[k].read) then (Built(given[k].read), given[k].generationID)
            else After(rev, run, actions, reloads, k)
  {
  }

  // reloadLoop: a reload for every wake-up, its errors logged and forgotten.
  // The fields end up as the history above has them.
  method ReloadLoop(v: Validator, rev: Revisor, given: seq<Given>, ghost run: seq<State>, ghost actions: seq<Action>, ghost reloads: seq<Reload>)
    requires Timeline(run, actions, reloads) && Gives(run, actions, reloads, given)
    requires v.validators == map[] && v.activeGenerationID == 0
    modifies v
    ensures (v.validators, v.activeGenerationID) == After(rev, run, actions, reloads, |reloads|)
  {
    var k := 0;
    while k < |given|
      invariant 0 <= k <= |given|
      invariant (v.validators, v.activeGenerationID) == After(rev, run, actions, reloads, k)
    {
      OnePass(rev, run, actions, reloads, given, k);
      if !given[k].broken {
        var ok := v.LoadSchemas(rev, given[k].read, given[k].generationID);
      }
      k := k + 1;
    }
  }
}
