/** Registration as the store's methods run it, with other instances free to
    commit between its statements. */
module ConfigStoreMethods {
  import opened Basics
  import opened ConfigModel
  import opened ConfigSteps
  import opened IdentityHash

  datatype Attempt = Found(id: int) | HashTaken | Rejected(refusal: Refusal)

  datatype Registration = Registration(id: int) | ErrAfterRetry | ErrRejected(refusal: Refusal)

  // What ensureConfigSchemas leaves stored, or why it refuses.
  datatype Ensured = Kept(schemas: map<Key, Stored>) | Refused(refusal: Refusal)

  function EnsureOne(stored: map<Key, Stored>, s: Schema): Ensured {
    var k := KeyOf(s);
    if k !in stored then
      if s.spec == "" then Refused(SpecMissing) else Kept(stored[k := Stored(s.spec, s.usage)])
    else if stored[k].usage != s.usage || (s.spec != "" && s.spec != stored[k].spec) then Refused(Mismatch)
    else Kept(stored)
  }

  function EnsureAll(stored: map<Key, Stored>, schemas: seq<Schema>): Ensured {
    if schemas == [] then Kept(stored)
    else
      var before := EnsureAll(stored, schemas[..|schemas| - 1]);
      if before.Refused? then before else EnsureOne(before.schemas, schemas[|schemas| - 1])
  }

  lemma {:induction false} RefusalStays(stored: map<Key, Stored>, requested: seq<Schema>, n: nat)
    requires n <= |requested| && EnsureAll(stored, requested[..n]).Refused?
    ensures EnsureAll(stored, requested) == EnsureAll(stored, requested[..n])
    decreases |requested|
  {
    if n == |requested| {
      assert requested[..n] == requested;
    } else {
      var before := requested[..|requested| - 1];
      assert before[..n] == requested[..n];
      RefusalStays(stored, before, n);
    }
  }

  predicate Extends(a: map<Key, Stored>, b: map<Key, Stored>) {
    forall k :: k in a ==> k in b && b[k] == a[k]
  }

  predicate AsRequested(kept: map<Key, Stored>, s: Schema) {
    var k := KeyOf(s);
    k in kept && kept[k].usage == s.usage && (s.spec != "" ==> kept[k].spec == s.spec)
  }

  // Nothing stored is changed, and what is requested ends up stored as
  // requested.
  lemma {:induction false} EnsureAllKeeps(stored: map<Key, Stored>, requested: seq<Schema>)
    requires EnsureAll(stored, requested).Kept?
    ensures Extends(stored, EnsureAll(stored, requested).schemas)
    ensures forall i :: 0 <= i < |requested| ==> AsRequested(EnsureAll(stored, requested).schemas, requested[i])
    decreases |requested|
  {
    if requested != [] {
      var before, last := requested[..|requested| - 1], requested[|requested| - 1];
      EnsureAllKeeps(stored, before);
      var kept, kept' := EnsureAll(stored, before).schemas, EnsureAll(stored, requested).schemas;
      assert Extends(kept, kept') && AsRequested(kept', last);
      forall i | 0 <= i < |before| ensures AsRequested(kept', requested[i]) {
        assert AsRequested(kept, before[i]);
      }
    }
  }

  predicate AllAsRequested(stored: map<Key, Stored>, requested: seq<Schema>) {
    forall i :: 0 <= i < |requested| ==> AsRequested(stored, requested[i])
  }

  // A set that is stored as requested is kept, and adds nothing.
  lemma {:induction false} AsRequestedIsKept(stored: map<Key, Stored>, requested: seq<Schema>)
    requires AllAsRequested(stored, requested)
    ensures EnsureAll(stored, requested) == Kept(stored)
    decreases |requested|
  {
    if requested != [] {
      var before := requested[..|requested| - 1];
      forall i | 0 <= i < |before| ensures AsRequested(stored, before[i]) {
        assert before[i] == requested[i];
      }
      AsRequestedIsKept(stored, before);
      assert AsRequested(stored, requested[|requested| - 1]);
    }
  }

  predicate AllStored(stored: map<Key, Stored>, requested: seq<Schema>) {
    forall i :: 0 <= i < |requested| ==> KeyOf(requested[i]) in stored
  }

  // If everything requested is stored already, nothing is added.
  lemma {:induction false} EnsureAllStored(stored: map<Key, Stored>, requested: seq<Schema>)
    requires EnsureAll(stored, requested).Kept?
    requires AllStored(stored, requested)
    ensures EnsureAll(stored, requested).schemas == stored
    decreases |requested|
  {
    if requested != [] {
      EnsureAllStored(stored, requested[..|requested| - 1]);
    }
  }

  // activateConfigGeneration with nobody else activating.
  function Switch(gens: map<int, Generation>, id: int): map<int, Generation> {
    map g | g in gens :: gens[g].(active := g == id)
  }

  // A new generation, inactive.
  function WithGeneration(db: Db, kept: map<Key, Stored>, id: int, hash: string, refs: seq<Key>): Db {
    Db(kept + db.schemas, db.gens[id := Generation(hash, refs, false)])
  }

  // Every generation carries the identity of its own schema list.
  predicate IdentitiesMatch(db: Db) {
    forall g :: g in db.gens ==> db.gens[g].identity == Identity(db.gens[g].refs)
  }

  // The tables after a registration that acts on db: its schemas, its new
  // generation if it inserted one, and the switch if it made one.
  function AfterRegistration(db: Db, kept: map<Key, Stored>, id: int, row: Option<Generation>, switch: bool): Db {
    var before := if row.Some? then db.gens[id := row.value] else db.gens;
    Db(kept + db.schemas, if switch then Switch(before, id) else before)
  }

  // The row is new and its list stored, or the generation is there already.
  predicate Insertable(db: Db, nextId: int, kept: map<Key, Stored>, id: int, row: Option<Generation>) {
    match row
    case None => id in db.gens
    case Some(gen) =>
      && id !in db.gens && id < nextId && !gen.active
      && gen.identity == Identity(gen.refs) && !Registered(db, gen.identity)
      && forall i :: 0 <= i < |gen.refs| ==> gen.refs[i] in kept
  }

  // What others may have made of the tables: new rows get new ids and none of
  // the identities held.
  ghost predicate Evolves(db: Db, nextId: int, db': Db, nextId': int, held: set<string>) {
    && Later(db, db') && nextId <= nextId'
    && forall g :: g in db'.gens && g !in db.gens ==> nextId <= g && db'.gens[g].identity !in held
  }

  lemma StillInsertable(db: Db, nextId: int, db': Db, nextId': int, kept: map<Key, Stored>, id: int, row: Option<Generation>)
    requires Insertable(db, nextId, kept, id, row)
    requires Evolves(db, nextId, db', nextId', if row.Some? then {row.value.identity} else {})
    ensures Insertable(db', nextId', kept, id, row)
  {
    if row.Some? {
      assert forall g :: g in db.gens ==> !HasIdentity(db, row.value.identity, g);
    }
  }

  lemma RegistrationSound(db: Db, nextId: int, kept: map<Key, Stored>, id: int, row: Option<Generation>, switch: bool)
    requires DbOk(db, nextId) && IdentitiesMatch(db) && Insertable(db, nextId, kept, id, row)
    ensures var db' := AfterRegistration(db, kept, id, row, switch);
      DbOk(db', nextId) && IdentitiesMatch(db')
  {
    var db' := AfterRegistration(db, kept, id, row, switch);
    assert row.Some? ==> forall g :: g in db.gens ==> !HasIdentity(db, row.value.identity, g);
    assert forall g :: ActiveIn(db', g) ==> if switch then g == id else ActiveIn(db, g);
  }

  lemma RegistrationLater(db: Db, nextId: int, kept: map<Key, Stored>, id: int, row: Option<Generation>, switch: bool)
    requires Insertable(db, nextId, kept, id, row)
    ensures Later(db, AfterRegistration(db, kept, id, row, switch))
    ensures switch ==> ActiveIn(AfterRegistration(db, kept, id, row, switch), id)
  {
    var db' := AfterRegistration(db, kept, id, row, switch);
    if switch {
      assert ActiveIn(db', id);
    } else if g :| g in db.gens && ActiveIn(db, g) {
      assert ActiveIn(db', g);
    }
  }

  // A registration that looked its schemas up in was and its identity in seen,
  // and turned at into now: it found the generation, or inserted it, and
  // switched to it if asked to and if it had not seen it active.
  ghost predicate RegisteredAs(was: Db, seen: Db, at: Db, now: Db, requested: seq<Schema>, activate: bool, id: int) {
    var hash := Identity(Keys(requested));
    var row := if id in at.gens then None else Some(Generation(hash, Keys(requested), false));
    && EnsureAll(was.schemas, requested).Kept?
    && (if id in at.gens then HasIdentity(seen, hash, id) else !Registered(seen, hash))
    && now == AfterRegistration(at, EnsureAll(was.schemas, requested).schemas, id, row, activate && !ActiveIn(seen, id))
  }

  lemma RegistersIt(was: Db, seen: Db, at: Db, now: Db, requested: seq<Schema>, activate: bool, id: int)
    requires Later(was, seen) && Later(seen, at) && RegisteredAs(was, seen, at, now, requested, activate, id)
    ensures HasIdentity(now, Identity(Keys(requested)), id)
    ensures activate ==> ActiveIn(seen, id) || ActiveIn(now, id)
    ensures AllStored(was.schemas, requested) ==> now.schemas == at.schemas
  {
    LaterTransitive(was, seen, at);
    if AllStored(was.schemas, requested) {
      EnsureAllStored(was.schemas, requested);
      assert was.schemas + at.schemas == at.schemas;
    }
  }

  // A set registered before is found: no row is added.
  lemma RegistersNothingNew(was: Db, seen: Db, at: Db, now: Db, requested: seq<Schema>, activate: bool, id: int)
    requires Later(was, seen) && Later(seen, at) && RegisteredAs(was, seen, at, now, requested, activate, id)
    requires Registered(was, Identity(Keys(requested))) && Later(at, now) && UniqueIdentity(now)
    ensures HasIdentity(was, Identity(Keys(requested)), id) && now.gens.Keys == at.gens.Keys
  {
    var g :| g in was.gens && HasIdentity(was, Identity(Keys(requested)), g);
    assert HasIdentity(seen, Identity(Keys(requested)), g);
    RegistersIt(was, seen, at, now, requested, activate, id);
    assert HasIdentity(at, Identity(Keys(requested)), g) && HasIdentity(now, Identity(Keys(requested)), g);
  }

  // Somebody has made a generation active between the two.
  ghost predicate Activated(db: Db, db': Db) {
    exists d: Db, g: int :: Later(db, d) && Later(d, db') && !ActiveIn(d, g) && ActiveIn(db', g)
  }

  lemma ActivatedSince(seen: Db, db: Db, db': Db)
    requires Later(seen, db) && Activated(db, db')
    ensures Activated(seen, db')
  {
    var d: Db, g: int :| Later(db, d) && Later(d, db') && !ActiveIn(d, g) && ActiveIn(db', g);
    LaterTransitive(seen, db, d);
    assert Later(seen, d) && Later(d, db') && !ActiveIn(d, g) && ActiveIn(db', g);
  }

  class ConfigStore {
    var schemas: map<Key, Stored>
    var gens: map<int, Generation>
    var nextId: int

    function Tables(): Db
      reads this
    {
      Db(schemas, gens)
    }

    ghost predicate Sound()
      reads this
    {
      DbOk(Tables(), nextId) && IdentitiesMatch(Tables())
    }

    constructor ()
      ensures Tables() == INITIAL.db && nextId == INITIAL.nextId && Sound()
    {
      schemas, gens, nextId := map[], map[], 1;
    }

    // Other instances may register and activate here, except under an
    // identity this transaction has inserted and not committed. Callers rely
    // on the contract alone.
    method OthersCommit(held: set<string>)
      requires Sound()
      modifies this
      ensures Sound() && Evolves(old(Tables()), old(nextId), Tables(), nextId, held)
    {
      LaterReflexive(Tables());
    }

    method EnsureConfigSchemas(requested: seq<Schema>) returns (r: Ensured)
      ensures r == EnsureAll(schemas, requested)
    {
      var stored := schemas;
      var i := 0;
      while i < |requested|
        invariant 0 <= i <= |requested|
        invariant EnsureAll(schemas, requested[..i]) == Kept(stored)
      {
        assert requested[..i + 1][..i] == requested[..i];
        var s := requested[i];
        var k := KeyOf(s);
        if k !in stored {
          if s.spec == "" {
            RefusalStays(schemas, requested, i + 1);
            return Refused(SpecMissing);
          }
          stored := stored[k := Stored(s.spec, s.usage)];
        } else if stored[k].usage != s.usage || (s.spec != "" && s.spec != stored[k].spec) {
          RefusalStays(schemas, requested, i + 1);
          return Refused(Mismatch);
        }
        i := i + 1;
      }
      assert requested[..i] == requested;
      r := Kept(stored);
    }

    // The identity lookup and, if it finds nothing, the insertion. Another
    // instance may insert the same identity in between; the unique key then
    // refuses this one.
    method FindOrInsert(requested: seq<Schema>, hash: string) returns (taken: bool, id: int, row: Option<Generation>, active: bool)
      requires Sound() && hash == Identity(Keys(requested))
      modifies this
      ensures Sound() && Later(old(Tables()), Tables()) && nextId >= old(nextId)
      ensures taken ==> !old(Registered(Tables(), hash)) && Registered(Tables(), hash)
      ensures !taken && row.None? ==> old(HasIdentity(Tables(), hash, id)) && active == old(ActiveIn(Tables(), id))
      ensures !taken && row.Some? ==>
        && row == Some(Generation(hash, Keys(requested), false)) && !active && !old(Registered(Tables(), hash))
        && forall kept | AllStored(kept, requested) :: Insertable(Tables(), nextId, kept, id, row)
    {
      taken, row, active := false, None, false;
      if known :| known in gens && HasIdentity(Tables(), hash, known) {
        LaterReflexive(Tables());
        return false, known, None, gens[known].active;
      }
      OthersCommit({});
      if Registered(Tables(), hash) {
        return true, 0, None, false;
      }
      id, row := nextId, Some(Generation(hash, Keys(requested), false));
      nextId := nextId + 1;
    }

    // activateConfigGeneration up to its commit: the rows to switch off are
    // fixed and locked, then the generation is switched on. What others have
    // activated in between trips the single-active index.
    method ActivateConfigGeneration(id: int, held: set<string>) returns (ok: bool)
      requires Sound()
      modifies this
      ensures Sound() && Evolves(old(Tables()), old(nextId), Tables(), nextId, held)
      ensures ok <==> forall g :: g in gens && gens[g].active && g != id ==> g in old(gens) && old(gens)[g].active
    {
      var off := set g | g in gens && gens[g].active && g != id;
      OthersCommit(held);
      ok := forall g :: g in gens && gens[g].active && g != id ==> g in off;
    }

    // registerConfigGeneration, with others committing between its
    // statements. A refusal rolls everything back. seen are the tables its
    // lookup read, at those its commit acts on.
    method RegisterOnce(requested: seq<Schema>, activate: bool, hash: string) returns (r: Attempt, ghost seen: Db, ghost at: Db)
      requires Sound() && hash == Identity(Keys(requested))
      modifies this
      ensures Sound() && Later(old(Tables()), seen) && Later(seen, at) && Later(at, Tables())
      ensures !r.Found? ==> Tables() == at
      ensures r.HashTaken? ==> !Registered(seen, hash) && Registered(at, hash)
      ensures r.Rejected? ==>
        || (seen == old(Tables()) && EnsureAll(old(schemas), requested) == Refused(r.refusal))
        || (r.refusal == ActiveConflict && activate && EnsureAll(old(schemas), requested).Kept? && Activated(seen, at))
      ensures !r.Rejected? ==> EnsureAll(old(schemas), requested).Kept?
      ensures r.Found? ==> RegisteredAs(old(Tables()), seen, at, Tables(), requested, activate, r.id)
    {
      LaterReflexive(Tables());
      at := Tables();
      var ensured := EnsureConfigSchemas(requested);
      if ensured.Refused? {
        return Rejected(ensured.refusal), at, at;
      }
      EnsureAllKeeps(schemas, requested);
      var kept := ensured.schemas;
      assert AllStored(kept, requested);
      OthersCommit({});
      seen := Tables();
      var taken, id, row, active := FindOrInsert(requested, hash);
      at := Tables();
      if taken {
        LaterReflexive(at);
        return HashTaken, seen, at;
      }
      var ok := SwitchTo(kept, id, row, activate && !active);
      LaterTransitive(seen, at, Tables());
      if !ok {
        ActivatedSince(seen, at, Tables());
      }
      at := Tables();
      if !ok {
        LaterReflexive(at);
        return Rejected(ActiveConflict), seen, at;
      }
      CommitRegistration(kept, id, row, activate && !active);
      r := Found(id);
    }

    // The rest of the transaction before its commit.
    method SwitchTo(ghost kept: map<Key, Stored>, id: int, row: Option<Generation>, switch: bool) returns (ok: bool)
      requires Sound() && Insertable(Tables(), nextId, kept, id, row)
      modifies this
      ensures Sound() && Later(old(Tables()), Tables())
      ensures Insertable(Tables(), nextId, kept, id, row)
      ensures !switch ==> ok
      ensures !ok ==> Activated(old(Tables()), Tables())
    {
      var held := if row.Some? then {row.value.identity} else {};
      OthersCommit(held);
      StillInsertable(old(Tables()), old(nextId), Tables(), nextId, kept, id, row);
      ok := true;
      if switch {
        ghost var before, next := Tables(), nextId;
        ok := ActivateConfigGeneration(id, held);
        StillInsertable(before, next, Tables(), nextId, kept, id, row);
        LaterTransitive(old(Tables()), before, Tables());
        if !ok {
          ghost var g :| g in gens && gens[g].active && !ActiveIn(before, g);
          assert Later(before, Tables()) && !ActiveIn(before, g) && ActiveIn(Tables(), g);
        }
      }
    }

    method CommitRegistration(kept: map<Key, Stored>, id: int, row: Option<Generation>, switch: bool)
      requires Sound() && Insertable(Tables(), nextId, kept, id, row)
      modifies this
      ensures Sound() && Later(old(Tables()), Tables())
      ensures Tables() == AfterRegistration(old(Tables()), kept, id, row, switch)
    {
      RegistrationSound(Tables(), nextId, kept, id, row, switch);
      RegistrationLater(Tables(), nextId, kept, id, row, switch);
      schemas := kept + schemas;
      if row.Some? {
        gens := gens[id := row.value];
      }
      if switch {
        gens := Switch(gens, id);
      }
    }

    // Two attempts: the error after the second cannot be returned. seen is a
    // state of the tables during the call, at the one its commit acts on.
    method RegisterConfigGeneration(requested: seq<Schema>, activate: bool) returns (r: Registration, ghost seen: Db, ghost at: Db)
      requires Sound()
      modifies this
      ensures Sound() && Later(old(Tables()), seen) && Later(seen, at) && Later(at, Tables())
      ensures r != ErrAfterRetry
      ensures !r.Registration? ==> Tables() == at
      ensures EnsureAll(old(schemas), requested).Refused? ==> r == ErrRejected(EnsureAll(old(schemas), requested).refusal)
      ensures r.ErrRejected? ==>
        (r.refusal == ActiveConflict && activate && Activated(seen, at)) || EnsureAll(seen.schemas, requested) == Refused(r.refusal)
      ensures !activate && old(Registered(Tables(), Identity(Keys(requested)))) && EnsureAll(old(schemas), requested).Kept? ==>
        r.Registration?
      ensures !activate && old(Registered(Tables(), Identity(Keys(requested)))) && AllAsRequested(old(schemas), requested) ==>
        r.Registration?
      ensures r.Registration? ==> HasIdentity(Tables(), Identity(Keys(requested)), r.id)
      ensures r.Registration? && activate ==> ActiveIn(seen, r.id) || ActiveIn(Tables(), r.id)
      ensures r.Registration? && old(Registered(Tables(), Identity(Keys(requested)))) ==>
        && old(HasIdentity(Tables(), Identity(Keys(requested)), r.id))
        && gens.Keys == at.gens.Keys
        && (AllStored(old(schemas), requested) ==> schemas == at.schemas)
    {
      LaterReflexive(Tables());
      if AllAsRequested(schemas, requested) {
        AsRequestedIsKept(schemas, requested);
      }
      var hash := ConfigGenerationIdentityHash(requested);
      r := ErrAfterRetry;
      var attempts := 0;
      while attempts < 2
        invariant 0 <= attempts <= 2
        invariant Sound() && Later(old(Tables()), Tables())
        invariant attempts == 0 ==> Tables() == old(Tables())
        invariant attempts > 0 ==> attempts == 1 && Registered(Tables(), hash) && !old(Registered(Tables(), hash))
        invariant attempts > 0 ==> EnsureAll(old(schemas), requested).Kept?
      {
        ghost var before := Tables();
        var attempt;
        attempt, seen, at := RegisterOnce(requested, activate, hash);
        LaterTransitive(old(Tables()), before, seen);
        match attempt
        case Found(id) =>
          RegistersIt(before, seen, at, Tables(), requested, activate, id);
          if Registered(before, hash) && attempts == 0 {
            RegistersNothingNew(before, seen, at, Tables(), requested, activate, id);
          }
          return Registration(id), seen, at;
        case Rejected(refusal) => return ErrRejected(refusal), seen, at;
        case HashTaken =>
          LaterTransitive(old(Tables()), seen, at);
          OthersCommit({});
          LaterTransitive(old(Tables()), at, Tables());
          ghost var g :| g in at.gens && HasIdentity(at, hash, g);
          assert HasIdentity(Tables(), hash, g);
        attempts := attempts + 1;
      }
    }
  }

  /** Registration is idempotent: any permutation of a registered schema set
      has its identity, and if it is accepted nothing is added. */
  lemma PermutationFindsItself(db: Db, g: int, requested: seq<Schema>)
    requires IdentitiesMatch(db) && UniqueIdentity(db) && RefsStored(db) && g in db.gens
    requires multiset(Keys(requested)) == multiset(db.gens[g].refs)
    ensures forall id :: HasIdentity(db, Identity(Keys(requested)), id) <==> id == g
    ensures EnsureAll(db.schemas, requested).Kept? ==> EnsureAll(db.schemas, requested) == Kept(db.schemas)
  {
    SameSetSameIdentity(Keys(requested), db.gens[g].refs);
    if EnsureAll(db.schemas, requested).Kept? {
      forall i | 0 <= i < |requested| ensures KeyOf(requested[i]) in db.schemas {
        assert Keys(requested)[i] in multiset(Keys(requested));
        assert KeyOf(requested[i]) in db.gens[g].refs;
      }
      EnsureAllStored(db.schemas, requested);
    }
  }
}
