/** Config generations as a machine whose steps are single SQL statements. An
    UPDATE that changes several rows is taken apart further: it fixes its
    candidate rows when it starts and then locks and re-checks each, which is
    how two activations can slip past each other. */
module ConfigModel {

  datatype Usage = Settings | Messages

  // A schema as it is handed in; an empty spec means "the stored one".
  datatype Schema = Schema(name: string, version: string, spec: string, usage: Usage)

  datatype Key = Key(name: string, version: string)

  datatype Stored = Stored(spec: string, usage: Usage)

  // A generation row and its schema references in ordinal order. The digest is
  // represented by what is hashed.
  datatype Generation = Generation(identity: string, refs: seq<Key>, active: bool)

  datatype Db = Db(schemas: map<Key, Stored>, gens: map<int, Generation>)

  datatype Request = Request(identity: string, schemas: seq<Schema>, activate: bool)

  datatype Point =
    | Ensuring(req: Request, i: nat)
    | Storing(req: Request, i: nat)
    | Finding(req: Request)
    | Inserting(req: Request)
    | Referencing(req: Request, id: int, i: nat)
    | Looking(id: int)
    | Deactivate(id: int)
    | Deactivating(id: int, candidates: set<int>)
    | Activate(id: int)
    | Done(id: int)

  // An open transaction: schemas it has stored, the generation it has
  // inserted, the references inserted for it, and the active flags it has
  // written, whose rows it has locked.
  datatype Tx = Tx(at: Point, newSchemas: map<Key, Stored>, newGens: map<int, string>, refs: seq<Key>, flags: map<int, bool>)

  function Opened(at: Point): Tx {
    Tx(at, map[], map[], [], map[])
  }

  function KeyOf(s: Schema): Key {
    Key(s.name, s.version)
  }

  function Keys(schemas: seq<Schema>): seq<Key> {
    seq(|schemas|, i requires 0 <= i < |schemas| => KeyOf(schemas[i]))
  }

  // Begin a registration, or the activation of a given id.
  predicate Starts(at: Point) {
    (at.Ensuring? && at.i == 0) || at.Looking?
  }

  predicate ActiveIn(db: Db, id: int) {
    id in db.gens && db.gens[id].active
  }

  // What a statement of tx sees of a generation's flag.
  predicate SeesActive(db: Db, tx: Tx, id: int) {
    if id in tx.flags then tx.flags[id] else ActiveIn(db, id)
  }

  datatype Refusal = SpecMissing | Mismatch | HashConflict | ActiveConflict | NotFound | DuplicateName

  datatype Outcome = Continue(tx: Tx) | Refuse(refusal: Refusal)

  predicate HasIdentity(db: Db, identity: string, id: int) {
    id in db.gens && db.gens[id].identity == identity
  }

  predicate Registered(db: Db, identity: string) {
    exists id :: id in db.gens && HasIdentity(db, identity, id)
  }

  // Where registration goes on once it knows its generation.
  function Decide(req: Request, id: int, active: bool): Point {
    if req.activate && !active then Deactivate(id) else Done(id)
  }

  predicate Ready(tx: Tx) {
    tx.at.Done?
  }

  // The next statement of a transaction. nextId is what the identity column
  // would hand out; row is the candidate an UPDATE under way looks at next.
  ghost function Exec(db: Db, tx: Tx, nextId: int, row: int): Outcome
    requires !Ready(tx)
  {
    match tx.at
    case Ensuring(req, i) =>
      if i >= |req.schemas| then Continue(tx.(at := Finding(req)))
      else
        var s := req.schemas[i];
        var k := KeyOf(s);
        if k !in db.schemas && k !in tx.newSchemas then
          if s.spec == "" then Refuse(SpecMissing) else Continue(tx.(at := Storing(req, i)))
        else
          var stored := if k in tx.newSchemas then tx.newSchemas[k] else db.schemas[k];
          if stored.usage != s.usage || (s.spec != "" && s.spec != stored.spec) then Refuse(Mismatch)
          else Continue(tx.(at := Ensuring(req, i + 1)))
    case Storing(req, i) =>
      if i >= |req.schemas| then Refuse(SpecMissing)
      else
        var s := req.schemas[i];
        var k := KeyOf(s);
        var newSchemas := if k in db.schemas || k in tx.newSchemas then tx.newSchemas else tx.newSchemas[k := Stored(s.spec, s.usage)];
        Continue(tx.(at := Ensuring(req, i + 1), newSchemas := newSchemas))
    case Finding(req) =>
      if Registered(db, req.identity) then
        var id :| id in db.gens && HasIdentity(db, req.identity, id);
        Continue(tx.(at := Decide(req, id, db.gens[id].active)))
      else Continue(tx.(at := Inserting(req)))
    case Inserting(req) =>
      if Registered(db, req.identity) then Refuse(HashConflict)
      else Continue(tx.(at := Referencing(req, nextId, 0), newGens := tx.newGens[nextId := req.identity], flags := tx.flags[nextId := false]))
    case Referencing(req, id, i) =>
      if i >= |req.schemas| then Continue(tx.(at := Decide(req, id, false)))
      else if exists k :: k in tx.refs && k.name == req.schemas[i].name then Refuse(DuplicateName)
      else Continue(tx.(at := Referencing(req, id, i + 1), refs := tx.refs + [KeyOf(req.schemas[i])]))
    case Looking(id) =>
      if id !in db.gens then Refuse(NotFound)
      else if db.gens[id].active then Continue(tx.(at := Done(id)))
      else Continue(tx.(at := Deactivate(id)))
    case Deactivate(id) =>
      Continue(tx.(at := Deactivating(id, set g | g in db.gens.Keys + tx.flags.Keys && SeesActive(db, tx, g) && g != id)))
    case Deactivating(id, candidates) =>
      if candidates == {} then Continue(tx.(at := Activate(id)))
      else
        var rest := Deactivating(id, candidates - {row});
        if row in candidates && SeesActive(db, tx, row) then Continue(tx.(at := rest, flags := tx.flags[row := false]))
        else Continue(tx.(at := rest))
    case Activate(id) =>
      if exists g :: g in db.gens && g != id && ActiveIn(db, g) && g !in tx.flags then Refuse(ActiveConflict)
      else Continue(tx.(at := Done(id), flags := tx.flags[id := true]))
  }

  // ----- The machine -----

  datatype State = State(db: Db, txs: map<nat, Tx>, nextId: int)

  // u holds something the next statement of t has to wait for: a generation
  // row, a pending row under the same unique key, or, for the index that
  // admits one active row, any other row whose active flag u is changing.
  predicate WaitsFor(s: State, t: nat, row: int, u: nat)
    requires t in s.txs && u in s.txs && !Ready(s.txs[t])
  {
    var tx, other := s.txs[t], s.txs[u];
    t != u &&
    match tx.at
    case Storing(req, i) => i < |req.schemas| && KeyOf(req.schemas[i]) in other.newSchemas
    case Inserting(req) => req.identity in other.newGens.Values
    case Deactivating(_, candidates) => row in candidates && row in other.flags
    case Activate(id) =>
      id in other.flags || exists g :: g in other.flags && g != id && (other.flags[g] || ActiveIn(s.db, g))
    case _ => false
  }

  predicate Blocked(s: State, t: nat, row: int)
    requires t in s.txs && !Ready(s.txs[t])
  {
    exists u :: u in s.txs && WaitsFor(s, t, row, u)
  }

  datatype Action =
    | Begin(t: nat, at: Point)
    | Execute(t: nat, row: int)
    | Commit(t: nat)
    | Rollback(t: nat)

  ghost predicate Enabled(s: State, a: Action) {
    match a
    case Begin(t, at) => t !in s.txs && Starts(at)
    case Execute(t, row) =>
      && t in s.txs && !Ready(s.txs[t])
      && (s.txs[t].at.Deactivating? && s.txs[t].at.candidates != {} ==> row in s.txs[t].at.candidates)
      && !Blocked(s, t, row) && Exec(s.db, s.txs[t], s.nextId, row).Continue?
    case Commit(t) => t in s.txs && Ready(s.txs[t])
    case Rollback(t) => t in s.txs
  }

  function Committed(db: Db, tx: Tx): Db {
    Db(db.schemas + tx.newSchemas,
       map g | g in db.gens.Keys + tx.newGens.Keys ::
         var before := if g in tx.newGens then Generation(tx.newGens[g], tx.refs, false) else db.gens[g];
         if g in tx.flags then before.(active := tx.flags[g]) else before)
  }

  // An identity value is used up even when its transaction rolls back.
  ghost function Next(s: State, a: Action): State
    requires Enabled(s, a)
  {
    match a
    case Begin(t, at) => s.(txs := s.txs[t := Opened(at)])
    case Execute(t, row) =>
      State(s.db, s.txs[t := Exec(s.db, s.txs[t], s.nextId, row).tx], if s.txs[t].at.Inserting? then s.nextId + 1 else s.nextId)
    case Commit(t) => State(Committed(s.db, s.txs[t]), s.txs - {t}, s.nextId)
    case Rollback(t) => s.(txs := s.txs - {t})
  }

  const INITIAL := State(Db(map[], map[]), map[], 1)

  ghost predicate IsRun(run: seq<State>, actions: seq<Action>) {
    && |run| == |actions| + 1
    && run[0] == INITIAL
    && forall i :: 0 <= i < |actions| ==> Enabled(run[i], actions[i]) && run[i + 1] == Next(run[i], actions[i])
  }
}
