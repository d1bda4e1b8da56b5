/** The service's dry run and the validator that loads what was registered. The
    constraint language is not modelled: a decoder and a builder stand for it,
    about which only this is known, that what the strict decoder accepts the
    lenient one accepts too. */
module ConfigService {
  import opened Basics
  import opened ConfigModel
  import opened ConfigSteps
  import opened ConfigStoreMethods
  import opened IdentityHash

  datatype Revisor = Revisor(strict: string -> bool, lenient: string -> bool, builds: seq<string> -> bool)

  ghost predicate DecoderOk(rev: Revisor) {
    forall s :: rev.strict(s) ==> rev.lenient(s)
  }

  // ----- The dry run -----

  // The spec a requested schema stands for: its own, or the stored one.
  function Resolve(stored: map<Key, Stored>, s: Schema): Option<string> {
    if s.spec != "" then Some(s.spec)
    else if KeyOf(s) in stored then Some(stored[KeyOf(s)].spec)
    else None
  }

  predicate Decodes(rev: Revisor, stored: map<Key, Stored>, s: Schema) {
    if s.spec != "" then rev.strict(s.spec)
    else KeyOf(s) in stored && rev.lenient(stored[KeyOf(s)].spec)
  }

  predicate WellFormed(requested: seq<Schema>) {
    && requested != []
    && (forall i :: 0 <= i < |requested| ==> requested[i].name != "" && requested[i].version != "")
    && (forall i, j :: 0 <= i < j < |requested| ==> requested[i].name != requested[j].name)
  }

  // The resolved specs of one usage, in request order.
  function DrySpecs(stored: map<Key, Stored>, requested: seq<Schema>, usage: Usage): seq<string> {
    if requested == [] then []
    else
      var last := requested[|requested| - 1];
      DrySpecs(stored, requested[..|requested| - 1], usage)
      + if last.usage == usage && Resolve(stored, last).Some? then [Resolve(stored, last).value] else []
  }

  predicate GroupsBuild(rev: Revisor, specs: Usage -> seq<string>) {
    && (specs(Settings) != [] ==> rev.builds(specs(Settings)))
    && (specs(Messages) != [] ==> rev.builds(specs(Messages)))
  }

  // What the service demands before it calls the store.
  predicate Accepted(rev: Revisor, stored: map<Key, Stored>, requested: seq<Schema>) {
    && WellFormed(requested)
    && (forall i :: 0 <= i < |requested| ==> Decodes(rev, stored, requested[i]))
    && GroupsBuild(rev, usage => DrySpecs(stored, requested, usage))
  }

  // grouped[usage] = append(grouped[usage], cs)
  function AddTo(grouped: map<Usage, seq<string>>, usage: Usage, cs: string): map<Usage, seq<string>> {
    grouped[usage := Group(grouped, usage) + [cs]]
  }

  function Group(grouped: map<Usage, seq<string>>, usage: Usage): seq<string> {
    if usage in grouped then grouped[usage] else []
  }

  predicate NoEmptyGroup(grouped: map<Usage, seq<string>>) {
    forall usage :: usage in grouped ==> grouped[usage] != []
  }

  function Names(requested: seq<Schema>, n: nat): set<string>
    requires n <= |requested|
  {
    if n == 0 then {} else Names(requested, n - 1) + {requested[n - 1].name}
  }

  // The first n schemas pass the checks of the loop.
  predicate OkUpTo(rev: Revisor, stored: map<Key, Stored>, requested: seq<Schema>, n: nat) {
    && n <= |requested|
    && (forall j :: 0 <= j < n ==> requested[j].name != "" && requested[j].version != "" && Decodes(rev, stored, requested[j]))
    && (forall j, k :: 0 <= j < k < n ==> requested[j].name != requested[k].name)
  }

  lemma {:induction false} NamesAre(requested: seq<Schema>, n: nat, name: string)
    requires n <= |requested|
    ensures name in Names(requested, n) <==> exists j :: 0 <= j < n && requested[j].name == name
  {
    if n > 0 {
      NamesAre(requested, n - 1, name);
    }
  }

  // What the loop asks of one schema.
  predicate Passes(rev: Revisor, stored: map<Key, Stored>, s: Schema, seen: set<string>) {
    s.name != "" && s.version != "" && s.name !in seen && Decodes(rev, stored, s)
  }

  lemma OkStep(rev: Revisor, stored: map<Key, Stored>, requested: seq<Schema>, i: nat)
    requires i < |requested| && OkUpTo(rev, stored, requested, i)
    ensures OkUpTo(rev, stored, requested, i + 1) <==> Passes(rev, stored, requested[i], Names(requested, i))
    ensures OkUpTo(rev, stored, requested, |requested|) ==> OkUpTo(rev, stored, requested, i + 1)
  {
    NamesAre(requested, i, requested[i].name);
  }

  predicate GroupsAre(grouped: map<Usage, seq<string>>, settings: seq<string>, messages: seq<string>) {
    Group(grouped, Settings) == settings && Group(grouped, Messages) == messages
  }

  // The first n schemas have been grouped.
  predicate IsGrouped(stored: map<Key, Stored>, requested: seq<Schema>, n: nat, grouped: map<Usage, seq<string>>) {
    && n <= |requested| && NoEmptyGroup(grouped)
    && GroupsAre(grouped, DrySpecs(stored, requested[..n], Settings), DrySpecs(stored, requested[..n], Messages))
  }

  lemma DryStep(stored: map<Key, Stored>, requested: seq<Schema>, i: nat, grouped: map<Usage, seq<string>>)
    requires i < |requested| && Resolve(stored, requested[i]).Some?
    requires IsGrouped(stored, requested, i, grouped)
    ensures IsGrouped(stored, requested, i + 1, AddTo(grouped, requested[i].usage, Resolve(stored, requested[i]).value))
  {
    assert requested[..i + 1][..i] == requested[..i];
  }

  lemma AllGrouped(stored: map<Key, Stored>, requested: seq<Schema>, grouped: map<Usage, seq<string>>)
    requires IsGrouped(stored, requested, |requested|, grouped)
    ensures GroupsAre(grouped, DrySpecs(stored, requested, Settings), DrySpecs(stored, requested, Messages))
  {
    assert requested[..|requested|] == requested;
  }

  // The supplied spec, or the stored one when none is supplied.
  method ResolveConstraintSet(rev: Revisor, stored: map<Key, Stored>, s: Schema) returns (ok: bool, cs: string)
    ensures ok == Decodes(rev, stored, s)
    ensures ok ==> Resolve(stored, s) == Some(cs)
  {
    if s.spec != "" {
      return rev.strict(s.spec), s.spec;
    }
    if KeyOf(s) !in stored {
      return false, "";
    }
    cs := stored[KeyOf(s)].spec;
    ok := rev.lenient(cs);
  }

  // The loop's state after n schemas.
  predicate LoopAt(rev: Revisor, stored: map<Key, Stored>, requested: seq<Schema>, n: nat, seen: set<string>, grouped: map<Usage, seq<string>>) {
    && OkUpTo(rev, stored, requested, n) && seen == Names(requested, n)
    && IsGrouped(stored, requested, n, grouped)
  }

  lemma LoopNext(rev: Revisor, stored: map<Key, Stored>, requested: seq<Schema>, i: nat, seen: set<string>, grouped: map<Usage, seq<string>>)
    requires i < |requested| && LoopAt(rev, stored, requested, i, seen, grouped)
    ensures var s := requested[i];
      if Passes(rev, stored, s, seen) then
        && Resolve(stored, s).Some?
        && LoopAt(rev, stored, requested, i + 1, seen + {s.name}, AddTo(grouped, s.usage, Resolve(stored, s).value))
      else !OkUpTo(rev, stored, requested, |requested|)
  {
    OkStep(rev, stored, requested, i);
    if Passes(rev, stored, requested[i], seen) {
      DryStep(stored, requested, i, grouped);
    }
  }

  // The request loop: argument checks, decoding and grouping by usage.
  method GroupRequest(rev: Revisor, stored: map<Key, Stored>, requested: seq<Schema>)
      returns (ok: bool, grouped: map<Usage, seq<string>>)
    requires requested != []
    ensures ok == OkUpTo(rev, stored, requested, |requested|)
    ensures ok ==> NoEmptyGroup(grouped)
    ensures ok ==> GroupsAre(grouped, DrySpecs(stored, requested, Settings), DrySpecs(stored, requested, Messages))
  {
    var seen: set<string> := {};
    grouped := map[];
    var i := 0;
    while i < |requested|
      invariant 0 <= i <= |requested|
      invariant LoopAt(rev, stored, requested, i, seen, grouped)
    {
      LoopNext(rev, stored, requested, i, seen, grouped);
      var s := requested[i];
      if s.name == "" || s.version == "" || s.name in seen {
        return false, grouped;
      }
      seen := seen + {s.name};
      var decoded, cs := ResolveConstraintSet(rev, stored, s);
      if !decoded {
        return false, grouped;
      }
      grouped := AddTo(grouped, s.usage, cs);
      i := i + 1;
    }
    AllGrouped(stored, requested, grouped);
    ok := true;
  }

  method DryRun(rev: Revisor, stored: map<Key, Stored>, requested: seq<Schema>) returns (ok: bool)
    ensures ok == Accepted(rev, stored, requested)
  {
    if |requested| == 0 {
      return false;
    }
    var grouped;
    ok, grouped := GroupRequest(rev, stored, requested);
    if ok {
      ok := BuildGroups(rev, grouped);
    }
  }

  // One validator per usage that occurs; a map is ranged over in any order.
  method BuildGroups(rev: Revisor, grouped: map<Usage, seq<string>>) returns (ok: bool)
    requires NoEmptyGroup(grouped)
    ensures ok == GroupsBuild(rev, usage => Group(grouped, usage))
  {
    ok := true;
    if Settings in grouped && !rev.builds(grouped[Settings]) {
      ok := false;
    } else if Messages in grouped && !rev.builds(grouped[Messages]) {
      ok := false;
    }
  }

  // ----- Registered generations build -----

  // The stored specs a generation has for one usage, in ordinal order.
  function StoredSpecs(schemas: map<Key, Stored>, refs: seq<Key>, usage: Usage): seq<string> {
    if refs == [] then []
    else
      var last := refs[|refs| - 1];
      StoredSpecs(schemas, refs[..|refs| - 1], usage)
      + if last in schemas && schemas[last].usage == usage then [schemas[last].spec] else []
  }

  predicate Loads(rev: Revisor, schemas: map<Key, Stored>, refs: seq<Key>) {
    && (forall i :: 0 <= i < |refs| ==> refs[i] in schemas && rev.lenient(schemas[refs[i]].spec))
    && GroupsBuild(rev, usage => StoredSpecs(schemas, refs, usage))
  }

  // Every generation can be loaded by the validator.
  predicate AllLoad(rev: Revisor, db: Db) {
    forall g :: g in db.gens ==> Loads(rev, db.schemas, db.gens[g].refs)
  }

  lemma {:induction false} SameSpecs(a: map<Key, Stored>, b: map<Key, Stored>, refs: seq<Key>, usage: Usage)
    requires Extends(a, b) && forall i :: 0 <= i < |refs| ==> refs[i] in a
    ensures StoredSpecs(a, refs, usage) == StoredSpecs(b, refs, usage)
    decreases |refs|
  {
    if refs != [] {
      SameSpecs(a, b, refs[..|refs| - 1], usage);
    }
  }

  lemma LoadsLater(rev: Revisor, a: map<Key, Stored>, b: map<Key, Stored>, refs: seq<Key>)
    requires Loads(rev, a, refs) && Extends(a, b)
    ensures Loads(rev, b, refs)
  {
    SameSpecs(a, b, refs, Settings);
    SameSpecs(a, b, refs, Messages);
  }

  // What is stored for a requested schema is what the dry run resolved.
  predicate ResolvedAs(stored: map<Key, Stored>, kept: map<Key, Stored>, s: Schema) {
    var k := KeyOf(s);
    k in kept && kept[k].usage == s.usage && Resolve(stored, s) == Some(kept[k].spec)
  }

  lemma DryRunIsStored(stored: map<Key, Stored>, requested: seq<Schema>)
    requires EnsureAll(stored, requested).Kept?
    requires forall i :: 0 <= i < |requested| ==> Resolve(stored, requested[i]).Some?
    ensures forall i :: 0 <= i < |requested| ==> ResolvedAs(stored, EnsureAll(stored, requested).schemas, requested[i])
  {
    EnsureAllKeeps(stored, requested);
    var kept := EnsureAll(stored, requested).schemas;
    forall i | 0 <= i < |requested| ensures ResolvedAs(stored, kept, requested[i]) {
      assert AsRequested(kept, requested[i]);
    }
  }

  lemma {:induction false} DrySpecsAreStored(stored: map<Key, Stored>, kept: map<Key, Stored>, requested: seq<Schema>, usage: Usage)
    requires forall i :: 0 <= i < |requested| ==> ResolvedAs(stored, kept, requested[i])
    ensures StoredSpecs(kept, Keys(requested), usage) == DrySpecs(stored, requested, usage)
    decreases |requested|
  {
    if requested != [] {
      var before, last := requested[..|requested| - 1], requested[|requested| - 1];
      DrySpecsAreStored(stored, kept, before, usage);
      assert Keys(requested)[..|requested| - 1] == Keys(before);
      assert ResolvedAs(stored, kept, last);
    }
  }

  // A registration that the dry run let through can be loaded.
  lemma AcceptedLoads(rev: Revisor, stored: map<Key, Stored>, requested: seq<Schema>)
    requires DecoderOk(rev) && Accepted(rev, stored, requested) && EnsureAll(stored, requested).Kept?
    ensures Loads(rev, EnsureAll(stored, requested).schemas, Keys(requested))
  {
    var kept := EnsureAll(stored, requested).schemas;
    forall i | 0 <= i < |requested| ensures Resolve(stored, requested[i]).Some? {
      assert Decodes(rev, stored, requested[i]);
    }
    DryRunIsStored(stored, requested);
    DrySpecsAreStored(stored, kept, requested, Settings);
    DrySpecsAreStored(stored, kept, requested, Messages);
    forall i | 0 <= i < |requested|
      ensures Keys(requested)[i] in kept && rev.lenient(kept[Keys(requested)[i]].spec)
    {
      assert ResolvedAs(stored, kept, requested[i]);
      assert Decodes(rev, stored, requested[i]);
    }
  }

  // The change of tables a registration makes when nothing comes in between,
  // activation flags aside: None if it is refused.
  ghost function RegisterAlone(db: Db, nextId: int, requested: seq<Schema>): Option<Db> {
    var ensured := EnsureAll(db.schemas, requested);
    var hash := Identity(Keys(requested));
    if ensured.Refused? then None
    else if Registered(db, hash) then Some(db.(schemas := ensured.schemas))
    else Some(WithGeneration(db, ensured.schemas, nextId, hash, Keys(requested)))
  }

  /** With registrations taken one at a time, dry run included, every stored
      generation can be decoded and built, so loading the active one cannot
      fail on its schemas. */
  lemma RegistrationsKeepLoading(rev: Revisor, db: Db, nextId: int, requested: seq<Schema>)
    requires DecoderOk(rev) && AllLoad(rev, db) && IdsUsed(db, nextId)
    requires Accepted(rev, db.schemas, requested) && RegisterAlone(db, nextId, requested).Some?
    ensures AllLoad(rev, RegisterAlone(db, nextId, requested).value)
  {
    var db' := RegisterAlone(db, nextId, requested).value;
    var kept := EnsureAll(db.schemas, requested).schemas;
    EnsureAllKeeps(db.schemas, requested);
    AcceptedLoads(rev, db.schemas, requested);
    assert Extends(kept, db'.schemas) && Extends(db.schemas, db'.schemas);
    forall g | g in db'.gens ensures Loads(rev, db'.schemas, db'.gens[g].refs) {
      if g in db.gens {
        LoadsLater(rev, db.schemas, db'.schemas, db.gens[g].refs);
      } else {
        LoadsLater(rev, kept, db'.schemas, Keys(requested));
      }
    }
  }

  // ----- The validator -----

  // The specs of one usage in a list of schemas as read.
  function ReadSpecs(read: seq<(Key, Stored)>, usage: Usage): seq<string> {
    if read == [] then []
    else
      var last := read[|read| - 1];
      ReadSpecs(read[..|read| - 1], usage) + if last.1.usage == usage then [last.1.spec] else []
  }

  predicate CanLoad(rev: Revisor, read: seq<(Key, Stored)>) {
    && (forall i :: 0 <= i < |read| ==> rev.lenient(read[i].1.spec))
    && GroupsBuild(rev, usage => ReadSpecs(read, usage))
  }

  // The validators built from a list: per usage that occurs, the specs.
  function Built(read: seq<(Key, Stored)>): map<Usage, seq<string>> {
    map usage | usage in {Settings, Messages} && ReadSpecs(read, usage) != [] :: ReadSpecs(read, usage)
  }

  class Validator {
    var validators: map<Usage, seq<string>>
    var activeGenerationID: int

    constructor ()
      ensures validators == map[] && activeGenerationID == 0
    {
      validators, activeGenerationID := map[], 0;
    }

    // loadSchemas, given what its two reads return. On failure the previous
    // validators are kept.
    method LoadSchemas(rev: Revisor, read: seq<(Key, Stored)>, generationID: int) returns (ok: bool)
      modifies this
      ensures ok == CanLoad(rev, read)
      ensures validators == if ok then Built(read) else old(validators)
      ensures activeGenerationID == if ok then generationID else old(activeGenerationID)
    {
      var grouped: map<Usage, seq<string>> := map[];
      var i := 0;
      while i < |read|
        invariant 0 <= i <= |read|
        invariant validators == old(validators) && activeGenerationID == old(activeGenerationID)
        invariant forall j :: 0 <= j < i ==> rev.lenient(read[j].1.spec)
        invariant NoEmptyGroup(grouped)
        invariant GroupsAre(grouped, ReadSpecs(read[..i], Settings), ReadSpecs(read[..i], Messages))
      {
        ReadStep(read, i, grouped);
        var schema := read[i].1;
        if !rev.lenient(schema.spec) {
          return false;
        }
        grouped := AddTo(grouped, schema.usage, schema.spec);
        i := i + 1;
      }
      assert read[..i] == read;
      ok := BuildGroups(rev, grouped);
      if ok {
        BuiltIs(read, grouped);
        validators := grouped;
        activeGenerationID := generationID;
      }
    }
  }

  lemma ReadStep(read: seq<(Key, Stored)>, i: nat, grouped: map<Usage, seq<string>>)
    requires i < |read|
    requires GroupsAre(grouped, ReadSpecs(read[..i], Settings), ReadSpecs(read[..i], Messages))
    ensures var grouped' := AddTo(grouped, read[i].1.usage, read[i].1.spec);
      GroupsAre(grouped', ReadSpecs(read[..i + 1], Settings), ReadSpecs(read[..i + 1], Messages))
  {
    assert read[..i + 1][..i] == read[..i];
  }

  lemma BuiltIs(read: seq<(Key, Stored)>, grouped: map<Usage, seq<string>>)
    requires NoEmptyGroup(grouped)
    requires GroupsAre(grouped, ReadSpecs(read, Settings), ReadSpecs(read, Messages))
    ensures grouped == Built(read)
  {
    forall usage: Usage ensures Group(grouped, usage) == ReadSpecs(read, usage) {
      match usage
      case Settings =>
      case Messages =>
    }
    forall usage: Usage ensures usage in grouped <==> usage in Built(read) {
      assert Group(grouped, usage) == ReadSpecs(read, usage);
    }
    forall usage | usage in grouped ensures grouped[usage] == Built(read)[usage] {
      assert Group(grouped, usage) == ReadSpecs(read, usage);
    }
  }
}
