/** What passes the dry run and what a validator is built from, schema by
    schema, without the loops that compute it. */
module Builds {
  import opened ConfigModel
  import opened ConfigService

  // is lists, in order, the positions that have this usage.
  predicate Lists(usages: seq<Usage>, usage: Usage, positions: seq<nat>) {
    && (forall j :: 0 <= j < |positions| ==> positions[j] < |usages| && usages[positions[j]] == usage)
    && (forall j, k :: 0 <= j < k < |positions| ==> positions[j] < positions[k])
    && (forall i :: 0 <= i < |usages| && usages[i] == usage ==> i in positions)
  }

  function Picked(specs: seq<string>, positions: seq<nat>): seq<string>
    requires forall j :: 0 <= j < |positions| ==> positions[j] < |specs|
  {
    seq(|positions|, j requires 0 <= j < |positions| => specs[positions[j]])
  }

  // The specs of one usage, in order.
  function Grouped(usages: seq<Usage>, specs: seq<string>, usage: Usage): seq<string>
    requires |usages| == |specs|
  {
    if usages == [] then []
    else
      var n := |usages| - 1;
      Grouped(usages[..n], specs[..n], usage) + if usages[n] == usage then [specs[n]] else []
  }

  // The last position of a usage comes last in its listing.
  lemma LastPosition(usages: seq<Usage>, usage: Usage, positions: seq<nat>)
    requires Lists(usages, usage, positions) && usages != [] && usages[|usages| - 1] == usage
    ensures positions != [] && positions[|positions| - 1] == |usages| - 1
  {
    var j :| 0 <= j < |positions| && positions[j] == |usages| - 1;
    assert positions[|positions| - 1] >= positions[j] && positions[|positions| - 1] < |usages|;
  }

  lemma ListingBefore(usages: seq<Usage>, usage: Usage, positions: seq<nat>)
    requires Lists(usages, usage, positions) && usages != [] && usages[|usages| - 1] == usage
    ensures positions != [] && Lists(usages[..|usages| - 1], usage, positions[..|positions| - 1])
  {
    LastPosition(usages, usage, positions);
    var n, before := |usages| - 1, positions[..|positions| - 1];
    forall i | 0 <= i < n && usages[i] == usage ensures i in before {
      var k :| 0 <= k < |positions| && positions[k] == i;
      assert before[k] == i;
    }
  }

  lemma ListingUnchanged(usages: seq<Usage>, usage: Usage, positions: seq<nat>)
    requires Lists(usages, usage, positions) && usages != [] && usages[|usages| - 1] != usage
    ensures Lists(usages[..|usages| - 1], usage, positions)
  {
    assert forall j :: 0 <= j < |positions| ==> positions[j] != |usages| - 1;
  }

  lemma PickedBefore(specs: seq<string>, positions: seq<nat>)
    requires specs != [] && positions != [] && positions[|positions| - 1] == |specs| - 1
    requires forall j :: 0 <= j < |positions| - 1 ==> positions[j] < |specs| - 1
    ensures Picked(specs, positions)
         == Picked(specs[..|specs| - 1], positions[..|positions| - 1]) + [specs[|specs| - 1]]
  {
  }

  lemma {:induction false} GroupedIs(usages: seq<Usage>, specs: seq<string>, usage: Usage, positions: seq<nat>)
    requires |usages| == |specs| && Lists(usages, usage, positions)
    ensures Grouped(usages, specs, usage) == Picked(specs, positions)
    decreases |usages|
  {
    if usages == [] {
      assert positions == [];
    } else {
      var n := |usages| - 1;
      if usages[n] == usage {
        LastPosition(usages, usage, positions);
        ListingBefore(usages, usage, positions);
        PickedBefore(specs, positions);
        GroupedIs(usages[..n], specs[..n], usage, positions[..|positions| - 1]);
      } else {
        ListingUnchanged(usages, usage, positions);
        GroupedIs(usages[..n], specs[..n], usage, positions);
        assert Picked(specs, positions) == Picked(specs[..n], positions);
      }
    }
  }

  lemma {:induction false} SomeListing(usages: seq<Usage>, usage: Usage) returns (positions: seq<nat>)
    ensures Lists(usages, usage, positions)
    decreases |usages|
  {
    if usages == [] {
      positions := [];
    } else {
      var n := |usages| - 1;
      var before := SomeListing(usages[..n], usage);
      NextPosition(usages, usage, before);
      positions := if usages[n] == usage then before + [n] else before;
    }
  }

  lemma NextPosition(usages: seq<Usage>, usage: Usage, before: seq<nat>)
    requires usages != [] && Lists(usages[..|usages| - 1], usage, before)
    ensures var n := |usages| - 1;
      Lists(usages, usage, if usages[n] == usage then before + [n] else before)
  {
    var n := |usages| - 1;
    var positions := if usages[n] == usage then before + [n] else before;
    forall i | 0 <= i < |usages| && usages[i] == usage ensures i in positions {
      if i < n {
        assert usages[..n][i] == usage;
        assert i in before;
      } else {
        assert positions[|before|] == i;
      }
    }
  }

  // Every usage that occurs has its specs, in order, built together.
  ghost predicate AllBuild(rev: Revisor, usages: seq<Usage>, specs: seq<string>)
    requires |usages| == |specs|
  {
    forall usage, positions | Lists(usages, usage, positions) && positions != [] :: rev.builds(Picked(specs, positions))
  }

  lemma AllBuildIs(rev: Revisor, usages: seq<Usage>, specs: seq<string>)
    requires |usages| == |specs|
    ensures AllBuild(rev, usages, specs) <==> GroupsBuild(rev, usage => Grouped(usages, specs, usage))
  {
    forall usage, positions | Lists(usages, usage, positions)
      ensures Grouped(usages, specs, usage) == Picked(specs, positions)
    {
      GroupedIs(usages, specs, usage, positions);
    }
    var settings := SomeListing(usages, Settings);
    var messages := SomeListing(usages, Messages);
    if AllBuild(rev, usages, specs) {
      assert settings != [] ==> rev.builds(Picked(specs, settings));
      assert messages != [] ==> rev.builds(Picked(specs, messages));
    }
  }

  // ----- The dry run -----

  function Usages(requested: seq<Schema>): seq<Usage> {
    seq(|requested|, i requires 0 <= i < |requested| => requested[i].usage)
  }

  function SpecFor(stored: map<Key, Stored>, s: Schema): string {
    if s.spec != "" then s.spec else if KeyOf(s) in stored then stored[KeyOf(s)].spec else ""
  }

  function SpecsFor(stored: map<Key, Stored>, requested: seq<Schema>): seq<string> {
    seq(|requested|, i requires 0 <= i < |requested| => SpecFor(stored, requested[i]))
  }

  // A supplied spec has only known fields; a missing one is stored.
  predicate SpecIsFine(rev: Revisor, stored: map<Key, Stored>, s: Schema) {
    if s.spec != "" then rev.strict(s.spec)
    else KeyOf(s) in stored && rev.lenient(stored[KeyOf(s)].spec)
  }

  lemma {:induction false} DryIsGrouped(stored: map<Key, Stored>, requested: seq<Schema>, usage: Usage)
    requires forall i :: 0 <= i < |requested| ==> requested[i].spec != "" || KeyOf(requested[i]) in stored
    ensures DrySpecs(stored, requested, usage) == Grouped(Usages(requested), SpecsFor(stored, requested), usage)
    decreases |requested|
  {
    if requested != [] {
      var n := |requested| - 1;
      DryIsGrouped(stored, requested[..n], usage);
      assert Usages(requested)[..n] == Usages(requested[..n]);
      assert SpecsFor(stored, requested)[..n] == SpecsFor(stored, requested[..n]);
    }
  }

  /** A request passes the dry run exactly if it lists schemas, each named and
      versioned and no name twice, a supplied spec decodes strictly, a missing
      one is stored and decodes, and for each usage that occurs its specs build
      in the order listed. */
  lemma DryRunMeans(rev: Revisor, stored: map<Key, Stored>, requested: seq<Schema>)
    ensures Accepted(rev, stored, requested) <==>
      && requested != []
      && (forall i :: 0 <= i < |requested| ==> requested[i].name != "" && requested[i].version != "")
      && (forall i, j :: 0 <= i < j < |requested| ==> requested[i].name != requested[j].name)
      && (forall i :: 0 <= i < |requested| ==> SpecIsFine(rev, stored, requested[i]))
      && AllBuild(rev, Usages(requested), SpecsFor(stored, requested))
  {
    AllBuildIs(rev, Usages(requested), SpecsFor(stored, requested));
    forall i | 0 <= i < |requested|
      ensures Decodes(rev, stored, requested[i]) <==> SpecIsFine(rev, stored, requested[i]) { }
    if forall i :: 0 <= i < |requested| ==> SpecIsFine(rev, stored, requested[i]) {
      forall i | 0 <= i < |requested| ensures requested[i].spec != "" || KeyOf(requested[i]) in stored {
        assert SpecIsFine(rev, stored, requested[i]);
      }
      DryIsGrouped(stored, requested, Settings);
      DryIsGrouped(stored, requested, Messages);
    }
  }

  // ----- The validators -----

  function ReadUsages(read: seq<(Key, Stored)>): seq<Usage> {
    seq(|read|, i requires 0 <= i < |read| => read[i].1.usage)
  }

  function ReadAll(read: seq<(Key, Stored)>): seq<string> {
    seq(|read|, i requires 0 <= i < |read| => read[i].1.spec)
  }

  lemma {:induction false} ReadIsGrouped(read: seq<(Key, Stored)>, usage: Usage)
    ensures ReadSpecs(read, usage) == Grouped(ReadUsages(read), ReadAll(read), usage)
    decreases |read|
  {
    if read != [] {
      var n := |read| - 1;
      ReadIsGrouped(read[..n], usage);
      assert ReadUsages(read)[..n] == ReadUsages(read[..n]);
      assert ReadAll(read)[..n] == ReadAll(read[..n]);
    }
  }

  /** A reload goes through exactly if every spec read decodes and, for each
      usage that occurs, its specs build in the order read. */
  lemma ReloadMeans(rev: Revisor, read: seq<(Key, Stored)>)
    ensures CanLoad(rev, read) <==>
      (forall i :: 0 <= i < |read| ==> rev.lenient(read[i].1.spec)) && AllBuild(rev, ReadUsages(read), ReadAll(read))
  {
    AllBuildIs(rev, ReadUsages(read), ReadAll(read));
    ReadIsGrouped(read, Settings);
    ReadIsGrouped(read, Messages);
  }

  /** The validators it swaps in: one for each usage that occurs, of that
      usage's specs in the order read. */
  lemma ValidatorsMean(read: seq<(Key, Stored)>, usage: Usage, positions: seq<nat>)
    requires Lists(ReadUsages(read), usage, positions)
    ensures usage in Built(read) <==> positions != []
    ensures usage in Built(read) ==> Built(read)[usage] == Picked(ReadAll(read), positions)
  {
    ReadIsGrouped(read, usage);
    GroupedIs(ReadUsages(read), ReadAll(read), usage, positions);
  }
}
