/** When a set of schemas may be stored: for each schema in turn, what is asked
    of it, and which refusal it meets. */
module KeptRequests {
  import opened ConfigModel
  import opened ConfigStoreMethods

  // The schema may be requested of one that is stored like this: the same
  // usage, and the same spec unless none is supplied.
  predicate Agrees(usage: Usage, spec: string, s: Schema) {
    s.usage == usage && (s.spec == "" || s.spec == spec)
  }

  predicate FirstOfKey(requested: seq<Schema>, i: nat)
    requires i < |requested|
  {
    forall j :: 0 <= j < i ==> KeyOf(requested[j]) != KeyOf(requested[i])
  }

  // The i-th schema agrees with what is stored under its key; if nothing is,
  // it brings a spec, or agrees with the first of the request that did.
  predicate Storable(stored: map<Key, Stored>, requested: seq<Schema>, i: nat)
    requires i < |requested|
  {
    var s := requested[i];
    var k := KeyOf(s);
    if k in stored then Agrees(stored[k].usage, stored[k].spec, s)
    else if FirstOfKey(requested, i) then s.spec != ""
    else forall j :: 0 <= j < i && KeyOf(requested[j]) == k && FirstOfKey(requested, j) ==> Agrees(requested[j].usage, requested[j].spec, s)
  }

  // Nothing to store and nothing to compare with, or a clash.
  function Reason(stored: map<Key, Stored>, requested: seq<Schema>, i: nat): Refusal
    requires i < |requested|
  {
    if KeyOf(requested[i]) !in stored && FirstOfKey(requested, i) then SpecMissing else Mismatch
  }

  // kept holds what was stored and, under each new key, the first of the
  // request.
  predicate StoredFirst(stored: map<Key, Stored>, requested: seq<Schema>, kept: map<Key, Stored>) {
    && (forall k :: k in kept ==> k in stored || exists j :: 0 <= j < |requested| && KeyOf(requested[j]) == k)
    && (forall k :: k in stored ==> k in kept && kept[k] == stored[k])
    && (forall j :: 0 <= j < |requested| && KeyOf(requested[j]) !in stored && FirstOfKey(requested, j) ==>
          KeyOf(requested[j]) in kept && kept[KeyOf(requested[j])] == Stored(requested[j].spec, requested[j].usage))
  }

  lemma {:induction false} FindFirst(requested: seq<Schema>, i: nat) returns (j: nat)
    requires i < |requested|
    ensures j <= i && KeyOf(requested[j]) == KeyOf(requested[i]) && FirstOfKey(requested, j)
  {
    if FirstOfKey(requested, i) {
      j := i;
    } else {
      var l :| 0 <= l < i && KeyOf(requested[l]) == KeyOf(requested[i]);
      j := FindFirst(requested, l);
    }
  }

  lemma FirstInPrefix(before: seq<Schema>, s: Schema, j: nat)
    requires j < |before|
    ensures (before + [s])[j] == before[j] && (FirstOfKey(before + [s], j) <==> FirstOfKey(before, j))
  {
    assert forall i :: 0 <= i <= j ==> (before + [s])[i] == before[i];
  }

  // One more schema, when those before it have been kept.
  lemma NextKept(stored: map<Key, Stored>, before: seq<Schema>, s: Schema, kept: map<Key, Stored>)
    requires StoredFirst(stored, before, kept)
    ensures var all := before + [s];
      if Storable(stored, all, |before|) then EnsureOne(kept, s).Kept? && StoredFirst(stored, all, EnsureOne(kept, s).schemas)
      else EnsureOne(kept, s) == Refused(Reason(stored, all, |before|))
  {
    var all := before + [s];
    assert all[|before|] == s;
    forall j | 0 <= j < |before| ensures all[j] == before[j] && (FirstOfKey(all, j) <==> FirstOfKey(before, j)) {
      FirstInPrefix(before, s, j);
    }
    if KeyOf(s) !in stored {
      if FirstOfKey(all, |before|) {
        NewKey(stored, before, s, kept);
      } else {
        OldKey(stored, before, s, kept);
      }
    }
    if EnsureOne(kept, s).Kept? {
      forall k | k in EnsureOne(kept, s).schemas ensures k in stored || exists j :: 0 <= j < |all| && KeyOf(all[j]) == k {
        if k in kept && k !in stored {
          var j :| 0 <= j < |before| && KeyOf(before[j]) == k;
          assert KeyOf(all[j]) == k;
        } else if k !in kept {
          assert KeyOf(all[|before|]) == k;
        }
      }
    }
  }

  lemma NewKey(stored: map<Key, Stored>, before: seq<Schema>, s: Schema, kept: map<Key, Stored>)
    requires StoredFirst(stored, before, kept) && KeyOf(s) !in stored && FirstOfKey(before + [s], |before|)
    ensures KeyOf(s) !in kept
  {
    var all := before + [s];
    assert forall j :: 0 <= j < |before| ==> all[j] == before[j] && KeyOf(all[j]) != KeyOf(all[|before|]);
  }

  lemma OldKey(stored: map<Key, Stored>, before: seq<Schema>, s: Schema, kept: map<Key, Stored>)
    requires StoredFirst(stored, before, kept) && KeyOf(s) !in stored && !FirstOfKey(before + [s], |before|)
    ensures KeyOf(s) in kept
    ensures Storable(stored, before + [s], |before|) <==> Agrees(kept[KeyOf(s)].usage, kept[KeyOf(s)].spec, s)
  {
    var all := before + [s];
    var l :| 0 <= l < |before| && KeyOf(all[l]) == KeyOf(s);
    assert all[l] == before[l];
    var j := FindFirst(before, l);
    FirstInPrefix(before, s, j);
    assert KeyOf(before[j]) == KeyOf(s) && kept[KeyOf(s)] == Stored(before[j].spec, before[j].usage);
    forall i | 0 <= i < |before| && KeyOf(all[i]) == KeyOf(s) && FirstOfKey(all, i) ensures i == j {
      FirstInPrefix(before, s, i);
    }
  }

  // The first schema that may not be stored, if any.
  ghost predicate FirstRefused(stored: map<Key, Stored>, requested: seq<Schema>, i: int) {
    && 0 <= i < |requested| && !Storable(stored, requested, i)
    && forall j :: 0 <= j < i ==> Storable(stored, requested, j)
  }

  lemma StorableInPrefix(stored: map<Key, Stored>, before: seq<Schema>, s: Schema, j: nat)
    requires j < |before|
    ensures Storable(stored, before + [s], j) <==> Storable(stored, before, j)
    ensures Reason(stored, before + [s], j) == Reason(stored, before, j)
  {
    var all := before + [s];
    forall i | 0 <= i <= j ensures all[i] == before[i] && (FirstOfKey(all, i) <==> FirstOfKey(before, i)) {
      FirstInPrefix(before, s, i);
    }
  }

  /** A request is kept exactly if each of its schemas may be stored; otherwise
      it is refused for the first that may not, and for its reason. */
  lemma {:induction false} KeptIff(stored: map<Key, Stored>, requested: seq<Schema>)
    ensures EnsureAll(stored, requested).Kept? <==> forall i :: 0 <= i < |requested| ==> Storable(stored, requested, i)
    ensures EnsureAll(stored, requested).Kept? ==> StoredFirst(stored, requested, EnsureAll(stored, requested).schemas)
    ensures forall i :: FirstRefused(stored, requested, i) ==> EnsureAll(stored, requested) == Refused(Reason(stored, requested, i))
    decreases |requested|
  {
    if requested != [] {
      var before, last := requested[..|requested| - 1], requested[|requested| - 1];
      assert requested == before + [last];
      KeptIff(stored, before);
      forall j | 0 <= j < |before|
        ensures Storable(stored, requested, j) <==> Storable(stored, before, j)
        ensures Reason(stored, requested, j) == Reason(stored, before, j)
      {
        StorableInPrefix(stored, before, last, j);
      }
      if EnsureAll(stored, before).Kept? {
        NextKept(stored, before, last, EnsureAll(stored, before).schemas);
      } else {
        forall i | FirstRefused(stored, requested, i) ensures FirstRefused(stored, before, i) {
        }
      }
    }
  }
}
