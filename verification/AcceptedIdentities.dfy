/** Which identities are unambiguous among the lists the service accepts: those
    without empty names or versions and without a name listed twice. */
module AcceptedIdentities {
  import opened ConfigModel
  import opened IdentityHash
  import ConfigService

  predicate Listable(keys: seq<Key>) {
    && NulFree(keys)
    && (forall i :: 0 <= i < |keys| ==> keys[i].name != "" && keys[i].version != "")
    && (forall i, j :: 0 <= i < j < |keys| ==> keys[i].name != keys[j].name)
  }

  function Whole(k: Key): string {
    k.name + ['@'] + k.version
  }

  // An '@' that could just as well be the separator.
  predicate OtherSplit(k: Key, i: int) {
    0 < i < |Whole(k)| - 1 && Whole(k)[i] == '@' && i != |k.name|
  }

  // Read at its other '@', a key would take a name that is in use; if the '@'
  // is in its version, only the key it would turn into may have that name.
  ghost predicate Pinned(keys: seq<Key>) {
    forall k, i :: k in keys && OtherSplit(k, i) ==>
      if i < |k.name| then NameInUse(keys, Whole(k)[..i]) else Shifted(k, i) in keys
  }

  predicate NameInUse(keys: seq<Key>, name: string) {
    exists m :: m in keys && m.name == name
  }

  ghost predicate UnambiguousAmongAccepted(keys: seq<Key>) {
    forall other: seq<Key> :: Listable(other) && Identity(other) == Identity(keys) ==> multiset(other) == multiset(keys)
  }

  lemma SameWhole(a: Key, b: Key)
    ensures Part(a) == Part(b) <==> Whole(a) == Whole(b)
  {
    assert Part(a) == "schema:" + Whole(a) && Part(b) == "schema:" + Whole(b);
    assert Part(a)[7..] == Whole(a) && Part(b)[7..] == Whole(b);
  }

  // Two keys with the same part differ in where the separator stands.
  lemma SplitAt(a: Key, b: Key)
    requires Part(a) == Part(b) && b.name != "" && b.version != ""
    ensures a != b ==> OtherSplit(a, |b.name|)
    ensures b.name == Whole(a)[..|b.name|] && |b.name| < |Whole(a)| && Shifted(a, |b.name|) == b
  {
    SameWhole(a, b);
    assert Whole(b)[|b.name|] == '@' && Whole(b)[..|b.name|] == b.name && Whole(b)[|b.name| + 1..] == b.version;
    if |a.name| == |b.name| {
      assert Whole(a)[..|a.name|] == a.name && Whole(a)[|a.name| + 1..] == a.version;
    }
  }

  // ----- Pinned lists are unambiguous -----

  function WithPart(keys: seq<Key>, p: string): set<Key> {
    set k | k in keys && Part(k) == p
  }

  lemma {:induction false} CountPart(keys: seq<Key>, p: string)
    requires forall i, j :: 0 <= i < j < |keys| ==> keys[i] != keys[j]
    ensures |WithPart(keys, p)| == multiset(Parts(keys))[p]
    decreases |keys|
  {
    if keys == [] {
      assert Parts(keys) == [];
    } else {
      var before, last := keys[..|keys| - 1], keys[|keys| - 1];
      CountPart(before, p);
      assert Parts(keys) == Parts(before) + [Part(last)];
      WithPartGrows(before, last, p);
      assert keys == before + [last];
    }
  }

  lemma WithPartGrows(before: seq<Key>, last: Key, p: string)
    requires last !in before
    ensures |WithPart(before + [last], p)| == |WithPart(before, p)| + if Part(last) == p then 1 else 0
  {
    assert WithPart(before + [last], p) == WithPart(before, p) + if Part(last) == p then {last} else {};
    assert last !in WithPart(before, p);
  }

  lemma Missing(a: set<Key>, b: set<Key>, x: Key) returns (y: Key)
    requires |a| == |b| && x in a && x !in b
    ensures y in b && y !in a
  {
    if b <= a {
      assert b <= a - {x};
      Smaller(b, a - {x});
    }
    y :| y in b && y !in a;
  }

  lemma {:induction false} Smaller(a: set<Key>, b: set<Key>)
    requires a <= b
    ensures |a| <= |b|
  {
    assert b == a + (b - a);
  }

  lemma PartAmong(keys: seq<Key>, other: seq<Key>, o: Key) returns (k: Key)
    requires multiset(Parts(keys)) == multiset(Parts(other)) && o in other
    ensures k in keys && Part(k) == Part(o)
  {
    var i :| 0 <= i < |other| && other[i] == o;
    assert Parts(other)[i] in multiset(Parts(keys));
    var j :| 0 <= j < |keys| && Parts(keys)[j] == Parts(other)[i];
    k := keys[j];
  }

  // A key of other that is not listed leads to another one with a shorter name.
  lemma {:induction false} AllListed(keys: seq<Key>, other: seq<Key>, o: Key)
    requires Listable(keys) && Pinned(keys) && Listable(other) && multiset(Parts(keys)) == multiset(Parts(other))
    requires o in other
    ensures o in keys
    decreases |o.name|
  {
    if o !in keys {
      var k := PartAmong(keys, other, o);
      SplitAt(k, o);
      assert NameInUse(keys, o.name);
      var m :| m in keys && m.name == o.name;
      assert m !in other;
      CountPart(keys, Part(m));
      CountPart(other, Part(m));
      var o' := Missing(WithPart(keys, Part(m)), WithPart(other, Part(m)), m);
      SplitAt(m, o');
      AllListed(keys, other, o');
    }
  }

  lemma {:induction false} OnceEach(keys: seq<Key>, k: Key)
    requires forall i, j :: 0 <= i < j < |keys| ==> keys[i] != keys[j]
    ensures multiset(keys)[k] == if k in keys then 1 else 0
    decreases |keys|
  {
    if keys != [] {
      var before, last := keys[..|keys| - 1], keys[|keys| - 1];
      OnceEach(before, k);
      assert keys == before + [last];
    }
  }

  lemma PinnedUnambiguous(keys: seq<Key>, other: seq<Key>)
    requires Listable(keys) && Pinned(keys) && Listable(other) && Identity(other) == Identity(keys)
    ensures multiset(other) == multiset(keys)
  {
    SameIdentitySameParts(keys, other);
    forall k ensures multiset(other)[k] <= multiset(keys)[k] {
      OnceEach(other, k);
      OnceEach(keys, k);
      if k in other {
        AllListed(keys, other, k);
      }
    }
    assert |Parts(keys)| == |multiset(Parts(keys))| == |multiset(Parts(other))| == |Parts(other)|;
    SameSize(multiset(other), multiset(keys));
  }

  lemma SameSize(a: multiset<Key>, b: multiset<Key>)
    requires |a| == |b| && forall k :: a[k] <= b[k]
    ensures a == b
  {
    assert b == a + (b - a);
    assert |b - a| == 0;
  }

  // ----- Others are not -----

  // Moving the separator of one key to a name nobody has.
  lemma ShiftOne(keys: seq<Key>, j: nat, i: nat)
    requires Listable(keys) && j < |keys| && OtherSplit(keys[j], i)
    requires !NameInUse(keys, Whole(keys[j])[..i])
    ensures !UnambiguousAmongAccepted(keys)
  {
    var k' := Shifted(keys[j], i);
    ShiftedCollides(keys, j, i);
    RenamedListable(keys, j, k');
  }

  lemma RenamedListable(keys: seq<Key>, j: nat, k': Key)
    requires Listable(keys) && j < |keys| && NulFree(keys[j := k'])
    requires k'.name != "" && k'.version != "" && !NameInUse(keys, k'.name)
    ensures Listable(keys[j := k'])
  {
    forall i | 0 <= i < |keys| ensures keys[i].name != k'.name {
      assert keys[i] in keys;
    }
  }

  // Two keys swapping names: k moves its separator right to m's name, m moves
  // its own left to k's.
  lemma Swap(keys: seq<Key>, j: nat, l: nat, i: nat)
    requires Listable(keys) && j < |keys| && l < |keys| && OtherSplit(keys[j], i) && i > |keys[j].name|
    requires keys[l].name == Whole(keys[j])[..i] && Whole(keys[l]) != Whole(keys[j])
    ensures !UnambiguousAmongAccepted(keys)
  {
    var k, m := keys[j], keys[l];
    NestedNames(k, m, i);
    var k', m' := Shifted(k, i), Shifted(m, |k.name|);
    SameWhole(k, k');
    SameWhole(m, m');
    var other := keys[j := k'][l := m'];
    assert Parts(other) == Parts(keys);
    SwapListable(keys, j, l, k', m');
    assert k !in other;
    assert k in multiset(keys) && k !in multiset(other);
  }

  // m's name begins with k's and an '@'.
  lemma NestedNames(k: Key, m: Key, i: nat)
    requires OtherSplit(k, i) && i > |k.name| && m.name == Whole(k)[..i] && m.version != "" && Whole(m) != Whole(k)
    ensures |k.name| < |Whole(m)|
    ensures var k', m' := Shifted(k, i), Shifted(m, |k.name|);
      && k'.name == m.name && m'.name == k.name && k'.version != "" && m'.version != ""
      && Whole(k') == Whole(k) && Whole(m') == Whole(m) && k' != k && m' != k
  {
    assert m.name[|k.name|] == '@' && m.name[..|k.name|] == k.name;
  }

  lemma SwapListable(keys: seq<Key>, j: nat, l: nat, k': Key, m': Key)
    requires Listable(keys) && j < |keys| && l < |keys| && j != l
    requires k'.name == keys[l].name && m'.name == keys[j].name && k'.version != "" && m'.version != ""
    requires Whole(k') == Whole(keys[j]) && Whole(m') == Whole(keys[l])
    ensures Listable(keys[j := k'][l := m'])
  {
    PartsOfWhole(keys[j], k');
    PartsOfWhole(keys[l], m');
  }

  lemma PartsOfWhole(k: Key, k': Key)
    requires Free(k.name, NUL) && Free(k.version, NUL) && Whole(k') == Whole(k)
    ensures Free(k'.name, NUL) && Free(k'.version, NUL)
  {
    assert Free(Whole(k), NUL);
    assert forall i :: 0 <= i < |k'.name| ==> k'.name[i] == Whole(k')[i];
    assert forall i :: 0 <= i < |k'.version| ==> k'.version[i] == Whole(k')[|k'.name| + 1 + i];
  }

  /** Among accepted lists, a list's identity belongs to it alone exactly when
      every other '@' in it is pinned: one in a name because the name before it
      is taken, one in a version because the key it would make is listed. */
  lemma UnambiguousIffPinned(keys: seq<Key>)
    requires Listable(keys)
    ensures UnambiguousAmongAccepted(keys) <==> Pinned(keys)
  {
    if Pinned(keys) {
      forall other: seq<Key> | Listable(other) && Identity(other) == Identity(keys) ensures multiset(other) == multiset(keys) {
        PinnedUnambiguous(keys, other);
      }
    } else {
      var k, i :| k in keys && OtherSplit(k, i)
        && !(if i < |k.name| then NameInUse(keys, Whole(k)[..i]) else Shifted(k, i) in keys);
      var j :| 0 <= j < |keys| && keys[j] == k;
      if NameInUse(keys, Whole(k)[..i]) {
        var m :| m in keys && m.name == Whole(k)[..i];
        var l :| 0 <= l < |keys| && keys[l] == m;
        if Whole(m) == Whole(k) {
          SameWhole(k, m);
          SplitAt(k, m);
          assert false;
        }
        Swap(keys, j, l, i);
      } else {
        ShiftOne(keys, j, i);
      }
    }
  }

  // ----- Requests -----

  lemma AcceptedIsListable(requested: seq<Schema>)
    requires ConfigService.WellFormed(requested) && NulFree(Keys(requested))
    ensures Listable(Keys(requested))
  {
  }

  // In terms of requests the service accepts.
  lemma AcceptedIsUnambiguousIff(requested: seq<Schema>)
    requires ConfigService.WellFormed(requested) && NulFree(Keys(requested))
    ensures UnambiguousAmongAccepted(Keys(requested)) <==> Pinned(Keys(requested))
  {
    AcceptedIsListable(requested);
    UnambiguousIffPinned(Keys(requested));
  }

  const LEFT := Schema("a@b", "c", "x", Settings)
  const RIGHT := Schema("a", "b@c", "x", Settings)

  /** Two accepted requests for different schemas that have one identity: the
      second to be registered gets the generation of the first. */
  lemma OneIdentityForTwo()
    ensures ConfigService.WellFormed([LEFT]) && ConfigService.WellFormed([RIGHT])
    ensures Identity(Keys([LEFT])) == Identity(Keys([RIGHT])) && multiset(Keys([LEFT])) != multiset(Keys([RIGHT]))
    ensures !Pinned(Keys([LEFT])) && !Pinned(Keys([RIGHT]))
  {
    var left, right := Key("a@b", "c"), Key("a", "b@c");
    assert Keys([LEFT]) == [left] && Keys([RIGHT]) == [right];
    SameParts(left, right);
    assert multiset([left])[right] == 0 && multiset([right])[right] == 1;
    AcceptedIsUnambiguousIff([LEFT]);
    AcceptedIsUnambiguousIff([RIGHT]);
    AcceptedIsListable([LEFT]);
    AcceptedIsListable([RIGHT]);
  }

  lemma SameParts(left: Key, right: Key)
    requires left == Key("a@b", "c") && right == Key("a", "b@c")
    ensures Identity([left]) == Identity([right]) && NulFree([left]) && NulFree([right])
  {
    assert Whole(left) == "a@b@c" == Whole(right);
    SameWhole(left, right);
    assert Parts([left]) == Parts([right]);
  }
}
