/** The identity of a schema set: what is hashed says exactly which (name,
    version) pairs are in it, in no particular order. SHA-256 is taken to be
    injective, so the digest is represented by the bytes that go into it. */
module IdentityHash {
  import opened Basics
  import opened ConfigModel
  import Sorting

  const NUL: char := '\0'

  predicate Free(s: string, c: char) {
    forall i :: 0 <= i < |s| ==> s[i] != c
  }

  // "schema:<name>@<version>"
  function Part(k: Key): string {
    "schema:" + k.name + "@" + k.version
  }

  function Parts(keys: seq<Key>): seq<string> {
    seq(|keys|, i requires 0 <= i < |keys| => Part(keys[i]))
  }

  predicate Ascending(parts: seq<string>) {
    Sorting.Sorted(parts, TextLess)
  }

  // Every part followed by a zero byte.
  function Written(parts: seq<string>): string {
    if parts == [] then "" else parts[0] + [NUL] + Written(parts[1..])
  }

  // ----- Sorting -----

  // slices.Sort on strings.
  function Sort(parts: seq<string>): seq<string> {
    Sorting.Sort(parts, TextLess)
  }

  lemma TextOrder()
    ensures Sorting.StrictOrder(TextLess)
    ensures forall a, b :: TextLess(a, b) || TextLess(b, a) || a == b
  {
    forall a ensures !TextLess(a, a) {
      TextLessIrreflexive(a);
    }
    forall a, b, c | TextLess(a, b) && TextLess(b, c) ensures TextLess(a, c) {
      TextLessTransitive(a, b, c);
    }
    forall a, b ensures TextLess(a, b) || TextLess(b, a) || a == b {
      TextLessTotal(a, b);
    }
  }

  lemma SortSorts(parts: seq<string>)
    ensures Ascending(Sort(parts))
    ensures multiset(Sort(parts)) == multiset(parts)
  {
    TextOrder();
    Sorting.SortSorts(parts, TextLess);
  }

  // A sorted list is determined by its members.
  lemma SortedOnce(a: seq<string>, b: seq<string>)
    requires Ascending(a) && Ascending(b) && multiset(a) == multiset(b)
    ensures a == b
  {
    TextOrder();
    Sorting.SortedOnce(a, b, TextLess);
  }

  // ----- Reading back what was written -----

  lemma {:induction false} WrittenOnce(a: seq<string>, b: seq<string>)
    requires forall i :: 0 <= i < |a| ==> Free(a[i], NUL)
    requires forall i :: 0 <= i < |b| ==> Free(b[i], NUL)
    requires Written(a) == Written(b)
    ensures a == b
    decreases |a|
  {
    if a != [] && b != [] {
      SplitOnce(a[0], Written(a[1..]), b[0], Written(b[1..]), NUL);
      WrittenOnce(a[1..], b[1..]);
      assert a == [a[0]] + a[1..] && b == [b[0]] + b[1..];
    }
  }

  // The first separator ends the first piece.
  lemma SplitOnce(p: string, x: string, q: string, y: string, c: char)
    requires Free(p, c) && Free(q, c)
    requires p + [c] + x == q + [c] + y
    ensures p == q && x == y
  {
    var w := p + [c] + x;
    assert w[|p|] == c && w[|q|] == c;
    assert forall i :: 0 <= i < |p| ==> p[i] == w[i];
    assert forall i :: 0 <= i < |q| ==> q[i] == w[i];
    assert |p| == |q|;
    assert p == w[..|p|] && q == w[..|q|];
    assert x == w[|p| + 1..] && y == w[|q| + 1..];
  }

  lemma PartOnce(a: Key, b: Key)
    requires Free(a.name, '@') && Free(b.name, '@') && Part(a) == Part(b)
    ensures a == b
  {
    assert Part(a)[7..] == a.name + ['@'] + a.version;
    assert Part(b)[7..] == b.name + ['@'] + b.version;
    SplitOnce(a.name, a.version, b.name, b.version, '@');
  }

  // configGenerationIdentityHash, before the digest.
  function Identity(keys: seq<Key>): string {
    Written(Sort(Parts(keys)))
  }

  method ConfigGenerationIdentityHash(schemas: seq<Schema>) returns (hashed: string)
    ensures hashed == Identity(Keys(schemas))
  {
    ghost var keys := Keys(schemas);
    var parts: seq<string> := [];
    var i := 0;
    while i < |schemas|
      invariant 0 <= i <= |schemas|
      invariant parts == Parts(keys)[..i]
    {
      parts := parts + ["schema:" + schemas[i].name + "@" + schemas[i].version];
      i := i + 1;
    }
    assert parts == Parts(keys);
    parts := Sort(parts);
    hashed := "";
    i := 0;
    while i < |parts|
      invariant 0 <= i <= |parts|
      invariant hashed + Written(parts[i..]) == Written(parts)
    {
      assert parts[i..][1..] == parts[i + 1..];
      assert hashed + (parts[i] + [NUL] + Written(parts[i + 1..])) == hashed + parts[i] + [NUL] + Written(parts[i + 1..]);
      hashed := hashed + parts[i] + [NUL];
      i := i + 1;
    }
    assert hashed + Written([]) == hashed;
  }

  // Text columns cannot hold a zero byte; names are expected not to hold '@'.
  predicate Clean(keys: seq<Key>) {
    forall i :: 0 <= i < |keys| ==> Free(keys[i].name, '@') && Free(keys[i].name, NUL) && Free(keys[i].version, NUL)
  }

  // Counting parts counts keys.
  lemma {:induction false} PartCount(keys: seq<Key>, k: Key)
    requires Clean(keys) && Clean([k])
    ensures multiset(Parts(keys))[Part(k)] == multiset(keys)[k]
    decreases |keys|
  {
    if keys == [] {
      assert Parts(keys) == [];
    } else {
      var before, last := keys[..|keys| - 1], keys[|keys| - 1];
      PartCount(before, k);
      assert keys == before + [last];
      assert Parts(keys) == Parts(before) + [Part(last)];
      assert [k][0] == k;
      if Part(last) == Part(k) {
        PartOnce(last, k);
      }
    }
  }

  /** Two schema lists have the same identity exactly when they list the same
      (name, version) pairs, in whatever order. */
  lemma SameIdentityIffSameSet(a: seq<Key>, b: seq<Key>)
    requires Clean(a) && Clean(b)
    ensures Identity(a) == Identity(b) <==> multiset(a) == multiset(b)
  {
    if Identity(a) == Identity(b) {
      SameIdentitySameParts(a, b);
      forall k | k in a || k in b ensures multiset(a)[k] == multiset(b)[k] {
        PartCount(a, k);
        PartCount(b, k);
      }
    }
    if multiset(a) == multiset(b) {
      SameSetSameIdentity(a, b);
    }
  }

  // Taking one key out of a list takes its part out of the parts.
  lemma WithoutOne(keys: seq<Key>, j: nat)
    requires j < |keys|
    ensures var rest := keys[..j] + keys[j + 1..];
      && multiset(keys) == multiset(rest) + multiset{keys[j]}
      && multiset(Parts(keys)) == multiset(Parts(rest)) + multiset{Part(keys[j])}
  {
    assert keys == keys[..j] + [keys[j]] + keys[j + 1..];
    assert Parts(keys) == Parts(keys[..j]) + [Part(keys[j])] + Parts(keys[j + 1..]);
    assert Parts(keys[..j] + keys[j + 1..]) == Parts(keys[..j]) + Parts(keys[j + 1..]);
  }

  // Permuting keys permutes parts, '@' or not.
  lemma {:induction false} SamePartsFromSameKeys(a: seq<Key>, b: seq<Key>)
    requires multiset(a) == multiset(b)
    ensures multiset(Parts(a)) == multiset(Parts(b))
    decreases |a|
  {
    assert |multiset(a)| == |a| && |multiset(b)| == |b|;
    if a == [] {
      assert Parts(a) == Parts(b);
    } else {
      assert a[0] in multiset(b);
      var j :| 0 <= j < |b| && b[j] == a[0];
      WithoutOne(a, 0);
      WithoutOne(b, j);
      var rest, other := a[..0] + a[0 + 1..], b[..j] + b[j + 1..];
      assert multiset(rest) == multiset(a) - multiset{a[0]};
      assert multiset(other) == multiset(b) - multiset{a[0]};
      SamePartsFromSameKeys(rest, other);
    }
  }

  // Order does not matter, whatever the names hold.
  lemma SameSetSameIdentity(a: seq<Key>, b: seq<Key>)
    requires multiset(a) == multiset(b)
    ensures Identity(a) == Identity(b)
  {
    SortSorts(Parts(a));
    SortSorts(Parts(b));
    SamePartsFromSameKeys(a, b);
    SortedOnce(Sort(Parts(a)), Sort(Parts(b)));
  }

  // ----- Exactly when an identity is unambiguous -----

  predicate NulFree(keys: seq<Key>) {
    forall i :: 0 <= i < |keys| ==> Free(keys[i].name, NUL) && Free(keys[i].version, NUL)
  }

  predicate NoAtSigns(keys: seq<Key>) {
    forall i :: 0 <= i < |keys| ==> Free(keys[i].name, '@') && Free(keys[i].version, '@')
  }

  // No other set of schemas has the same identity.
  ghost predicate Unambiguous(keys: seq<Key>) {
    forall other: seq<Key> :: NulFree(other) && Identity(other) == Identity(keys) ==> multiset(other) == multiset(keys)
  }

  lemma PartsFree(keys: seq<Key>)
    requires NulFree(keys)
    ensures forall i :: 0 <= i < |Sort(Parts(keys))| ==> Free(Sort(Parts(keys))[i], NUL)
  {
    var parts := Parts(keys);
    SortSorts(parts);
    forall i | 0 <= i < |Sort(parts)| ensures Free(Sort(parts)[i], NUL) {
      assert Sort(parts)[i] in multiset(parts);
      var j :| 0 <= j < |parts| && parts[j] == Sort(parts)[i];
    }
  }

  // A part with a single '@' can only come from a key without any.
  lemma SingleAt(a: Key, b: Key)
    requires Free(a.name, '@') && Free(a.version, '@') && Part(a) == Part(b)
    ensures Free(b.name, '@')
  {
    var w := a.name + ['@'] + a.version;
    assert Part(a)[7..] == w;
    assert Part(b)[7..] == b.name + ['@'] + b.version;
    assert forall i :: 0 <= i < |w| && w[i] == '@' ==> i == |a.name|;
    assert w[|b.name|] == '@';
    assert forall i :: 0 <= i < |b.name| ==> b.name[i] == w[i];
  }

  // What is hashed determines the parts.
  lemma SameIdentitySameParts(a: seq<Key>, b: seq<Key>)
    requires NulFree(a) && NulFree(b) && Identity(a) == Identity(b)
    ensures multiset(Parts(a)) == multiset(Parts(b))
  {
    SortSorts(Parts(a));
    SortSorts(Parts(b));
    PartsFree(a);
    PartsFree(b);
    WrittenOnce(Sort(Parts(a)), Sort(Parts(b)));
  }

  lemma NoAtSignsUnambiguous(keys: seq<Key>, other: seq<Key>)
    requires NulFree(keys) && NoAtSigns(keys) && NulFree(other) && Identity(other) == Identity(keys)
    ensures multiset(other) == multiset(keys)
  {
    SameIdentitySameParts(keys, other);
    forall i | 0 <= i < |other| ensures Free(other[i].name, '@') {
      assert Parts(other)[i] in multiset(Parts(keys));
      var j :| 0 <= j < |keys| && Parts(keys)[j] == Parts(other)[i];
      SingleAt(keys[j], other[i]);
    }
    SameIdentityIffSameSet(keys, other);
  }

  // Moving an '@' across the separator gives another key with the same part.
  function Shifted(k: Key, i: nat): Key
    requires i < |k.name + ['@'] + k.version|
  {
    var w := k.name + ['@'] + k.version;
    Key(w[..i], w[i + 1..])
  }

  lemma ShiftedCollides(keys: seq<Key>, j: nat, i: nat)
    requires j < |keys| && NulFree(keys)
    requires var w := keys[j].name + ['@'] + keys[j].version; i < |w| && w[i] == '@' && i != |keys[j].name|
    ensures var other := keys[j := Shifted(keys[j], i)];
      NulFree(other) && Identity(other) == Identity(keys) && multiset(other) != multiset(keys)
  {
    var k, k' := keys[j], Shifted(keys[j], i);
    var w := k.name + ['@'] + k.version;
    var other := keys[j := k'];
    assert Free(w, NUL);
    assert w == w[..i] + ['@'] + w[i + 1..];
    assert Part(k) == "schema:" + w && Part(k') == "schema:" + w;
    assert Parts(other) == Parts(keys);
    assert k' != k;
    WithoutOne(keys, j);
    WithoutOne(other, j);
    assert other[..j] + other[j + 1..] == keys[..j] + keys[j + 1..];
    var rest := keys[..j] + keys[j + 1..];
    assert multiset(keys)[k] == multiset(rest)[k] + 1;
    assert multiset(other)[k] == multiset(rest)[k];
  }

  /** A set's identity belongs to it alone exactly when none of its names and
      versions contains an '@'. */
  lemma UnambiguousIffNoAtSigns(keys: seq<Key>)
    requires NulFree(keys)
    ensures Unambiguous(keys) <==> NoAtSigns(keys)
  {
    if NoAtSigns(keys) {
      forall other: seq<Key> | NulFree(other) && Identity(other) == Identity(keys) ensures multiset(other) == multiset(keys) {
        NoAtSignsUnambiguous(keys, other);
      }
    } else {
      var j :| 0 <= j < |keys| && !(Free(keys[j].name, '@') && Free(keys[j].version, '@'));
      var w := keys[j].name + ['@'] + keys[j].version;
      var i := AtIndex(keys[j]);
      ShiftedCollides(keys, j, i);
      assert Identity(keys[j := Shifted(keys[j], i)]) == Identity(keys);
    }
  }

  lemma AtIndex(k: Key) returns (i: nat)
    requires !(Free(k.name, '@') && Free(k.version, '@'))
    ensures var w := k.name + ['@'] + k.version; i < |w| && w[i] == '@' && i != |k.name|
  {
    if !Free(k.name, '@') {
      i :| 0 <= i < |k.name| && k.name[i] == '@';
    } else {
      var m :| 0 <= m < |k.version| && k.version[m] == '@';
      i := |k.name| + 1 + m;
    }
  }
}
