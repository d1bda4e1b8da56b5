/** When the order of equal keys matters to SetProperties. The sort may leave
    updates of one key in either order, and the last one wins. */
module PropertyOrder {
  import opened Basics
  import opened Sorting
  import opened StoreModel
  import opened Alone
  import opened PGStoreMethods

  function RowOf(owner: string, u: PropertyUpdate): RowId {
    Prop(owner, u.application, u.key)
  }

  // No two updates give one key different texts.
  predicate Consistent(updates: seq<PropertyUpdate>) {
    forall u, v :: u in updates && v in updates && u.application == v.application && u.key == v.key ==> u.text == v.text
  }

  // What the sort may turn the updates into.
  ghost predicate Arranged(owner: string, updates: seq<PropertyUpdate>, sorted: seq<PropertyUpdate>) {
    Sorted(sorted, UpdateLess(owner)) && multiset(sorted) == multiset(updates)
  }

  // Whatever arrangement the sort picks, the rows come out the same.
  ghost predicate OrderIsImmaterial(rows: map<RowId, Row>, owner: string, updates: seq<PropertyUpdate>) {
    forall a, b :: Arranged(owner, updates, a) && Arranged(owner, updates, b) ==> Merged(rows, owner, a) == Merged(rows, owner, b)
  }

  lemma SameMembers(updates: seq<PropertyUpdate>, sorted: seq<PropertyUpdate>)
    requires multiset(sorted) == multiset(updates)
    ensures forall u :: u in sorted <==> u in updates
  {
    assert forall u :: u in sorted <==> u in multiset(sorted);
    assert forall u :: u in updates <==> u in multiset(updates);
  }

  lemma ConsistentMerge(rows: map<RowId, Row>, owner: string, updates: seq<PropertyUpdate>, a: seq<PropertyUpdate>, b: seq<PropertyUpdate>)
    requires Consistent(updates) && multiset(a) == multiset(updates) == multiset(b)
    ensures Merged(rows, owner, a) == Merged(rows, owner, b)
  {
    SameMembers(updates, a);
    SameMembers(updates, b);
    forall r ensures Get(Merged(rows, owner, a), r) == Get(Merged(rows, owner, b), r) {
      var u := MergedGet(rows, owner, a, r);
      var v := MergedGet(rows, owner, b, r);
      if u.Some? {
        assert RowOf(owner, u.value) == r;
      }
    }
    SameGets(Merged(rows, owner, a), Merged(rows, owner, b));
  }

  lemma SameGets(a: map<RowId, Row>, b: map<RowId, Row>)
    requires forall r :: Get(a, r) == Get(b, r)
    ensures a == b
  {
    forall r ensures r in a <==> r in b {
      assert Get(a, r) == Get(b, r);
    }
    forall r | r in a ensures a[r] == b[r] {
      assert Get(a, r) == Get(b, r);
    }
  }

  // ----- An arrangement with a given update last of its key -----

  // Inserting puts an element after those it does not precede.
  lemma {:induction false} InsertedBeforeGreater(owner: string, items: seq<PropertyUpdate>, x: PropertyUpdate) returns (i: nat)
    requires Sorted(items, UpdateLess(owner))
    ensures i <= |items| && Insert(items, x, UpdateLess(owner)) == items[..i] + [x] + items[i..]
    ensures forall j :: i <= j < |items| ==> RowOf(owner, items[j]) != RowOf(owner, x)
    decreases |items|
  {
    var less := UpdateLess(owner);
    if items == [] {
      i := 0;
    } else if less(x, items[0]) {
      i := 0;
      forall j | 0 <= j < |items| ensures RowOf(owner, items[j]) != RowOf(owner, x) {
        LessIsStrict(owner);
        assert less(x, items[0]) && !less(items[j], items[0]);
      }
    } else {
      var k := InsertedBeforeGreater(owner, items[1..], x);
      i := k + 1;
      assert items[..i] == [items[0]] + items[1..][..k] && items[i..] == items[1..][k..];
    }
  }

  lemma {:induction false} LastWins(rows: map<RowId, Row>, owner: string, before: seq<PropertyUpdate>, x: PropertyUpdate, after: seq<PropertyUpdate>)
    requires forall j :: 0 <= j < |after| ==> RowOf(owner, after[j]) != RowOf(owner, x)
    ensures Get(Merged(rows, owner, before + [x] + after), RowOf(owner, x)) == Some(PropertyRow(x.text))
    decreases |after|
  {
    var all := before + [x] + after;
    if after == [] {
      assert all[..|all| - 1] == before && all[|all| - 1] == x;
    } else {
      var rest := after[..|after| - 1];
      assert all[..|all| - 1] == before + [x] + rest && all[|all| - 1] == after[|after| - 1];
      LastWins(rows, owner, before, x, rest);
    }
  }

  lemma WithLast(rows: map<RowId, Row>, owner: string, updates: seq<PropertyUpdate>, x: PropertyUpdate) returns (sorted: seq<PropertyUpdate>)
    requires x in updates
    ensures Arranged(owner, updates, sorted)
    ensures Get(Merged(rows, owner, sorted), RowOf(owner, x)) == Some(PropertyRow(x.text))
  {
    var less := UpdateLess(owner);
    var i :| 0 <= i < |updates| && updates[i] == x;
    var rest := updates[..i] + updates[i + 1..];
    assert updates == updates[..i] + [x] + updates[i + 1..];
    LessIsStrict(owner);
    SortSorts(rest, less);
    InsertSorted(Sort(rest, less), x, less);
    InsertMembers(Sort(rest, less), x, less);
    sorted := Insert(Sort(rest, less), x, less);
    var k := InsertedBeforeGreater(owner, Sort(rest, less), x);
    LastWins(rows, owner, Sort(rest, less)[..k], x, Sort(rest, less)[k..]);
  }

  /** Which of the orders the sort may leave does not matter exactly if no two
      updates of one key differ. */
  lemma OrderIsImmaterialIff(rows: map<RowId, Row>, owner: string, updates: seq<PropertyUpdate>)
    ensures OrderIsImmaterial(rows, owner, updates) <==> Consistent(updates)
  {
    if Consistent(updates) {
      forall a, b | Arranged(owner, updates, a) && Arranged(owner, updates, b) ensures Merged(rows, owner, a) == Merged(rows, owner, b) {
        ConsistentMerge(rows, owner, updates, a, b);
      }
    } else {
      var u, v :| u in updates && v in updates && u.application == v.application && u.key == v.key && u.text != v.text;
      var a := WithLast(rows, owner, updates, u);
      var b := WithLast(rows, owner, updates, v);
      assert RowOf(owner, u) == RowOf(owner, v);
    }
  }
}
