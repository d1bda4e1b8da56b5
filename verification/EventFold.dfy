/** The eventlog read as a description of the tables: which resources exist
    and at what version. */
module EventFold {
  import opened Basics
  import opened StoreModel

  // Existence and version of a resource, as its row has it.
  function RowVersion(row: Option<Row>): Option<int> {
    if row.Some? then Some(Number(row)) else None
  }

  // The same after one more event: an update leaves the version it logged (0
  // for a property, which has none), a delete leaves nothing.
  function Apply(v: Option<int>, e: Event, r: RowId): Option<int> {
    if e.resource != r then v
    else if e.kind.Delete? then None
    else Some(if e.version.Some? then e.version.value else 0)
  }

  function Fold(v: Option<int>, events: seq<Event>, r: RowId): Option<int> {
    if events == [] then v
    else Apply(Fold(v, events[..|events| - 1], r), events[|events| - 1], r)
  }

  // What an event may say about a resource that stands at v: only what exists
  // is deleted, and a document's versions count up from one.
  predicate Fits(v: Option<int>, e: Event) {
    match e.kind
    case Delete => v.Some? && e.version.None?
    case Update => if e.resource.Doc? then e.version == Some(if v.Some? then v.value + 1 else 1) else e.version.None?
  }

  predicate Legal(v: Option<int>, events: seq<Event>, r: RowId) {
    events == [] ||
    (var before, last := events[..|events| - 1], events[|events| - 1];
     Legal(v, before, r) && (last.resource == r ==> Fits(Fold(v, before, r), last)))
  }

  predicate Mentions(events: seq<Event>, r: RowId) {
    exists i :: 0 <= i < |events| && events[i].resource == r
  }

  lemma FoldOne(v: Option<int>, events: seq<Event>, e: Event, r: RowId)
    ensures Fold(v, events + [e], r) == Apply(Fold(v, events, r), e, r)
    ensures Legal(v, events + [e], r) <==> Legal(v, events, r) && (e.resource == r ==> Fits(Fold(v, events, r), e))
  {
    assert (events + [e])[..|events|] == events;
  }

  lemma {:induction false} FoldJoin(v: Option<int>, a: seq<Event>, b: seq<Event>, r: RowId)
    ensures Fold(v, a + b, r) == Fold(Fold(v, a, r), b, r)
    ensures Legal(v, a + b, r) <==> Legal(v, a, r) && Legal(Fold(v, a, r), b, r)
    decreases |b|
  {
    if b == [] {
      assert a + b == a;
    } else {
      var before, last := b[..|b| - 1], b[|b| - 1];
      FoldJoin(v, a, before, r);
      FoldOne(v, a + before, last, r);
      assert a + b == (a + before) + [last];
    }
  }

  lemma {:induction false} FoldUnmentioned(v: Option<int>, events: seq<Event>, r: RowId)
    requires !Mentions(events, r)
    ensures Fold(v, events, r) == v && Legal(v, events, r)
    decreases |events|
  {
    if events != [] {
      var before := events[..|events| - 1];
      assert !Mentions(before, r) by {
        assert forall i :: 0 <= i < |before| ==> before[i] == events[i];
      }
      FoldUnmentioned(v, before, r);
      assert events[|events| - 1].resource != r;
    }
  }

  predicate InBlock(first: int, length: int, id: int) {
    first <= id < first + length
  }

  // Events under consecutive ids.
  function Block(first: int, events: seq<Event>): map<int, Event> {
    map id | first <= id < first + |events| && InBlock(first, |events|, id) :: events[id - first]
  }

  function Flatten(blocks: seq<seq<Event>>): seq<Event> {
    if blocks == [] then []
    else Flatten(blocks[..|blocks| - 1]) + blocks[|blocks| - 1]
  }

  lemma FlattenOne(blocks: seq<seq<Event>>, events: seq<Event>)
    ensures Flatten(blocks + [events]) == Flatten(blocks) + events
  {
    assert (blocks + [events])[..|blocks|] == blocks;
  }

  lemma BlockJoin(first: int, a: seq<Event>, b: seq<Event>)
    ensures Block(first, a + b) == Block(first, a) + Block(first + |a|, b)
  {
  }

  lemma BlockGrows(first: int, events: seq<Event>, i: nat)
    requires i < |events|
    ensures Block(first, events[..i])[first + i := events[i]] == Block(first, events[..i + 1])
  {
    assert events[..i + 1] == events[..i] + [events[i]];
    BlockJoin(first, events[..i], [events[i]]);
    assert Block(first + i, [events[i]]) == map[first + i := events[i]];
  }
}
