/** No deadlock and no wasted work: all transactions take their locks in one
    global order, so open transactions can always be run to their end. */
module StoreProgress {
  import opened Basics
  import opened StoreModel
  import opened EventFold
  import opened StoreInvariant
  import opened StoreSteps

  // ----- The lock order -----

  // User row, then data rows, then a recipient's message number, then a
  // shared counter.
  function Rank(r: RowId): nat {
    match r
    case User(_) => 0
    case Doc(_, _, _, _) => 1
    case Prop(_, _, _) => 2
    case MessageLock(_) => 3
    case ReadState(_, _) => 4
    case Sequence(_) => 5
  }

  predicate Before(a: RowId, b: RowId) {
    Rank(a) < Rank(b) || (a.Prop? && b.Prop? && PropertyBefore(a, b))
  }

  lemma BeforeIrreflexive(a: RowId)
    ensures !Before(a, a)
  {
    if a.Prop? {
      TextLessIrreflexive(a.application);
      TextLessIrreflexive(a.key);
    }
  }

  lemma BeforeTransitive(a: RowId, b: RowId, c: RowId)
    requires Before(a, b) && Before(b, c)
    ensures Before(a, c)
  {
    if a.Prop? && b.Prop? && c.Prop? {
      if TextLess(a.application, b.application) && TextLess(b.application, c.application) {
        TextLessTransitive(a.application, b.application, c.application);
      }
      if TextLess(a.key, b.key) && TextLess(b.key, c.key) {
        TextLessTransitive(a.key, b.key, c.key);
      }
    }
  }

  predicate Orderly(a: RowId, b: RowId) {
    a == b || Before(a, b)
  }

  // The rows a settings writer holds come before the rows it has yet to write,
  // and those follow each other in order.
  predicate OrderOk(tx: Tx) {
    tx.at.Writing? ==>
      var ops := tx.at.ops;
      && (forall i, j :: 0 <= i < j < |ops| ==> Orderly(Target(ops[i]), Target(ops[j])))
      && (forall r, i :: r in tx.writes && 0 <= i < |ops| ==> Orderly(r, Target(ops[i])))
  }

  // For one owner's properties the sort comparison decides.
  lemma SortedIsOrderly(a: RowId, b: RowId)
    requires a.Prop? && b.Prop? && a.owner == b.owner && !PropertyBefore(b, a)
    ensures Orderly(a, b)
  {
    TextLessTotal(a.application, b.application);
    TextLessTotal(a.key, b.key);
  }

  lemma ListIsOrderly(ops: seq<Write>, owner: string)
    requires OneOwner(ops, owner) && SortedProperties(Targets(ops))
    ensures forall i, j :: 0 <= i < j < |ops| ==> Orderly(Target(ops[i]), Target(ops[j]))
  {
    forall i, j | 0 <= i < j < |ops| ensures Orderly(Target(ops[i]), Target(ops[j])) {
      assert Targets(ops)[i] == Target(ops[i]) && Targets(ops)[j] == Target(ops[j]);
      SortedIsOrderly(Target(ops[i]), Target(ops[j]));
    }
  }

  // The sort in SetProperties and DeleteProperties is what makes them follow
  // the order.
  lemma StartOrderOk(at: Point)
    requires Starts(at)
    ensures OrderOk(Opened(at))
  {
    if at.Writing? {
      var ops := at.ops;
      if UpdateProgram(ops) || DeleteProgram(ops) {
      } else if SetProgram(ops) {
        var rest := ops[1..];
        ListIsOrderly(rest, ops[0].sub);
        forall i, j | 0 <= i < j < |ops| ensures Orderly(Target(ops[i]), Target(ops[j])) {
          assert ops[j] == rest[j - 1];
          if i > 0 { assert ops[i] == rest[i - 1]; }
        }
      } else {
        var owner :| UnsetProgram(ops, owner);
        ListIsOrderly(ops, owner);
      }
    }
  }

  lemma ExecOrderOk(db: Db, tx: Tx)
    requires !Ready(tx) && OrderOk(tx) && Exec(db, tx).Continue?
    ensures OrderOk(Exec(db, tx).tx)
  {
    if tx.at.Writing? && tx.at.ops != [] {
      var ops := tx.at.ops;
      var next := Exec(db, tx).tx;
      assert next.at.ops == ops[1..];
      forall r, i | r in next.writes && 0 <= i < |ops[1..]| ensures Orderly(r, Target(ops[1..][i])) {
        assert ops[1..][i] == ops[i + 1];
      }
    }
  }

  ghost predicate Ordered(s: State) {
    Inv(s) && forall t :: t in s.txs ==> OrderOk(s.txs[t])
  }

  lemma {:induction false} RunOrdered(run: seq<State>, actions: seq<Action>, i: nat)
    requires IsRun(run, actions) && i < |run|
    ensures Ordered(run[i])
  {
    RunInv(run, actions, i);
    if i > 0 {
      RunOrdered(run, actions, i - 1);
      StepOrdered(run[i - 1], actions[i - 1]);
    }
  }

  lemma StepOrdered(s: State, a: Action)
    requires Ordered(s) && Enabled(s, a)
    ensures Ordered(Next(s, a))
  {
    StepKeepsInv(s, a);
    match a
    case Begin(_, at) => StartOrderOk(at);
    case Execute(t) => ExecOrderOk(s.db, s.txs[t]);
    case _ =>
  }

  // ----- Waiting -----

  // Every row a transaction holds comes before a row it still needs.
  lemma NeedsComeLater(db: Db, tx: Tx, r: RowId)
    requires TxOk(db, tx) && OrderOk(tx) && !Ready(tx)
    requires Needs(db, tx).Some? && r in tx.writes && Needs(db, tx).value !in tx.writes
    ensures Before(r, Needs(db, tx).value)
  {
    if tx.at.Writing? && tx.at.ops != [] {
      assert Orderly(r, Target(tx.at.ops[0]));
    }
  }

  // Rows inserted under fresh ids are never waited for: whoever inserts holds
  // the lock the ids come from.
  lemma InsertsNeverClash(s: State, t: nat, u: nat)
    requires Inv(s) && t in s.txs && u in s.txs && t != u
    ensures !InsertClash(s.txs[t], s.txs[u])
  {
    var tx, other := s.txs[t], s.txs[u];
    assert TxOk(s.db, tx) && TxOk(s.db, other);
    match tx.at
    case Appending(_, _, _) => assert Sequence(EventLogCounter) in tx.writes;
    case MessageInsert(recipient, _, _) => assert MessageLock(recipient) in tx.writes;
    case PushInsert(_, _) => assert Sequence(InboxCounter) in tx.writes;
    case _ =>
  }

  // The unique keys never fire either.
  lemma NeverViolates(s: State, t: nat)
    requires Inv(s) && t in s.txs && !Ready(s.txs[t])
    ensures Exec(s.db, s.txs[t]) != Refuse(ConstraintViolation)
  {
    assert TxOk(s.db, s.txs[t]);
    var tx := s.txs[t];
    match tx.at
    case Appending(events, first, i) =>
      assert !InBlock(1, |Flatten(s.history.blocks)|, first + i);
    case _ =>
  }

  function Awaited(s: State, t: nat): Option<RowId> {
    if t in s.txs && !Ready(s.txs[t]) then Needs(s.db, s.txs[t]) else None
  }

  // Waiting goes up the lock order.
  lemma WaitingAscends(s: State, t: nat, u: nat)
    requires Ordered(s) && WaitsFor(s, t, u)
    ensures Awaited(s, t).Some? && Awaited(s, t).value in s.txs[u].writes
    ensures Awaited(s, u).Some? && Blocked(s, u) ==> Before(Awaited(s, t).value, Awaited(s, u).value)
  {
    InsertsNeverClash(s, t, u);
    if Awaited(s, u).Some? && Blocked(s, u) {
      var v :| v in s.txs && WaitsFor(s, u, v);
      InsertsNeverClash(s, u, v);
      assert TxOk(s.db, s.txs[u]);
      NeedsComeLater(s.db, s.txs[u], Awaited(s, t).value);
    }
  }

  predicate WaitPath(s: State, path: seq<nat>) {
    |path| >= 2 && forall k :: 0 <= k < |path| - 1 ==> WaitsFor(s, path[k], path[k + 1])
  }

  lemma {:induction false} PathAscends(s: State, path: seq<nat>)
    requires Ordered(s) && WaitPath(s, path)
    ensures Awaited(s, path[0]).Some? && Awaited(s, path[|path| - 2]).Some?
    ensures Orderly(Awaited(s, path[0]).value, Awaited(s, path[|path| - 2]).value)
    decreases |path|
  {
    WaitingAscends(s, path[0], path[1]);
    if |path| > 2 {
      var rest := path[1..];
      forall k | 0 <= k < |rest| - 1 ensures WaitsFor(s, rest[k], rest[k + 1]) {
        assert WaitsFor(s, path[k + 1], path[k + 1 + 1]);
      }
      PathAscends(s, rest);
      assert WaitsFor(s, path[1], path[2]);
      var a, b, c := Awaited(s, path[0]).value, Awaited(s, path[1]).value, Awaited(s, path[|path| - 2]).value;
      assert rest[|rest| - 2] == path[|path| - 2];
      if b != c {
        BeforeTransitive(a, b, c);
      }
    }
  }

  /** Deadlock freedom: in no reachable state do transactions wait for each
      other in a circle. */
  lemma NoWaitCycle(run: seq<State>, actions: seq<Action>, i: nat, path: seq<nat>)
    requires IsRun(run, actions) && i < |run|
    requires WaitPath(run[i], path)
    ensures path[0] != path[|path| - 1]
  {
    var s := run[i];
    RunOrdered(run, actions, i);
    PathAscends(s, path);
    var n := |path|;
    assert WaitsFor(s, path[n - 2], path[n - 1]);
    WaitingAscends(s, path[n - 2], path[n - 1]);
    if path[0] == path[n - 1] {
      var a, c := Awaited(s, path[0]).value, Awaited(s, path[n - 2]).value;
      assert WaitsFor(s, path[0], path[1]);
      if a != c {
        BeforeTransitive(a, c, a);
      }
      BeforeIrreflexive(a);
    }
  }

  // ----- Progress -----

  // Of finitely many rows, one that comes before none of the others.
  lemma {:induction false} LastRow(rows: map<nat, RowId>, first: nat) returns (m: nat)
    requires first in rows
    ensures m in rows && forall u :: u in rows ==> !Before(rows[m], rows[u])
    decreases |rows|
  {
    var rest := rows - {first};
    BeforeIrreflexive(rows[first]);
    if x :| x in rest {
      assert |rest.Keys| < |rows.Keys| by {
        assert rest.Keys == rows.Keys - {first};
      }
      var other := LastRow(rest, x);
      m := if Before(rows[other], rows[first]) then first else other;
      forall u | u in rows ensures !Before(rows[m], rows[u]) {
        if u != first {
          assert u in rest && !Before(rest[other], rest[u]);
          if m == first && Before(rows[first], rows[u]) {
            BeforeTransitive(rows[other], rows[first], rows[u]);
          }
        }
      }
    } else {
      m := first;
      assert forall u :: u in rows ==> u == first || u in rest;
    }
  }

  // A transaction waiting as far up the order as any.
  lemma LastAwaiting(s: State, t: nat) returns (m: nat)
    requires t in s.txs && Awaited(s, t).Some?
    ensures m in s.txs && Awaited(s, m).Some?
    ensures forall u :: u in s.txs && Awaited(s, u).Some? ==> !Before(Awaited(s, m).value, Awaited(s, u).value)
  {
    var rows := map x | x in s.txs && Awaited(s, x).Some? :: Awaited(s, x).value;
    m := LastRow(rows, t);
    forall u | u in s.txs && Awaited(s, u).Some? ensures !Before(Awaited(s, m).value, Awaited(s, u).value) {
      assert u in rows;
    }
  }

  predicate Stuck(s: State, t: nat) {
    t in s.txs && !Ready(s.txs[t]) && Blocked(s, t)
  }

  // A stuck transaction waits for one that, if stuck too, waits further up.
  lemma StuckAscends(s: State, t: nat) returns (u: nat)
    requires Ordered(s) && Stuck(s, t)
    ensures Awaited(s, t).Some? && u in s.txs
    ensures Stuck(s, u) && Awaited(s, u).Some? ==> Before(Awaited(s, t).value, Awaited(s, u).value)
  {
    u :| u in s.txs && WaitsFor(s, t, u);
    WaitingAscends(s, t, u);
  }

  // While transactions are open, one of them can take its next step.
  lemma SomeoneCanStep(s: State, t: nat) returns (u: nat)
    requires Ordered(s) && t in s.txs
    ensures u in s.txs && (Ready(s.txs[u]) || !Blocked(s, u))
  {
    u := t;
    if Stuck(s, t) {
      var first := StuckAscends(s, t);
      u := LastAwaiting(s, t);
      if Stuck(s, u) {
        u := StuckAscends(s, u);
        if Stuck(s, u) {
          var further := StuckAscends(s, u);
          assert false;
        }
      }
    }
  }

  // What an unblocked transaction does next, if it is not disturbed.
  ghost function OwnStep(s: State, t: nat): Action
    requires t in s.txs
  {
    if Ready(s.txs[t]) then Commit(t)
    else if Exec(s.db, s.txs[t]).Continue? then Execute(t)
    else Rollback(t)
  }

  // ----- Termination -----

  // How many steps a transaction has left at most, its commit included.
  function Remaining(tx: Tx): nat {
    match tx.at
    case Writing(ops, events) => 2 * |ops| + |events| + 2
    case Appending(events, _, i) => if i < |events| then |events| - i + 1 else 1
    case MessageUser(_, _) => 4
    case MessageNumber(_, _) => 3
    case MessageInsert(_, _, _) => 2
    case MessageDone(_, _, _) => 1
    case PushReserve(_) => 4
    case PushLookup(_, _) => 3
    case PushInsert(_, _) => 2
    case PushDone(_, _) => 1
    case StateLookup(_, _, _) => 3
    case StateWrite(_, _, _) => 2
    case StateDone(_, _, _) => 1
  }

  // The same over all transactions numbered below n.
  function Total(txs: map<nat, Tx>, n: nat): nat {
    if n == 0 then 0 else Total(txs, n - 1) + (if n - 1 in txs then Remaining(txs[n - 1]) else 0)
  }

  lemma ExecShortens(db: Db, tx: Tx)
    requires !Ready(tx) && Exec(db, tx).Continue?
    ensures Remaining(Exec(db, tx).tx) < Remaining(tx)
  {
    match tx.at
    case Writing(ops, events) =>
      if ops != [] {
        assert |ExecWrite(db, tx, ops[0]).1| <= 1;
      }
    case _ =>
  }

  predicate SameExcept(a: map<nat, Tx>, b: map<nat, Tx>, t: nat) {
    forall u :: u in a.Keys + b.Keys && u != t ==> u in a && u in b && a[u] == b[u]
  }

  lemma {:induction false} TotalChange(a: map<nat, Tx>, b: map<nat, Tx>, t: nat, n: nat)
    requires SameExcept(a, b, t)
    ensures Total(b, n) == Total(a, n)
      + (if t < n && t in b then Remaining(b[t]) else 0) - (if t < n && t in a then Remaining(a[t]) else 0)
  {
    if n > 0 {
      TotalChange(a, b, t, n - 1);
    }
  }

  // Every step of an open transaction brings the end nearer.
  lemma StepsRunOut(s: State, a: Action, n: nat)
    requires Enabled(s, a) && (a.Execute? || a.Commit? || a.Rollback?)
    requires forall t :: t in s.txs ==> t < n
    ensures Total(Next(s, a).txs, n) < Total(s.txs, n)
    ensures Next(s, a).txs.Keys <= s.txs.Keys
  {
    var s' := Next(s, a);
    TotalChange(s.txs, s'.txs, a.t, n);
    if a.Execute? {
      ExecShortens(s.db, s.txs[a.t]);
    }
  }

  // A schedule that only lets open transactions take their own next steps.
  ghost predicate Drains(states: seq<State>, actions: seq<Action>) {
    && IsPath(states, actions)
    && (forall i :: 0 <= i < |actions| ==> IsOwnStep(states[i], actions[i]))
    && states[|actions|].txs == map[]
  }

  ghost predicate IsOwnStep(s: State, a: Action) {
    (a.Execute? || a.Commit? || a.Rollback?) && a.t in s.txs && a == OwnStep(s, a.t)
  }

  lemma PathCons(s: State, a: Action, states: seq<State>, actions: seq<Action>)
    requires Enabled(s, a) && IsPath(states, actions) && states[0] == Next(s, a)
    ensures IsPath([s] + states, [a] + actions)
  {
    forall i | 0 <= i < |[a] + actions|
      ensures Enabled(([s] + states)[i], ([a] + actions)[i])
      ensures ([s] + states)[i + 1] == Next(([s] + states)[i], ([a] + actions)[i])
    {
      if i > 0 {
        assert ([s] + states)[i] == states[i - 1] && ([a] + actions)[i] == actions[i - 1];
      }
    }
  }

  lemma DrainsCons(s: State, a: Action, states: seq<State>, actions: seq<Action>)
    requires Enabled(s, a) && IsOwnStep(s, a) && Drains(states, actions) && states[0] == Next(s, a)
    ensures Drains([s] + states, [a] + actions)
  {
    PathCons(s, a, states, actions);
    forall i | 0 <= i < |[a] + actions| ensures IsOwnStep(([s] + states)[i], ([a] + actions)[i]) {
      if i > 0 {
        assert ([s] + states)[i] == states[i - 1] && ([a] + actions)[i] == actions[i - 1];
      }
    }
  }

  /** Termination: from every reachable state the open transactions can be run
      to their end, in no more steps than they have left, without any of them
      being made a victim: each only ever does what its own program does next. */
  lemma {:induction false} OpenTransactionsFinish(s: State, n: nat) returns (states: seq<State>, actions: seq<Action>)
    requires Ordered(s) && forall t :: t in s.txs ==> t < n
    ensures Drains(states, actions) && states[0] == s
    ensures |actions| <= Total(s.txs, n)
    decreases Total(s.txs, n)
  {
    if t :| t in s.txs {
      var u := SomeoneCanStep(s, t);
      var a := OwnStep(s, u);
      StepsRunOut(s, a, n);
      StepOrdered(s, a);
      var rest, todo := OpenTransactionsFinish(Next(s, a), n);
      DrainsCons(s, a, rest, todo);
      states, actions := [s] + rest, [a] + todo;
    } else {
      states, actions := [s], [];
      assert s.txs == map[];
    }
  }
}
