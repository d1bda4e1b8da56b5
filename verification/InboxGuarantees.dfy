/** What the inbox promises over every interleaving: an atomic, idempotent push
    and tailing under hiding and retention. */
module InboxGuarantees {
  import opened Basics
  import opened Ascending
  import opened Tail
  import opened StoreModel
  import opened StoreInvariant
  import opened StoreSteps
  import opened StoreHistory

  // ----- Push -----

  datatype Answer = Answered(id: int) | Conflicting

  // The operation InsertInboxMessage is meant to be: put if absent, with a
  // different payload under the same pair refused.
  ghost function PutIfAbsent(inbox: map<int, InboxMessage>, last: int, push: InboxMessage)
    : (map<int, InboxMessage>, int, Answer)
  {
    match Existing(inbox, push)
    case Same(id) => (inbox, last, Answered(id))
    case Different => (inbox, last, Conflicting)
    case Absent => (inbox[last + 1 := push], last + 1, Answered(last + 1))
  }

  ghost function Refused(refusal: Refusal): Option<Answer> {
    match refusal
    case AlreadyStored(id) => Some(Answered(id))
    case Conflict => Some(Conflicting)
    case _ => None
  }

  // The action settles a push: its commit, or the rollback its lookup under
  // the counter lock calls for.
  ghost predicate Settles(s: State, a: Action, push: InboxMessage, answer: Answer) {
    match a
    case Commit(t) =>
      t in s.txs && s.txs[t].at.PushDone? && s.txs[t].at.push == push && answer == Answered(s.txs[t].at.id)
    case Rollback(t) =>
      && t in s.txs && s.txs[t].at.PushLookup? && s.txs[t].at.push == push
      && Exec(s.db, s.txs[t]).Refuse? && Refused(Exec(s.db, s.txs[t]).refusal) == Some(answer)
    case _ => false
  }

  lemma CommitPush(db: Db, tx: Tx)
    requires CountersExist(db) && TxOk(db, tx) && Ready(tx)
    ensures tx.at.PushDone? ==>
      (Committed(db, tx).inbox, Count(Committed(db, tx), InboxCounter), Answered(tx.at.id))
        == PutIfAbsent(db.inbox, Count(db, InboxCounter), tx.at.push)
    ensures !tx.at.PushDone? ==>
      Committed(db, tx).inbox == db.inbox && Count(Committed(db, tx), InboxCounter) == Count(db, InboxCounter)
  {
    CommittedInboxIs(db, tx);
  }

  /** Linearizability. Whatever other pushes and sweeps are under way, the
      action that settles a push does to table and counter what the atomic
      operation does, and answers the same; a lost race changes neither. */
  lemma PushIsAtomic(run: seq<State>, actions: seq<Action>, i: nat, push: InboxMessage, answer: Answer)
    requires IsRun(run, actions) && i < |actions|
    requires Settles(run[i], actions[i], push, answer)
    ensures (run[i + 1].db.inbox, Count(run[i + 1].db, InboxCounter), answer)
         == PutIfAbsent(run[i].db.inbox, Count(run[i].db, InboxCounter), push)
  {
    RunInv(run, actions, i);
    var s := run[i];
    if actions[i].Commit? {
      assert TxOk(s.db, s.txs[actions[i].t]);
      CommitPush(s.db, s.txs[actions[i].t]);
    }
  }

  // No other action stores anything, and only sweeps remove.
  lemma OnlyPushesStore(run: seq<State>, actions: seq<Action>, i: nat)
    requires IsRun(run, actions) && i < |actions|
    ensures actions[i].SweepInbox? ==> run[i + 1].db.inbox == run[i].db.inbox - actions[i].ids
    ensures !actions[i].SweepInbox? && !(actions[i].Commit? && run[i].txs[actions[i].t].at.PushDone?)
      ==> run[i + 1].db.inbox == run[i].db.inbox
  {
    RunInv(run, actions, i);
    var s := run[i];
    if actions[i].Commit? {
      assert TxOk(s.db, s.txs[actions[i].t]);
      CommitPush(s.db, s.txs[actions[i].t]);
    }
  }

  lemma ExistingIs(inbox: map<int, InboxMessage>, push: InboxMessage, id: int)
    requires UniquePairs(inbox) && id in inbox && SamePair(inbox[id], push)
    ensures Existing(inbox, push) == if inbox[id].payload == push.payload then Same(id) else Different
  {
  }

  // At most one message per recipient and uuid, in every reachable state; the
  // lookup before the transaction and the one under the lock read it off.
  lemma OneMessagePerPair(run: seq<State>, actions: seq<Action>, i: nat, push: InboxMessage)
    requires IsRun(run, actions) && i < |run|
    ensures var inbox := run[i].db.inbox;
      && UniquePairs(inbox)
      && (forall a, b :: a in inbox && b in inbox && inbox[a].recipient == inbox[b].recipient && inbox[a].uuid == inbox[b].uuid ==> a == b)
      && (forall id :: Existing(inbox, push) == Same(id) <==>
            id in inbox && inbox[id].recipient == push.recipient && inbox[id].uuid == push.uuid && inbox[id].payload == push.payload)
      && (Existing(inbox, push) == Different <==>
            exists id :: id in inbox && inbox[id].recipient == push.recipient && inbox[id].uuid == push.uuid && inbox[id].payload != push.payload)
  {
    RunInv(run, actions, i);
    var inbox := run[i].db.inbox;
    forall id | id in inbox && SamePair(inbox[id], push)
      ensures Existing(inbox, push) == if inbox[id].payload == push.payload then Same(id) else Different
    {
      ExistingIs(inbox, push, id);
    }
  }

  /** The atomic push, in the table's own terms: a message with the recipient and
      uuid of the push answers it if the payloads are equal and is a conflict if
      not; without one the push is stored under the next number. */
  lemma PutIfAbsentMeans(run: seq<State>, actions: seq<Action>, i: nat, push: InboxMessage)
    requires IsRun(run, actions) && i < |run|
    ensures var inbox, last := run[i].db.inbox, Count(run[i].db, InboxCounter);
      var put := PutIfAbsent(inbox, last, push);
      && (forall id :: id in inbox && inbox[id].recipient == push.recipient && inbox[id].uuid == push.uuid ==>
            put == (inbox, last, if inbox[id].payload == push.payload then Answered(id) else Conflicting))
      && ((forall id :: id in inbox ==> inbox[id].recipient != push.recipient || inbox[id].uuid != push.uuid) ==>
            put == (inbox[last + 1 := push], last + 1, Answered(last + 1)) && last + 1 !in inbox)
  {
    OneMessagePerPair(run, actions, i, push);
    PushesAreNumbered(run, actions, i);
    var inbox := run[i].db.inbox;
    forall id | id in inbox && inbox[id].recipient == push.recipient && inbox[id].uuid == push.uuid
      ensures Existing(inbox, push) == if inbox[id].payload == push.payload then Same(id) else Different
    {
      ExistingIs(inbox, push, id);
    }
  }

  // A retry of an answered push is answered alike for as long as the message
  // is kept: from then on every lookup finds it, so nothing is stored again.
  lemma RetryIsIdempotent(run: seq<State>, actions: seq<Action>, i: nat, j: nat, push: InboxMessage, id: int)
    requires IsRun(run, actions) && i < j < |run|
    requires Settles(run[i], actions[i], push, Answered(id)) && id in run[j].db.inbox
    ensures Existing(run[j].db.inbox, push) == Same(id)
    ensures PutIfAbsent(run[j].db.inbox, Count(run[j].db, InboxCounter), push)
         == (run[j].db.inbox, Count(run[j].db, InboxCounter), Answered(id))
  {
    SettledIsStored(run, actions, i, push, id);
    RunInv(run, actions, i + 1);
    RunInv(run, actions, j);
    RunLater(run, actions, i + 1, j);
    ExistingIs(run[j].db.inbox, push, id);
  }

  lemma SettledIsStored(run: seq<State>, actions: seq<Action>, i: nat, push: InboxMessage, id: int)
    requires IsRun(run, actions) && i < |actions| && Settles(run[i], actions[i], push, Answered(id))
    ensures var stored := run[i + 1].db.inbox;
      id in stored && SamePair(stored[id], push) && stored[id].payload == push.payload
  {
    PushIsAtomic(run, actions, i, push, Answered(id));
    OneMessagePerPair(run, actions, i, push);
  }

  // Committed pushes are numbered 1, 2, 3, ... in commit order.
  lemma PushesAreNumbered(run: seq<State>, actions: seq<Action>, i: nat)
    requires IsRun(run, actions) && i < |run|
    ensures run[i].history.stored == Upto(Count(run[i].db, InboxCounter))
    ensures forall id :: id in run[i].db.inbox ==> 1 <= id <= Count(run[i].db, InboxCounter)
  {
    RunInv(run, actions, i);
  }

  // ----- Reading -----

  function VisibleIds(db: Db, reader: Reader): set<int> {
    set id | id in db.inbox && db.inbox[id].recipient in reader.owners && !HiddenIn(db, id, reader.subject)
  }

  function InboxFeed(run: seq<State>, reader: Reader): seq<set<int>> {
    seq(|run|, i requires 0 <= i < |run| => VisibleIds(run[i].db, reader))
  }

  function InboxMarks(run: seq<State>): seq<int> {
    seq(|run|, i requires 0 <= i < |run| => Count(run[i].db, InboxCounter))
  }

  // What a reader can see later was visible already, or is newer.
  lemma NothingComesBack(db: Db, db': Db, reader: Reader, id: int)
    requires Later(db, db') && id in VisibleIds(db', reader) && id <= Count(db, InboxCounter)
    ensures id in VisibleIds(db, reader)
  {
  }

  lemma InboxFeeds(run: seq<State>, actions: seq<Action>, reader: Reader)
    requires IsRun(run, actions)
    ensures Feed(InboxFeed(run, reader), InboxMarks(run))
  {
    var visible, mark := InboxFeed(run, reader), InboxMarks(run);
    forall i, x | 0 <= i < |visible| && x in visible[i] ensures x <= mark[i] {
      RunInv(run, actions, i);
    }
    forall i, j, x | 0 <= i <= j < |visible| && x in visible[j] && x !in visible[i] ensures mark[i] < x {
      RunLater(run, actions, i, j);
      if x <= mark[i] {
        NothingComesBack(run[i].db, run[j].db, reader, x);
      }
    }
  }

  /** Tailing under hiding and retention. A message that was ever in the
      reader's inbox and lies between start and cursor was passed by one page:
      delivered by it, unless by then the reader had hidden it or a sweep had
      removed it. */
  lemma PassedMessagesAreAccountedFor(run: seq<State>, actions: seq<Action>, reader: Reader, polls: seq<Read>, start: int, i: nat, id: int)
      returns (p: nat)
    requires IsRun(run, actions) && Schedule(polls, |run|) && i < |run|
    requires id in run[i].db.inbox && run[i].db.inbox[id].recipient in reader.owners
    requires start < id <= CursorAt(InboxFeed(run, reader), polls, start, |polls|)
    ensures p < |polls|
    ensures CursorAt(InboxFeed(run, reader), polls, start, p) < id <= CursorAt(InboxFeed(run, reader), polls, start, p + 1)
    ensures var read := run[polls[p].at].db;
      if id in Delivered(InboxFeed(run, reader), polls, start, |polls|) then id in VisibleIds(read, reader)
      else HiddenIn(read, id, reader.subject) || (i < polls[p].at && id !in read.inbox)
  {
    var visible, mark := InboxFeed(run, reader), InboxMarks(run);
    InboxFeeds(run, actions, reader);
    p := PassedOnce(visible, polls, start, |polls|, id);
    var at := polls[p].at;
    PageIsBlock(visible[at], CursorAt(visible, polls, start, p), polls[p].limit);
    assert CursorAt(visible, polls, start, p + 1) in visible[at];
    assert id <= mark[at];
    SeenOrGone(run, actions, reader, i, at, id);
  }

  lemma SeenOrGone(run: seq<State>, actions: seq<Action>, reader: Reader, i: nat, at: nat, id: int)
    requires IsRun(run, actions) && i < |run| && at < |run|
    requires id in run[i].db.inbox && run[i].db.inbox[id].recipient in reader.owners
    requires id <= Count(run[at].db, InboxCounter)
    ensures id in VisibleIds(run[at].db, reader) || HiddenIn(run[at].db, id, reader.subject) || (i < at && id !in run[at].db.inbox)
  {
    if i <= at {
      RunLater(run, actions, i, at);
      PushesAreNumbered(run, actions, i);
    } else {
      RunLater(run, actions, at, i);
    }
  }

  // The pages are in id order without repeats, and a message still visible at
  // any later time that lies below the cursor has been delivered.
  lemma InboxTailSkipsNothing(run: seq<State>, actions: seq<Action>, reader: Reader, polls: seq<Read>, start: int, now: nat)
    requires IsRun(run, actions) && Schedule(polls, |run|)
    requires now < |run| && (polls != [] ==> polls[|polls| - 1].at <= now)
    ensures var delivered := Delivered(InboxFeed(run, reader), polls, start, |polls|);
      && Sorted(delivered)
      && forall id | id in VisibleIds(run[now].db, reader)
           && start < id <= CursorAt(InboxFeed(run, reader), polls, start, |polls|) :: id in delivered
  {
    InboxFeeds(run, actions, reader);
    DeliveredSorted(InboxFeed(run, reader), polls, start, |polls|);
    forall id | id in VisibleIds(run[now].db, reader)
        && start < id <= CursorAt(InboxFeed(run, reader), polls, start, |polls|)
      ensures id in Delivered(InboxFeed(run, reader), polls, start, |polls|)
    {
      NothingSkipped(InboxFeed(run, reader), InboxMarks(run), polls, start, |polls|, now, id);
    }
  }

  // GetLatestInboxMessageId looks at every message addressed to the reader,
  // hidden ones included.
  function InboxIds(db: Db, reader: Reader): set<int> {
    set id | id in db.inbox && db.inbox[id].recipient in reader.owners
  }

  // Starting at -1 resolves to the largest id addressed to the reader, or 0;
  // what is pushed to the reader afterwards lies above it.
  lemma LatestStartMissesNothing(run: seq<State>, actions: seq<Action>, reader: Reader, i: nat, j: nat, id: int)
    requires IsRun(run, actions) && i <= j < |run|
    requires id in InboxIds(run[j].db, reader) && id !in InboxIds(run[i].db, reader)
    ensures Latest(InboxIds(run[i].db, reader)) <= Count(run[i].db, InboxCounter) < id
  {
    LatestIsLargest(InboxIds(run[i].db, reader));
    RunInv(run, actions, i);
    RunLater(run, actions, i, j);
  }

  // A hidden message never reappears for the subject that hid it, whatever is
  // marked, pushed or swept later.
  lemma HiddenStaysHidden(run: seq<State>, actions: seq<Action>, reader: Reader, i: nat, j: nat, id: int)
    requires IsRun(run, actions) && i <= j < |run|
    requires id in run[i].db.inbox && HiddenIn(run[i].db, id, reader.subject)
    ensures id !in VisibleIds(run[j].db, reader)
  {
    RunInv(run, actions, i);
    RunLater(run, actions, i, j);
  }
}
