/** What one reader can see of the inbox over a whole run, and that other
    readers have no part in it. */
module ReaderViews {
  import opened Basics
  import opened StoreModel
  import opened StoreInvariant
  import opened StoreSteps
  import opened InboxGuarantees
  import opened InboxPaging
  import opened Ascending

  // The flags a reader has set on a message; without a row, neither.
  predicate HasFlags(db: Db, id: int, subject: string, isRead: bool, hidden: bool) {
    var row := Get(db.rows, ReadState(id, subject));
    if row.None? then !isRead && !hidden else row == Some(StateRow(isRead, hidden))
  }

  /** A committed change sets its own flag and keeps the other: marking keeps
      hidden, hiding keeps read. */
  lemma FlagsMean(run: seq<State>, actions: seq<Action>, i: nat, isRead: bool, hidden: bool)
    requires IsRun(run, actions) && i < |actions| && actions[i].Commit? && run[i].txs[actions[i].t].at.StateDone?
    requires var at := run[i].txs[actions[i].t].at; HasFlags(run[i].db, at.id, at.subject, isRead, hidden)
    ensures var at := run[i].txs[actions[i].t].at;
      match at.change
      case MarkRead(mark) => HasFlags(run[i + 1].db, at.id, at.subject, mark, hidden)
      case Hide => HasFlags(run[i + 1].db, at.id, at.subject, isRead, true)
  {
    RunInv(run, actions, i);
    var tx := run[i].txs[actions[i].t];
    assert TxOk(run[i].db, tx);
    MergeGet(run[i].db.rows, tx.writes, ReadState(tx.at.id, tx.at.subject));
  }

  // Everything the list and poll queries can tell a reader: the messages they
  // match, each with the reader's own read flag.
  function ReaderView(db: Db, reader: Reader): map<int, (InboxMessage, bool)> {
    map id | id in VisibleIds(db, reader) :: (db.inbox[id], IsRead(Get(db.rows, ReadState(id, reader.subject))))
  }

  // What one committed change does to one reader's view.
  lemma CommittedChange(db: Db, tx: Tx, reader: Reader)
    requires CountersExist(db) && TxOk(db, tx) && tx.at.StateDone?
    ensures ReaderView(Committed(db, tx), reader)
         == if tx.at.subject == reader.subject then Effect(ReaderView(db, reader), Own(tx.at.id, tx.at.change), reader.owners)
            else ReaderView(db, reader)
  {
    CommitPush(db, tx);
    var db' := Committed(db, tx);
    forall id
      ensures Get(db'.rows, ReadState(id, reader.subject))
           == if tx.at.subject == reader.subject && tx.at.id == id
              then Some(Changed(Get(db.rows, ReadState(id, reader.subject)), tx.at.change))
              else Get(db.rows, ReadState(id, reader.subject))
    {
      MergeGet(db.rows, tx.writes, ReadState(id, reader.subject));
    }
    if tx.at.subject == reader.subject {
      ChangedView(db, db', reader, tx.at.id, tx.at.change);
    }
  }

  // One state row of the reader changed and nothing else it can see.
  lemma ChangedView(db: Db, db': Db, reader: Reader, changed: int, change: Change)
    requires db'.inbox == db.inbox
    requires forall id ::
      Get(db'.rows, ReadState(id, reader.subject))
        == var row := Get(db.rows, ReadState(id, reader.subject)); if id == changed then Some(Changed(row, change)) else row
    ensures ReaderView(db', reader) == Effect(ReaderView(db, reader), Own(changed, change), reader.owners)
  {
  }

  // What can happen to a reader's inbox. Other subjects' changes are not
  // among it.
  datatype Happening =
    | Arrived(id: int, message: InboxMessage)
    | Expired(ids: set<int>)
    | Own(id: int, change: Change)

  function Concerns(s: State, a: Action, subject: string): Option<Happening> {
    match a
    case Commit(t) =>
      if t !in s.txs then None
      else (match s.txs[t].at
            case PushDone(push, id) => Some(Arrived(id, push))
            case StateDone(who, id, change) => if who == subject then Some(Own(id, change)) else None
            case _ => None)
    case SweepInbox(ids) => Some(Expired(ids))
    case _ => None
  }

  // The reader's view after it.
  function Effect(view: map<int, (InboxMessage, bool)>, h: Happening, owners: set<string>): map<int, (InboxMessage, bool)> {
    match h
    case Arrived(id, message) => if message.recipient in owners then view[id := (message, false)] else view
    case Expired(ids) => view - ids
    case Own(id, change) =>
      if id !in view then view
      else match change
        case Hide => view - {id}
        case MarkRead(isRead) => view[id := (view[id].0, isRead)]
  }

  function AfterOne(view: map<int, (InboxMessage, bool)>, h: Option<Happening>, owners: set<string>): map<int, (InboxMessage, bool)> {
    if h.Some? then Effect(view, h.value, owners) else view
  }

  function Effects(view: map<int, (InboxMessage, bool)>, hs: seq<Happening>, owners: set<string>): map<int, (InboxMessage, bool)> {
    if hs == [] then view else Effect(Effects(view, hs[..|hs| - 1], owners), hs[|hs| - 1], owners)
  }

  // What happened between two states of a run, in order.
  function Happenings(run: seq<State>, actions: seq<Action>, subject: string, i: nat, j: nat): seq<Happening>
    requires |run| == |actions| + 1 && j < |run|
    decreases j
  {
    if j <= i then []
    else
      Happenings(run, actions, subject, i, j - 1)
      + match Concerns(run[j - 1], actions[j - 1], subject) case Some(h) => [h] case None => []
  }

  // A new message is visible to its reader, unread.
  lemma ArrivedView(db: Db, tx: Tx, reader: Reader)
    requires CountersExist(db) && StatesReferToMessages(db) && TxOk(db, tx) && tx.at.PushDone?
    requires forall id :: id in db.inbox ==> id <= Count(db, InboxCounter)
    ensures ReaderView(Committed(db, tx), reader) == Effect(ReaderView(db, reader), Arrived(tx.at.id, tx.at.push), reader.owners)
  {
    CommittedInboxIs(db, tx);
    var db' := Committed(db, tx);
    forall id ensures Get(db'.rows, ReadState(id, reader.subject)) == Get(db.rows, ReadState(id, reader.subject)) {
      MergeGet(db.rows, tx.writes, ReadState(id, reader.subject));
      Touched(db, tx, "", id, reader.subject);
    }
    assert ReadState(tx.at.id, reader.subject) !in db.rows;
  }

  lemma SweptView(db: Db, ids: set<int>, reader: Reader)
    ensures ReaderView(Swept(db, ids), reader) == ReaderView(db, reader) - ids
  {
    var db' := Swept(db, ids);
    forall id | id !in ids
      ensures Get(db'.rows, ReadState(id, reader.subject)) == Get(db.rows, ReadState(id, reader.subject))
    {
    }
  }

  lemma QuietCommit(db: Db, tx: Tx, reader: Reader)
    requires CountersExist(db) && TxOk(db, tx) && Ready(tx) && !tx.at.PushDone? && !tx.at.StateDone?
    ensures ReaderView(Committed(db, tx), reader) == ReaderView(db, reader)
  {
    CommitPush(db, tx);
    forall id ensures Get(Committed(db, tx).rows, ReadState(id, reader.subject)) == Get(db.rows, ReadState(id, reader.subject)) {
      MergeGet(db.rows, tx.writes, ReadState(id, reader.subject));
      Touched(db, tx, "", id, reader.subject);
    }
  }

  lemma ViewAfterCommit(s: State, t: nat, reader: Reader)
    requires Inv(s) && Enabled(s, Commit(t))
    ensures ReaderView(Next(s, Commit(t)).db, reader)
         == AfterOne(ReaderView(s.db, reader), Concerns(s, Commit(t), reader.subject), reader.owners)
  {
    var tx := s.txs[t];
    assert TxOk(s.db, tx);
    match tx.at
    case PushDone(_, _) => ArrivedView(s.db, tx, reader);
    case StateDone(_, _, _) => CommittedChange(s.db, tx, reader);
    case _ => QuietCommit(s.db, tx, reader);
  }

  // One action, whatever it is: the reader's view changes by what concerns the
  // reader and by nothing else.
  lemma ViewAfter(s: State, a: Action, reader: Reader)
    requires Inv(s) && Enabled(s, a)
    ensures ReaderView(Next(s, a).db, reader)
         == AfterOne(ReaderView(s.db, reader), Concerns(s, a, reader.subject), reader.owners)
  {
    match a
    case Commit(t) => ViewAfterCommit(s, t, reader);
    case SweepInbox(ids) => SweptView(s.db, ids, reader);
    case _ =>
  }

  lemma ViewAt(run: seq<State>, actions: seq<Action>, reader: Reader, k: nat)
    requires IsRun(run, actions) && k < |actions|
    ensures ReaderView(run[k + 1].db, reader)
         == AfterOne(ReaderView(run[k].db, reader), Concerns(run[k], actions[k], reader.subject), reader.owners)
  {
    RunInv(run, actions, k);
    ViewAfter(run[k], actions[k], reader);
  }

  lemma EffectsOneMore(run: seq<State>, actions: seq<Action>, subject: string, owners: set<string>,
                       view: map<int, (InboxMessage, bool)>, i: nat, j: nat)
    requires |run| == |actions| + 1 && i < j < |run|
    ensures Effects(view, Happenings(run, actions, subject, i, j), owners)
         == AfterOne(Effects(view, Happenings(run, actions, subject, i, j - 1), owners), Concerns(run[j - 1], actions[j - 1], subject), owners)
  {
    var before, after := Happenings(run, actions, subject, i, j - 1), Happenings(run, actions, subject, i, j);
    match Concerns(run[j - 1], actions[j - 1], subject)
    case Some(h) => assert after == before + [h] && after[..|after| - 1] == before;
    case None => assert after == before;
  }

  // Views that change one by one by what concerns the subject.
  predicate Follow(views: seq<map<int, (InboxMessage, bool)>>, run: seq<State>, actions: seq<Action>, subject: string, owners: set<string>) {
    && |views| == |run| == |actions| + 1
    && forall k :: 0 <= k < |actions| ==> views[k + 1] == AfterOne(views[k], Concerns(run[k], actions[k], subject), owners)
  }

  lemma FoldOnce(views: seq<map<int, (InboxMessage, bool)>>, run: seq<State>, actions: seq<Action>,
                 subject: string, owners: set<string>, i: nat, j: nat)
    requires Follow(views, run, actions, subject, owners) && i < j < |run|
    requires views[j - 1] == Effects(views[i], Happenings(run, actions, subject, i, j - 1), owners)
    ensures views[j] == Effects(views[i], Happenings(run, actions, subject, i, j), owners)
  {
    EffectsOneMore(run, actions, subject, owners, views[i], i, j);
    assert views[(j - 1) + 1] == AfterOne(views[j - 1], Concerns(run[j - 1], actions[j - 1], subject), owners);
  }

  lemma {:induction false} FoldViews(views: seq<map<int, (InboxMessage, bool)>>, run: seq<State>, actions: seq<Action>,
                                     subject: string, owners: set<string>, i: nat, j: nat)
    requires Follow(views, run, actions, subject, owners) && i <= j < |run|
    ensures views[j] == Effects(views[i], Happenings(run, actions, subject, i, j), owners)
    decreases j
  {
    if i < j {
      FoldViews(views, run, actions, subject, owners, i, j - 1);
      FoldOnce(views, run, actions, subject, owners, i, j);
    }
  }

  /** A reader's view at any later moment of any run is the earlier view with
      the pushes, the sweeps and the reader's own changes applied in order. */
  lemma ViewIsOwnHistory(run: seq<State>, actions: seq<Action>, reader: Reader, i: nat, j: nat)
    requires IsRun(run, actions) && i <= j < |run|
    ensures ReaderView(run[j].db, reader)
         == Effects(ReaderView(run[i].db, reader), Happenings(run, actions, reader.subject, i, j), reader.owners)
  {
    var views := seq(|run|, k requires 0 <= k < |run| => ReaderView(run[k].db, reader));
    forall k | 0 <= k < |actions|
      ensures views[k + 1] == AfterOne(views[k], Concerns(run[k], actions[k], reader.subject), reader.owners)
    {
      ViewAt(run, actions, reader, k);
    }
    FoldViews(views, run, actions, reader.subject, reader.owners, i, j);
  }

  /** Non-interference over whole runs: two runs with the same pushes, the same
      sweeps and the same changes by this subject, in the same order, end with
      the same view for it, whatever other subjects mark and hide in either of
      them and wherever in between. */
  lemma OthersDoNotInterfere(run: seq<State>, actions: seq<Action>, run': seq<State>, actions': seq<Action>, reader: Reader)
    requires IsRun(run, actions) && IsRun(run', actions')
    requires Happenings(run, actions, reader.subject, 0, |actions|) == Happenings(run', actions', reader.subject, 0, |actions'|)
    ensures ReaderView(run[|actions|].db, reader) == ReaderView(run'[|actions'|].db, reader)
  {
    ViewIsOwnHistory(run, actions, reader, 0, |actions|);
    ViewIsOwnHistory(run', actions', reader, 0, |actions'|);
  }

  // In particular, a stretch in which nothing concerns the reader leaves its
  // view as it was.
  lemma {:induction false} NothingHappened(run: seq<State>, actions: seq<Action>, subject: string, i: nat, j: nat)
    requires |run| == |actions| + 1 && i <= j < |run|
    requires forall k :: i <= k < j ==> Concerns(run[k], actions[k], subject).None?
    ensures Happenings(run, actions, subject, i, j) == []
    decreases j
  {
    if i < j {
      NothingHappened(run, actions, subject, i, j - 1);
    }
  }

  lemma QuietStretch(run: seq<State>, actions: seq<Action>, reader: Reader, i: nat, j: nat)
    requires IsRun(run, actions) && i <= j < |run|
    requires forall k :: i <= k < j ==> Concerns(run[k], actions[k], reader.subject).None?
    ensures ReaderView(run[j].db, reader) == ReaderView(run[i].db, reader)
  {
    NothingHappened(run, actions, reader.subject, i, j);
    ViewIsOwnHistory(run, actions, reader, i, j);
  }

  /** In any reachable state, a reader that pages back from 0 sees its visible
      inbox in the reverse of the order in which it tails it from 0. */
  lemma InboxPagingInverse(run: seq<State>, actions: seq<Action>, reader: Reader, i: nat, back: seq<int>, forward: seq<int>)
    requires IsRun(run, actions) && i < |run|
    requires |back| >= |VisibleIds(run[i].db, reader)| && |forward| >= |VisibleIds(run[i].db, reader)|
    ensures var visible := VisibleIds(run[i].db, reader);
      && ListBack(visible, 0, back) == Reverse(PollForward(visible, 0, forward))
      && Elements(PollForward(visible, 0, forward)) == visible
  {
    PushesAreNumbered(run, actions, i);
    PagingInverse(VisibleIds(run[i].db, reader), back, forward);
  }
}
