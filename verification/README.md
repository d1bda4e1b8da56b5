# Verified model of the user service's store

The user service keeps three kinds of user state in PostgreSQL: settings
(documents and properties, with an eventlog that clients tail), messages (an
inbox shared by everyone a message is addressed to, and per-recipient system
messages), and config generations (sets of schemas of which one is active and
from which validators are built). Its promises are about concurrency: ids come
out in commit order, a tailing client never skips an entry, writers never
deadlock, a retried push stores nothing twice, at most one generation is
active. This project states those promises over every interleaving and proves
them.

## How it is laid out

- **Two step machines.** `StoreModel` and `ConfigModel` have one action per SQL
  statement, plus begin, commit, rollback and the retention sweep. Any number
  of transactions are open at once; each has a private overlay, holds the rows
  it has written, and rereads the committed tables at every statement (READ
  COMMITTED). A rollback drops the overlay, counters included. In `ConfigModel`
  an `UPDATE` of several rows is taken apart further: it fixes its candidates,
  then locks and re-checks them one by one.
- **Guarantees over runs.** `StoreInvariant`, `StoreSteps`, `StoreHistory`,
  `StoreOwners` and `ConfigSteps` carry the invariants.
  `EventLogGuarantees`, `Serial`, `InboxGuarantees`, `ReaderViews`,
  `MessageGuarantees`, `StoreProgress`, `ConfigGuarantees`, `ValidatorHistory` and
  `RegistrationRace` state the results, all for every run of the machine. A run
  records what has been committed (`history`) beside the tables, so results can
  compare the tables with what the writers did.
- **Tailing, once.** `Tail` proves that paging with "id > cursor" skips nothing
  for any table that only gains ids above its high-water mark; the three feeds
  are instances. A page read may happen at any state of the run, with any
  limit, which covers lost, late and repeated notifications.
- **Methods.** `PGStoreMethods`, `PollHandlers`, `ConfigStoreMethods` and
  `ConfigService` hold the imperative bodies: classes with the source's loops,
  proved against functions of the old state. A statement may fail when the
  connection is `flaky`; when it is not, the contracts say that the call
  succeeds. `Alone` and `ConfigAlone` prove that those functions are what the
  step programs of the machines compute on given tables; `Serial`, with the
  vocabulary of `Statements`, proves that settings writers and message pushes do just that among any other
  transactions, on the tables they commit on.

`Answers`, `TableChanges`, `KeptRequests` and `Builds` say what the pages, table
changes, kept requests and builds named in those contracts are, in terms of the
tables and requests alone.

Some things the code promises hold only under a condition. Each is stated with
its exact condition, and with a run or an input for which it fails:

| what | exactly when | failing case |
|---|---|---|
| a committed delete has removed what is listed | `Serial.UnsetCommits`, `Serial.DeleteCommits` | `SerialExample.OvertakenDelete` |
| a registration that asks for activation returns an active generation | `ConfigGuarantees.ActiveAtCommitIff` | `ActivationExample.ReturnsInactive` |
| a registration is stored as requested | `RegistrationRace.StoredAsRequestedIff` | `RaceExample.OvertakenMayNotLoad` |
| what was registered can be loaded | `RegistrationRace.InsertedLoadsIff` | `RaceExample.OvertakenMayNotLoad` |
| an identity belongs to one set | `IdentityHash.UnambiguousIffNoAtSigns`, `AcceptedIdentities.UnambiguousIffPinned` | `AcceptedIdentities.OneIdentityForTwo` |
| the reported generation id is that of the validators | `ValidatorHistory.PairAgreesIff` | `ReloadExample.PairDisagrees` |
| the order of property updates does not matter | `PropertyOrder.OrderIsImmaterialIff` | two texts for one key |

## Model

| member | source | states |
|---|---|---|
| EventLogGuarantees.IdsAreCommitOrder | internal/settings_store.go:409-452 | in every reachable state the committed log ids are exactly 1 to the counter, and entry k is the k-th event in commit order |
| EventLogGuarantees.BlocksAreContiguous | schema/004_sequence_counter.sql:1-18 | a commit adds its events as one block right after the last committed id; nothing else, rollback included, moves log or counter |
| EventLogGuarantees.TablesMatchLog | internal/settings_store.go:131-217 | a document or property exists iff its last logged event is an update, and a document's version is the one that event logged |
| EventLogGuarantees.VersionsCountUp | postgres/queries.sql:172-198 | logged versions of a document run 1, 2, 3, … and restart at 1 after a delete; only existing resources get a delete event |
| EventLogGuarantees.LogFeeds | internal/concurrency_test.go:16-25 | for any owner set, an entry that becomes visible later has an id above the counter's earlier value, and entries never disappear |
| EventLogGuarantees.TailIsComplete | internal/settings_service.go:358-448 | the concatenated pages of any polls, at any states and with any limits, are exactly the owners' committed entries between start and cursor, each once, in order |
| EventLogGuarantees.LatestStartMissesNothing | internal/settings_store.go:356-365 | a start at -1 resolves to a cursor above everything the owners have and below everything they gain |
| Tail.DeliveredSorted | postgres/queries.sql:223-230 | pages come in strictly ascending id order, inside the range the cursor has moved over |
| Tail.PassedOnce | postgres/queries.sql:18-28 | every id a cursor has passed was passed by exactly one page and delivered iff that page could see it |
| Tail.NothingSkipped | internal/settings_store.go:367-399 | what any later state still shows at or below an issued cursor has been delivered |
| Tail.DeliveredIsRange | internal/settings_store.go:367-399 | without deletions the delivered ids are the listing of the whole range |
| StoreSteps.StepKeepsInv | internal/settings_store.go:401-455 | every statement, commit, rollback and sweep keeps the invariant tying tables, counters, locks and every open overlay to the history |
| StoreHistory.RunLater | internal/messages_store.go:277-289 | between any two states of a run: log entries stay, ids new to a table exceed its old high-water mark, counters do not fall, hidden stays hidden |
| StoreOwners.ForeignKeysHold | postgres/schema.sql:448-484 | every committed document, property and message number has its user row |
| StoreOwners.RecipientsExist | postgres/schema.sql:464-469 | and so has every committed system message |
| StoreProgress.StartOrderOk | internal/settings_store.go:264-271 | every program of the store asks for its rows in one global order: user, sorted data rows, counter |
| StoreProgress.WaitingAscends | internal/settings_store.go:409-421 | a transaction that waits for a waiting transaction wants a row earlier in that order |
| StoreProgress.NoWaitCycle | internal/settings_store.go:313-320 | in no reachable state do open transactions wait for each other in a circle |
| StoreProgress.SomeoneCanStep | internal/messages_store.go:277-289 | while transactions are open, one of them can commit or take its next statement |
| StoreProgress.StepsRunOut | internal/settings_store.go:248-354 | every step of an open transaction lowers the total of remaining statements |
| StoreProgress.OpenTransactionsFinish | internal/settings_store.go:409-421 | from every reachable state the open transactions can run to their end within that total, each doing only its own next step |
| StoreProgress.NeverViolates | postgres/schema.sql:326-343 | no statement of a store transaction ever fails on a primary or unique key |
| InboxGuarantees.PushIsAtomic | internal/messages_store.go:254-365 | the action that settles a push does to inbox table and counter what one atomic put-if-absent does, with the same answer; a lost race changes neither |
| InboxGuarantees.PutIfAbsentMeans | internal/messages_store.go:347-365 | that operation answers by a message of the same recipient and uuid, with its id or a conflict by payload, and stores the push under the next number if there is none |
| InboxGuarantees.OnlyPushesStore | internal/store.go:151-165 | nothing but a settling push adds a message and nothing but a sweep removes one |
| InboxGuarantees.OneMessagePerPair | postgres/schema.sql:342-343 | at most one message per recipient and uuid; the lookup finds it iff payloads are equal and reports a conflict iff a different payload is stored |
| InboxGuarantees.RetryIsIdempotent | internal/messages_store.go:269-319 | as long as the message is kept, a repeated push is answered with the same id and stores nothing |
| InboxGuarantees.PushesAreNumbered | internal/messages_store.go:277-289 | committed pushes took 1, 2, 3, … in commit order, and every stored id is at most the counter |
| InboxGuarantees.InboxFeeds | internal/messages_store.go:219-247 | what a reader sees later it saw before, or it has an id above the earlier counter |
| InboxGuarantees.PassedMessagesAreAccountedFor | internal/messages_service.go:329-415 | a message between start and cursor was passed by one named page, and it was delivered, or at that page's read the reader had hidden it or a sweep had removed it |
| InboxGuarantees.InboxTailSkipsNothing | postgres/queries.sql:18-28 | pages are sorted without repeats and contain everything still visible at or below the cursor, for owners spanning any recipients |
| InboxGuarantees.LatestStartMissesNothing | internal/messages_store.go:176-186 | what is pushed to a reader after a -1 start lies above the resolved cursor |
| InboxGuarantees.HiddenStaysHidden | postgres/queries.sql:56-61 | a message hidden by a subject is never visible to that subject again, whatever is marked, pushed or swept |
| ReaderViews.CommittedChange | internal/messages_store.go:370-442 | a committed mark-read or hide changes its own subject's entry for that message and no other reader's view |
| ReaderViews.FlagsMean | postgres/queries.sql:49-61 | a committed mark sets the read flag and keeps hidden, a committed hide sets hidden and keeps read |
| Serial.ChangeCommits | internal/messages_store.go:370-465 | over every interleaving, a committed mark or hide has changed the reader's own row of a message addressed to the reader, and nothing else |
| Serial.LookupMeans | postgres/queries.sql:43-47 | the lookup refuses exactly what is not there or not addressed to the reader |
| ReaderViews.ViewAfter | postgres/queries.sql:6-61 | one action of anybody changes a reader's view by a push to its owners, a sweep or its own change, and by nothing else |
| ReaderViews.ViewIsOwnHistory | internal/messages_store.go:370-442 | between any two states of any run the reader's view is the fold of the pushes, the sweeps and its own changes, in order |
| ReaderViews.OthersDoNotInterfere | postgres/queries.sql:49-61 | two runs with the same pushes, sweeps and own changes leave a reader the same view, whatever other subjects mark and hide in either |
| ReaderViews.QuietStretch | internal/messages_store.go:370-442 | a stretch of a run in which none of these happens leaves the view as it was |
| ReaderViews.InboxPagingInverse | internal/messages_service.go:418-452 | in any reachable state, paging a reader's visible inbox back is the reverse of tailing it forward |
| MessageGuarantees.IdsAreGapless | internal/messages_store.go:122-140 | each recipient's pushes took 1, 2, 3, … in commit order and stored ids are among them, sweeps or not |
| MessageGuarantees.PushTakesNextNumber | internal/messages_store.go:77-120 | a committing push stores its message under the number after its recipient's last; no other action moves that number or adds a message |
| MessageGuarantees.OnlySweepsRemove | internal/store.go:151-165 | a message stays as it is until a sweep names it, and a sweep removes just what it names |
| MessageGuarantees.MessageTailSkipsNothing | internal/messages_service.go:133-234 | what is still stored below a tailer's cursor has been delivered, once and in order |
| MessageGuarantees.LatestStartMissesNothing | internal/messages_store.go:33-43 | a -1 start, 0 on an emptied table included, lies below every message committed later |
| InboxPaging.ClampSize | internal/handlers.go:79-85 | a page size is at least 1 and at most 100: a size in that range is taken as it is, a larger one is cut, and none means 10 |
| InboxPaging.ListBackIsAll | internal/messages_service.go:418-452 | paging back by earliest id, with any sizes, ends and yields the whole visible list, newest first |
| InboxPaging.PollForwardIsAll | internal/messages_service.go:344-382 | polling forward from a cursor, with any sizes, yields the whole visible list above it |
| InboxPaging.PagingInverse | postgres/queries.sql:6-28 | the two listings of one set of ids are each other's reverse, whatever sizes either asks for |
| Serial.SettingsWritesAreSerial | internal/settings_store.go:131-354 | over every interleaving, a committed settings writer has done to the tables it commits on what its statements do there alone, iff no row that a delete of its missed is there by then |
| Serial.UpdateCommits | internal/settings_store.go:131-179 | a committed UpdateDocument leaves its content at the version after the one it commits on, with its owner and its event |
| Serial.SetCommits | internal/settings_store.go:248-304 | a committed SetProperties has merged its values into the properties it commits on and logged each in order |
| Serial.UnsetCommits | internal/settings_store.go:306-354 | a committed DeleteProperties has removed exactly the rows its events name; it is the full removal iff no listed row it did not remove is there at commit |
| Serial.DeleteCommits | internal/settings_store.go:181-217 | a committed DeleteDocument has removed and logged the document or changed nothing; it leaves one behind iff it removed none and one is there at commit |
| Serial.MessageCommits | internal/messages_store.go:77-120 | a committed message push has stored its message under the number after its recipient's last, on the tables it commits on |
| SerialExample.OvertakenDelete | postgres/queries.sql:192-198 | a delete that finds nothing locks nothing: a run in which the document is there before and after its commit |
| Alone.SetAlone | internal/settings_store.go:248-304 | on given tables the statements of SetProperties add up to one merge, one event per row in order, and one id block |
| Alone.UnsetAlone | internal/settings_store.go:306-354 | on given tables the statements of DeleteProperties add up to one removal and the events of what was there |
| Alone.UpdateAlone | internal/settings_store.go:131-179 | on given tables the statements of UpdateDocument add up to the upserted version and its one event |
| Alone.DeleteAlone | internal/settings_store.go:181-217 | on given tables the statements of DeleteDocument add up to the removal and its one event, or to nothing |
| Alone.MessageAlone | internal/messages_store.go:77-120 | on given tables the statements of a message push add up to the recipient's next number and the message under it |
| Alone.AloneIsARun | internal/settings_store.go:131-354 | those table changes are runs of the step machine: begin, the program's statements, commit |
| TableChanges.UpdateMeans | internal/settings_store.go:131-179 | row by row: content at the next version, the owner's row, nothing else, and one entry with owner, version and author |
| TableChanges.DeleteMeans | internal/settings_store.go:181-217 | row by row: the document gone and one entry with its author, or nothing |
| TableChanges.SetMeans | internal/settings_store.go:248-304 | entry by entry: one update for each listed property in order, by the owner, and no foreign row touched |
| TableChanges.UnsetMeans | internal/settings_store.go:306-354 | row by row: the listed rows gone, one delete logged for each that was there, by the owner |
| TableChanges.MessageMeans | internal/messages_store.go:77-120 | row by row: the message under the next number, the number, the recipient's row, nothing else |
| PGStoreMethods.ReachableTablesAreSound | schema/004_sequence_counter.sql:1-18 | every reachable state meets what the methods below ask of the tables they start from |
| Alone.SetIsMapMerge | internal/settings_store.go:264-296 | with distinct keys SetProperties gives each key its value and touches nothing else, whatever order came in |
| PropertyOrder.OrderIsImmaterialIff | internal/settings_store.go:266-271 | all orders the sort may leave give the same rows iff no two updates of one key differ |
| Alone.UnsetIsMapRemoval | internal/settings_store.go:313-346 | DeleteProperties removes exactly the listed keys; its events are one per row that was there, so duplicates and missing keys log nothing |
| PGStoreMethods.Queries.LogAndNotifyAll | internal/settings_store.go:418-455 | it leaves the counter advanced by the number of entries and the entries under consecutive ids in their order, and fails only with its connection |
| PGStoreMethods.Queries.ExistingInboxMessage | internal/messages_store.go:347-365 | the lookup answers with the id on an equal payload, with a conflict on a different one, else with nothing |
| PGStoreMethods.Queries.ReserveSequenceValues | postgres/queries.sql:87-91 | the counter row rises by the count and the new value is returned; a missing counter fails |
| PGStoreMethods.Queries.UpsertDocument | postgres/queries.sql:172-190 | a document's version rises by one, or starts at one |
| PGStoreMethods.Queries.NextMessageID | postgres/queries.sql:76-85 | a recipient's number starts at one and rises by one |
| PGStoreMethods.Queries.UpsertState | postgres/queries.sql:49-61 | marking read keeps hidden, hiding keeps read, and a missing message refuses the row |
| PGStoreMethods.PGStore.UpdateDocument | internal/settings_store.go:131-179 | the tables become those with the upserted document, its owner and its event; an error leaves all of it as it was |
| PGStoreMethods.PGStore.DeleteDocument | internal/settings_store.go:181-217 | the document is removed and logged, or nothing happens when it was not there |
| PGStoreMethods.PGStore.SetProperties | internal/settings_store.go:248-304 | for some sorted order of the updates the tables become the merge with its log block; an error leaves tables, log and counter untouched |
| PGStoreMethods.PGStore.DeleteProperties | internal/settings_store.go:306-354 | likewise for removal, skipping rows that are not there |
| PGStoreMethods.PGStore.InsertMessage | internal/messages_store.go:77-120 | the message is stored under the recipient's next number, or nothing changes |
| PGStoreMethods.PGStore.InsertInboxMessage | internal/messages_store.go:254-345 | with others committing between the two lookups, the result and the tables are those of one put-if-absent |
| PGStoreMethods.PGStore.PushInTransaction | internal/messages_store.go:277-319 | number, lookup and insert under the counter lock are that put-if-absent on the tables they find |
| PGStoreMethods.PGStore.ChangeInboxState | internal/messages_store.go:370-465 | only a message addressed to the reader changes state, and only that reader's; otherwise not found and nothing changes |
| PGStoreMethods.SetStarts | internal/settings_store.go:264-271 | the list as the sort leaves it, equal keys in any order, is a program of the step machine |
| PGStoreMethods.UnsetStarts | internal/settings_store.go:313-320 | likewise for the deletes |
| PollHandlers.SettingsService.ListLogEntries | internal/settings_service.go:387-419 | the loop returns the page and its largest id, or the cursor when the page is empty |
| PollHandlers.SettingsService.PollEventLog | internal/settings_service.go:358-448 | the response is one page read from some state at or after the call, from the resolved start and with the clamped size; only an empty page is withheld |
| Answers.LogAnswerMeans | postgres/queries.sql:223-230 | such a page holds exactly the log's entries of the owners between start and returned id, as they were logged, in order; if it is not full there are no more |
| Answers.LogStartMeans | postgres/queries.sql:200-203 | a start at -1 is the largest id the owners have, or 0 |
| TailedPolls.PolledLogIsComplete | internal/settings_service.go:381-448 | a client that polls again and again with the cursor it was given gets the owners' log between its first and last cursor |
| TailedPolls.PolledEntriesMean | internal/settings_service.go:381-448 | in terms of the log: what it is given are exactly the owners' entries in that range |
| PollHandlers.MessagesService.PollInboxMessages | internal/messages_service.go:329-415 | likewise for the inbox, and the last id is that of the last item or the resolved start |
| Answers.InboxAnswerMeans | postgres/queries.sql:18-28 | such a page shows exactly the messages addressed to the reader and not hidden in its range, each with the reader's own read mark, as the reader's view has it; if it is not full there are no more |
| Answers.InboxStartMeans | postgres/queries.sql:1-4 | a start at -1 is the largest id addressed to the reader, hidden or not, or 0 |
| TailedPolls.PolledInboxSkipsNothing | internal/messages_service.go:344-415 | and likewise an inbox client gets ascending ids without repeats, among them every message it can still see up to its last cursor |
| PollHandlers.MessagesService.PollMessages | internal/messages_service.go:133-234 | likewise for system messages, ten at a time |
| Answers.MessageAnswerMeans | postgres/queries.sql:68-74 | such a page shows exactly the recipient's messages in its range with their creator and payload, at most ten; if it is not full there are no more |
| Answers.MessageStartMeans | postgres/queries.sql:63-66 | a start at -1 is the recipient's largest id still stored, or 0 |
| PollHandlers.MessagesService.ListMessagesAfterID | internal/messages_store.go:45-75 | the loop returns the page of the recipient's messages, their type dropped |
| PollHandlers.MessagesService.ListInboxMessages | internal/messages_service.go:418-452 | the response is one page below the given id, newest first, with the ids of its first and last item or 0 |
| Answers.ListAnswerMeans | postgres/queries.sql:6-16 | the response shows the reader's newest messages below the given id, newest first, with the reader's marks, and leaves out only older ones, only when it is full |
| ConfigSteps.StepKeepsInv | internal/config_store.go:217-260 | every statement keeps at most one active row, unique identities, stored references, and open transactions apart from each other |
| ConfigGuarantees.OneActiveGeneration | postgres/schema.sql:414 | at most one generation is active in every committed state, and once one has been, exactly one is |
| ConfigGuarantees.CommitSwitches | internal/config_store.go:246-260 | an activation's commit leaves just its generation active; every other commit leaves the active one as it is |
| ConfigGuarantees.ActivationBetween | internal/config_store.go:217-260 | if another generation is active later, an activation of it committed in between |
| ConfigGuarantees.ActiveAtCommitIff | internal/config_store.go:121-134 | a returned generation is active at its commit iff the transaction switched to it itself, or found it active and it still is |
| ConfigGuarantees.ActivationMeans | internal/config_store.go:217-243 | an activation by id is refused only if there is no such generation, is over at once if it is active, and else switches to it |
| RegistrationRace.ActiveMeanwhile | internal/config_store.go:82-134 | a registration that asks for activation switched to its generation or saw it active at a moment of its transaction |
| ActivationExample.ReturnsInactive | internal/config_store.go:121-124 | more is not guaranteed: a run in which a registration that asked for activation commits with its generation inactive |
| ConfigGuarantees.RegisteredStays | internal/config_store.go:28-66 | a registered identity stays registered |
| ConfigGuarantees.SecondAttemptFinds | internal/config_store.go:36-63 | after an identity conflict any later attempt at that identity finds the generation and adds none, whatever happens in between |
| ConfigGuarantees.GenerationsAreFixed | internal/config_store.go:82-119 | a committed generation keeps identity and schema list, and shares its identity with no other |
| ConfigGuarantees.ActiveReadIsCoherent | internal/config_store.go:264-299 | the schemas read for an active generation id are those it was registered with, in ordinal order, whatever commits between the two reads |
| ConfigAlone.RegistrationAlone | internal/config_store.go:68-143 | the statements of a registration, lookup by lookup and row by row, add up to the schemas, the generation and the switch |
| ConfigAlone.RegistrationAloneIsARun | internal/config_store.go:68-143 | from any reachable quiet state that registration is a run of the step machine |
| ConfigAlone.ActivationAloneIsARun | internal/config_store.go:217-260 | from any reachable quiet state any registered generation can be activated, and then it alone is active |
| ConfigStoreMethods.EnsureAllKeeps | internal/config_store.go:148-202 | storing schemas changes none that is stored, and all requested ones end up as requested |
| ConfigStoreMethods.AsRequestedIsKept | internal/config_store.go:178-199 | a set stored as requested is kept and adds nothing |
| ConfigStoreMethods.ConfigStore.EnsureConfigSchemas | internal/config_store.go:148-202 | the loop refuses with the first missing spec or mismatch, or stores what was not there |
| KeptRequests.KeptIff | internal/config_store.go:152-199 | a request is kept iff each schema agrees with what is stored in usage and in any spec it supplies, or is new and supplies one; otherwise it is refused for the first that does not, as missing its spec or as a mismatch |
| ConfigStoreMethods.ConfigStore.FindOrInsert | internal/config_store.go:82-119 | the lookup's generation and active flag, or a new row under a free identity; an identity taken meanwhile was not there at the lookup |
| ConfigStoreMethods.ConfigStore.ActivateConfigGeneration | internal/config_store.go:246-260 | fails iff some other generation is active that was not when the rows to switch off were fixed |
| ConfigStoreMethods.ConfigStore.RegisterOnce | internal/config_store.go:68-143 | with others committing between its statements: the tables are those at its commit plus the schemas, the list in order and the switch, made iff asked for and not seen active; it refuses only for its schemas, a taken identity or, when activating, somebody else's activation meanwhile, and a refusal leaves nothing |
| ConfigStoreMethods.ConfigStore.RegisterConfigGeneration | internal/config_store.go:28-66 | the error after the retry is never returned; the result has the requested identity and, if asked for, was active at a moment of the call; a set registered before and stored as requested, if no activation is asked for, is answered, with the generation that was there, and adds no rows |
| ConfigStoreMethods.PermutationFindsItself | internal/config_store.go:148-202 | any permutation of a registered schema set has exactly that generation's identity, and storing its schemas adds nothing |
| RegistrationIdentity.ReachablePermutationsFindThemselves | internal/config_store.go:32-34 | and that holds in every reachable state, registrations carrying the identity of their own list |
| RegistrationIdentity.RegisteredIsFound | internal/config_store.go:82-89 | a registration of a set that is registered when it begins inserts no generation, whatever others do, and ends at the one that was there |
| IdentityHash.ConfigGenerationIdentityHash | internal/config_store.go:575-592 | the loop writes the sorted parts, each ended by a zero byte |
| Sorting.SortSorts | internal/config_store.go:582 | sorting leaves an ascending permutation, for any strict order |
| Sorting.SortedOnce | internal/config_store.go:582 | in a total order a multiset has one ascending arrangement |
| IdentityHash.WrittenOnce | internal/config_store.go:586-589 | lists of parts without zero bytes are written alike only if they are equal |
| IdentityHash.SameIdentityIffSameSet | internal/config_store.go:575-592 | for names without `@` and no zero bytes, identities are equal iff the lists are permutations of each other's name and version pairs |
| IdentityHash.SameSetSameIdentity | internal/config_store.go:575-592 | permutations have the same identity, whatever the names contain |
| IdentityHash.UnambiguousIffNoAtSigns | internal/config_store.go:579 | no other set at all has a set's identity iff none of its names and versions contains an `@` |
| AcceptedIdentities.UnambiguousIffPinned | internal/config_service.go:84-101 | among lists the service accepts (no empty or repeated names, no empty versions) a list's identity is its own iff each other `@` in it is pinned by a name or key that is listed |
| AcceptedIdentities.AcceptedIsUnambiguousIff | internal/config_service.go:77-101 | the same in terms of requests that pass the service's checks |
| AcceptedIdentities.OneIdentityForTwo | internal/config_store.go:579 | two accepted requests for different schemas with one identity |
| ConfigService.ResolveConstraintSet | internal/config_service.go:153-192 | a supplied spec is decoded strictly, a missing one stands for the stored spec |
| ConfigService.GroupRequest | internal/config_service.go:81-126 | the loop accepts iff names and versions are set, no name repeats and everything decodes, and groups the specs by usage in request order |
| ConfigService.DryRun | internal/config_service.go:77-135 | a request passes iff it is not empty, passes the loop, and each usage's specs build |
| Builds.DryRunMeans | internal/config_service.go:77-192 | it passes iff schemas are listed, each named and versioned and no name twice, a supplied spec decodes strictly and a missing one is stored and decodes, and each usage's specs build in the order listed |
| ConfigService.AcceptedLoads | internal/config_service.go:128-135 | what the dry run accepted is what is stored, so it can be decoded and built again |
| ConfigService.RegistrationsKeepLoading | internal/validator.go:270-295 | registrations taken one at a time leave every stored generation loadable |
| ConfigService.Validator.LoadSchemas | internal/validator.go:259-303 | validators and id are swapped together iff everything decodes and builds; else both stay |
| Builds.ReloadMeans | internal/validator.go:270-295 | it succeeds iff every spec read decodes and each usage's specs build in the order read |
| Builds.ValidatorsMean | internal/validator.go:284-295 | the validators swapped in are one for each usage that occurs, of that usage's specs in the order read |
| RegistrationRace.KeptSoFar | internal/config_store.go:152-174 | at every moment a registration has its schemas so far as requested iff it has not been overtaken so far |
| RegistrationRace.StoredAsRequestedIff | internal/config_store.go:152-174 | a committed registration is stored as requested iff nobody committed a different schema under one of its keys between its lookup and its insert |
| RegistrationRace.ReachableGenerationsLoad | internal/config_service.go:128-140 | over every interleaving in which requests pass their dry run first and none is overtaken, every generation of every reachable state decodes and builds |
| RegistrationRace.InsertedLoadsIff | internal/config_service.go:81-135 | for a request of one usage, stored under that usage, the generation it inserted loads under every revisor that accepted its dry run iff it was never overtaken |
| RaceExample.OvertakenMayNotLoad | postgres/queries.sql:232-235 | without that condition the guarantee fails: a run of two accepted, committed registrations that leaves a generation which cannot be built |
| ValidatorHistory.ValidatorsAreOneGeneration | internal/validator.go:211-303 | the validators are always the build of one whole generation that was active at the last successful read, or none; failed reloads leave no trace |
| ValidatorHistory.ReloadsGoForward | internal/validator.go:223-254 | validators after more reloads come from a read no earlier, and if from another generation, an activation of it committed between the two reads |
| ValidatorHistory.CaughtUp | internal/validator.go:259-303 | once a reload begun after the last activation has succeeded, validators and id are those of the active generation, and stay so |
| ValidatorHistory.PairAgreesIff | internal/validator.go:140-142 | the reported id is that of the generation the validators were built from iff what was active at the last good reload's first read, a generation or none, is active at its second |
| ReloadExample.PairDisagrees | internal/validator.go:260-268 | a run and a successful reload after which the reported id is not that of the generation the validators were built from |
| ValidatorHistory.ReloadsSucceed | internal/validator.go:270-295 | while no registration is overtaken, a reload fails only if one of its reads does |
| ValidatorHistory.ReloadLoop | internal/validator.go:211-254 | the loop over reloads leaves in the validator's fields what the history above says |

## Left out

- HTTP, RPC and JWT handling, scopes, owner lists, error codes, metrics and start-up: a reader's owner set is a parameter.
- Notifications and the subscriber: a wait may end at any moment for any reason, and a read may come at any time, so nothing depends on them.
- The revisor library: a decoder and a builder about which only this is assumed, that what the strict decoder accepts the lenient one accepts.
- The clock: creation times are not modelled, and a sweep may remove any set of messages at any time. The two deletes of one sweep are separate actions.
- Waiting for a sweep: a sweep is a single action that does not take part in lock waits; it leaves alone messages that an open transaction refers to.
- JSON: payloads and specs are values with equality, and an equal jsonb is an equal value.
- SHA-256: the digest is represented by the bytes that are hashed, that is, taken to be injective.
- IdentityHash.SameIdentityIffSameSet: assumes names and versions without zero bytes, which PostgreSQL text columns cannot hold.
- IdentityHash.UnambiguousIffNoAtSigns: likewise, for both of the sets compared.
- AcceptedIdentities.UnambiguousIffPinned: likewise.
- Columns that no decision depends on: titles, schema versions, timestamps and descriptions. A document's content is one value.
- Equal keys in one SetProperties call: `slices.SortFunc` is not stable, so which value wins is unspecified; the contract speaks of some sorted order.
- PGStoreMethods.PGStore.SetProperties: the class method runs its transaction in one piece; what its statements do among others is stated over the step machine, as for the other settings methods.
- ConfigStoreMethods.ConfigStore.RegisterOnce: its schema lookups and inserts are one step, and others may commit before and after it; the interleavings inside it are in the step machine.
- Deadlock freedom of registrations: schemas are stored in request order, which no lock order covers.
- Share locks taken for foreign keys: no store transaction deletes or rewrites user rows, so nothing waits for them.
- Deprecations, their enforcement in the validator, and waiting for a generation change.
- Document and property reads, generation lists, and the mapping of rows to responses.
- Migrations, beyond the counters starting at zero with empty tables.
