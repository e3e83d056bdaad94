# WeaverDB: a verified model of its stateful core

WeaverDB is a PostgreSQL-derived database engine with a Java interface. This
project models eight pieces of it in Dafny and proves what they promise over
whole runs:

- **NOTIFY/LISTEN** (`Notify`, `NotifyBackend`, `NotifySafety`, `NotifyRuns`,
  `NotifyDelivery`, `NotifyFailure`, `NotifyOrigin`, `NotifyRows`, `NotifyProgress`).
  Backends share the table `pg_listener` under an exclusive lock and wake each
  other with a signal. The model is a step relation in which each test and each
  assignment of the two volatile flags is a step of its own; a signal may come
  between any two steps and handlers nest to any depth. In every run a committed
  NOTIFY reaches every listener of the name, the notifier's own frontend
  included; every message comes from a committed NOTIFY of its name, or from the
  commit of the backend itself; `ProcessIncomingNotify` is never active
  twice in a backend, and each signal is followed by a scan. The one exception
  is a listener whose last scan has failed, and it is shown to be one.
- **Deferred triggers** (`TriggerDescriptor`, `TriggerArgs`, `TriggerModes`,
  `TriggerRows`, `TriggerQueue`, `TriggerMeaning`, `DeferredTriggers`). The queue
  of a transaction fires every outstanding item exactly once, in order, also when
  fired functions add events, so every trigger that is declared for a change is
  called for it exactly once; `SET CONSTRAINTS` means that the latest command in scope wins; the
  "triggered data change" rule is enforced exactly on tables with a referential
  UPDATE trigger; trigger arguments survive their encoding.
- **Inheritance** (`InheritanceOrder`, `InheritancePaths`, `InheritanceColumns`,
  `Inheritance`, with the linked cells of `LinkedCells`). The list that grows
  while it is being walked, and whose duplicates are overwritten in place, is the
  list of all superclasses in topological order, and of these orders the one in
  which a class stands by the last of the paths that lead to it; every table holds the columns of all its
  superclasses.
- **Sequences** (`SequenceFetch`, `SequenceValues`, `SequenceLedger`, `Sequence`).
  In 32-bit arithmetic that never overflows, and for every interleaving of
  sessions that cache values, each number fetched is handed out once, and its
  value is that of its place in the progression since the sequence was created
  or set. Without CYCLE no value comes twice; with it a value comes again only
  after all the others.
- **COPY in text format** (`CopyText`, `CopyEscapes`, `CopyLines`, `Copy`). Reading
  what was written gives back the table, exactly if no value equals the null
  marker; other ways to write a value, and lines with too few or too many
  fields, are read as documented.
- **Operators** (`OperatorCatalog`, `Operators`). Shells, filling and back links
  keep the catalog unique and its links of the right types in every run.
- **Statement bindings** (`StatementBindings`, `PreparedPlan`). Two slot tables
  that are moved to grow, and one array of slots in the engine, which holds the
  addresses of theirs. Which sequences of calls go through is stated exactly, and
  what the engine finds after them.
- **String interning** (`StringTable`). A hash table of linked chains that agrees
  with an array of strings.

What the code changes in place is a class with methods proved against
specification functions; what it computes is a function; what happens over
time is a lemma about all runs, or an invariant that every method keeps.

Findings stated and proved here, where code and intention part:

- A row inserted, updated and then deleted in one transaction is caught only if
  the table has a referential UPDATE trigger, since an UPDATE hands on the
  row's flags only through such triggers (`TriggerRows.GuardedExactly`).
- A value equal to the null marker comes back from COPY as NULL, because the
  comparison follows the unescaping (`CopyText.RoundTrip`). A delimiter that
  means something after a backslash does not work, nor does a delimiter of
  several characters, of which the first is written and each is read
  (`CopyText.DelimOkExactly`).
- An operator that already has a shell may become its own negator or sort
  operator, because the test is made only for operators not in the catalog
  (`Operators.OwnLink`); two commands are enough (`Operators.OwnLinkRun`). Over
  any run the operators of this kind are exactly those whose command went
  through and named them so (`Operators.OperatorTable.Execute`).
- `ProcessIncomingNotify` uses up the signal before it does its work. If it fails
  and no other signal is taken, the backend goes idle with its notifications
  undelivered
  (`NotifyFailure.FailedScanLeavesRows`, with the run
  `NotifyFailure.NotificationLeft`); no other run leaves any
  (`NotifyRuns.IdleHasNoNotification`).
- The engine keeps parameters and columns in one array, and its search for a
  name compares with the name of every slot it passes, also of those for columns,
  which have none. So a name that is new to the engine must not be bound after a
  column (`StatementBindings.OutputFirst`); every other sequence of calls goes
  through (`StatementBindings.Statement.LinkAll`).
- A commit that NOTIFYs may wait for ever. It writes the row of a listener while
  it holds the lock; if that listener has UNLISTENed in a transaction that has
  itself NOTIFYed, the listener waits for the lock and the commit for the row
  (`NotifyProgress.CycleRun`). In every reachable state in which no backend can
  go on there is such a pair (`NotifyProgress.StuckIsCycle`).
- COPY skips the fields of a line that are too many up to the next newline
  character, also if it is one that belongs to a value and is escaped
  (`CopyLines.ExtraFieldsSkipped`).
- `currval` answers 0 instead of "not yet defined" in a session whose calls of
  `nextval` and `setval` on the sequence have all been refused, and in no other
  (`Sequence.Server.CurrVal`, with `Sequence.CurrValOfNothing` and
  `Sequence.CurrValAfterRefusedSet`).
- The engine drops a second parameter marker from a name that the statement
  manager has already stripped, so names that differ by it share a registration
  (`StatementBindings.SharedName`). It also refuses column positions that, cut
  to 16 bits, are not from 1 to 64, which the statement manager does not notice
  (`StatementBindings.RefusedPosition`). All slots are registered exactly if no
  key is refused and no two are read alike
  (`StatementBindings.Bindings.RegisteredExactly`).

## Model

| member | source | states |
|---|---|---|
| NotifyBackend.AdvanceKeeps | mtpgsql/src/backend/commands/async.c:600-829 | every instruction of a backend on the two flags keeps the handshake between main loop and nested handlers, and does not drop a pending wakeup |
| NotifyBackend.DeliverKeeps | mtpgsql/src/backend/commands/async.c:600-648 | a signal taken at any program point keeps the handshake and leaves a wakeup pending |
| NotifyBackend.ProcessNotReentrant | mtpgsql/src/backend/commands/async.c:611-647 | at any depth of nested handlers at most one activation is inside ProcessIncomingNotify, with the enabled flag clear and outside a transaction |
| NotifyBackend.LoopExit | mtpgsql/src/backend/commands/async.c:693-706 | an activation leaves the enabling loop exactly on seeing occurred clear, at which time enabled is set |
| NotifyBackend.IdleIsClean | mtpgsql/src/backend/commands/async.c:664-707 | an idle backend accepts signals, has occurred clear and owes no scan; it has a wakeup only if a signal is on its way |
| NotifyBackend.FailKeeps | mtpgsql/src/backend/tcop/postgres.c:1500-1553 | after an error in ProcessIncomingNotify the main loop goes on to EnableNotifyInterrupt with the handshake intact |
| NotifySafety.CommitVisitKeepsInv | mtpgsql/src/backend/commands/async.c:470-545 | one row of the commit loop (own frontend, dead listener, or signal before write) keeps the system invariant: a row is marked only after its listener has been woken; that a listener is marked at all is `NotifyDelivery.VisitKeepsProgress` |
| NotifySafety.CommitWriteKeepsInv | mtpgsql/src/backend/commands/async.c:510-545 | writing the notifier into a row after the signal keeps the system invariant |
| NotifySafety.CommitFinishKeepsInv | mtpgsql/src/backend/commands/async.c:430-567 | publishing the committed table keeps the system invariant: each notification in it has a wakeup; that every listener has one is `NotifyDelivery.CommitMarks` |
| NotifySafety.AbortKeepsInv | mtpgsql/src/backend/commands/async.c:576-580 | an abort anywhere in a commit writes nothing and keeps the system invariant |
| NotifySafety.ScanRowKeepsInv | mtpgsql/src/backend/commands/async.c:780-815 | clearing and reporting one row of the listener keeps the system invariant; that a row without notification is not reported is `NotifyOrigin.MessageOrigin` |
| NotifySafety.ScanFinishKeepsInv | mtpgsql/src/backend/commands/async.c:815-829 | committing a scan keeps the system invariant: what it cleared it has reported |
| NotifySafety.ScanAbortKeepsInv | mtpgsql/src/backend/commands/async.c:742-829 | an error in ProcessIncomingNotify leaves the rows as they were and the backend in the enabling loop, and keeps the system invariant |
| NotifySafety.InterruptKeepsInv | mtpgsql/src/backend/commands/async.c:600-648 | taking a signal keeps the system invariant |
| NotifySafety.CommandKeepsInv | mtpgsql/src/backend/commands/async.c:150-385 | LISTEN, UNLISTEN, NOTIFY, BEGIN and the call of EnableNotifyInterrupt keep the system invariant |
| NotifyRuns.StepKeepsInv | mtpgsql/src/backend/commands/async.c:430-829 | every step of every backend keeps the system invariant: each committed nonzero notification of a live listener has another notifier, and a live wakeup unless the last scan has failed |
| NotifyRuns.EveryRunKeepsInv | mtpgsql/src/backend/commands/async.c:430-829 | the invariant holds in every state of every interleaving |
| NotifyRuns.NeverReentrant | mtpgsql/src/backend/commands/async.c:611-647 | in no state of any run is ProcessIncomingNotify active twice in one backend |
| NotifyRuns.IdleHasNoNotification | mtpgsql/src/backend/commands/async.c:664-829 | an idle, signal-free backend has no undelivered row, in any run, unless its last ProcessIncomingNotify has failed |
| NotifyRuns.RowOrigin | mtpgsql/src/backend/commands/async.c:430-580 | a notification appears only by the commit of its notifier, which has NOTIFYed the name and is not the listener, and only in a row that had none |
| NotifyRuns.RowFate | mtpgsql/src/backend/commands/async.c:742-829 | a pending notification of a live listener stays until the listener has sent it to its frontend or stopped listening |
| NotifyRuns.RunKeepsAccounted | mtpgsql/src/backend/commands/async.c:430-829 | at every later time the notification is either still in its row or in the listener's messages since |
| NotifyRuns.NeverLost | mtpgsql/src/backend/commands/async.c:742-829 | whatever the others do, when the listener of a marked row is idle and signal-free again and its last scan has not failed, it has reported the notification |
| NotifyRuns.SignalAnswered | mtpgsql/src/backend/commands/async.c:600-707 | between taking a signal and being idle a backend starts a scan |
| NotifyRuns.FailedMeans | mtpgsql/src/backend/commands/async.c:742-829 | a backend is marked as failed only if its last ProcessIncomingNotify ended in an error |
| NotifyFailure.FailedScanLeavesRows | mtpgsql/src/backend/commands/async.c:762-829 | after a scan that fails with no other signal taken the backend comes to be idle and signal-free with every row as it was, so with a notification exactly if there was one |
| NotifyFailure.NotificationLeft | mtpgsql/src/backend/commands/async.c:762-829 | a run from the start to an idle, signal-free backend with an undelivered row |
| NotifyDelivery.AcquireStartsProgress | mtpgsql/src/backend/commands/async.c:461-471 | the commit loop starts with the rows the transaction sees, its own LISTEN rows included and its UNLISTENed ones not, none of them done |
| NotifyDelivery.VisitKeepsProgress | mtpgsql/src/backend/commands/async.c:470-545 | after a visit every row the loop has been at is marked, if it is of another live listener of a NOTIFYed name, or reported to the own frontend |
| NotifyDelivery.WriteKeepsProgress | mtpgsql/src/backend/commands/async.c:510-545 | so it is after a write |
| NotifyDelivery.QuietKeepsProgress | mtpgsql/src/backend/commands/async.c:430-446 | so it is when another backend commits its LISTEN and UNLISTEN meanwhile |
| NotifyDelivery.StepKeepsProgress | mtpgsql/src/backend/commands/async.c:430-829 | every step of every backend keeps what the commit loop has done so far |
| NotifyDelivery.EveryRunKeepsProgress | mtpgsql/src/backend/commands/async.c:430-829 | it holds in every state of every interleaving |
| NotifyDelivery.CommitMarks | mtpgsql/src/backend/commands/async.c:430-567 | when a commit ends, the row of every other live listener of a NOTIFYed name holds a notification in the committed table, unless the listener gave up meanwhile |
| NotifyDelivery.CommitTells | mtpgsql/src/backend/commands/async.c:473-500 | and the notifier has told its own frontend of every NOTIFYed name it listens to |
| NotifyDelivery.PendingStays | mtpgsql/src/backend/commands/async.c:150-174 | a NOTIFYed name is pending until its transaction ends |
| NotifyDelivery.OnlyAcquireCommits | mtpgsql/src/backend/commands/async.c:461-471 | a commit comes to go through the table only by taking the lock |
| NotifyDelivery.ListenerStays | mtpgsql/src/backend/commands/async.c:296-385 | a live listener is in the committed table until it gives up |
| NotifyDelivery.CommitDelivers | mtpgsql/src/backend/commands/async.c:430-829 | a committed NOTIFY reaches every other backend that listens to the name when the commit takes the lock: its row names a notifier other than itself, and next time it is idle and signal-free, its last scan not failed, its frontend has the message of that notifier since the commit |
| NotifyDelivery.NotifyDelivered | mtpgsql/src/backend/commands/async.c:150-829 | so it reaches every other backend that listens to the name when NOTIFY is called and does not give up, with a message that is not from the listener itself |
| NotifyDelivery.SelfNotified | mtpgsql/src/backend/commands/async.c:150-567 | and the notifier itself, if it listens to the name when it commits, be it since the same transaction |
| NotifyOrigin.MessageOrigin | mtpgsql/src/backend/commands/async.c:470-815 | in every run a step sends a frontend at most one message: by the commit of the backend itself, for its own row of a name it has NOTIFYed, or by its scan, for its own committed row, whose notifier it names and which is neither none nor itself |
| NotifyOrigin.PendingOrigin | mtpgsql/src/backend/commands/async.c:150-174 | a name is pending only after a NOTIFY of it by the same backend, with no end of its transaction since |
| NotifyOrigin.NotificationOrigin | mtpgsql/src/backend/commands/async.c:430-567 | a notification in the committed table comes from a NOTIFY of the name by that notifier, in a transaction that has committed |
| NotifyOrigin.NothingInvented | mtpgsql/src/backend/commands/async.c:150-829 | so every message in every inbox of every run goes back to a NOTIFY of its name: one of another backend that committed before, or one of the backend itself |
| NotifyOrigin.OwnMessageSeen | mtpgsql/src/backend/commands/async.c:461-500 | a commit visits a row of its own only if the transaction sees it, so nobody is told of names it does not listen to |
| NotifyRows.CommandSees | mtpgsql/src/backend/commands/async.c:190-370 | after LISTEN the transaction sees the row of the name, after UNLISTEN and UNLISTEN * it does not |
| NotifyRows.OwnRowFixed | mtpgsql/src/backend/commands/async.c:190-370 | the committed table has a row of a live backend or has not, until a transaction of the backend ends |
| NotifyRows.CommitPublishes | mtpgsql/src/backend/commands/async.c:430-567 | a commit leaves exactly the rows of the backend that its transaction sees |
| NotifyRows.ListenTakesEffect | mtpgsql/src/backend/commands/async.c:190-370 | in every run: after the commit the row is there if the last command about the name in the transaction was LISTEN, and is not there if it was UNLISTEN |
| NotifyRows.CommitCleans | mtpgsql/src/backend/commands/async.c:501-512 | a commit of a NOTIFY removes the rows of the name whose process is dead |
| NotifyRows.SignalOrigin | mtpgsql/src/backend/commands/async.c:501-545 | a backend is sent a signal only by the commit of another one that has NOTIFYed a name it has a row of |
| NotifyProgress.MovesExactly | mtpgsql/src/backend/commands/async.c:430-829 | in every state that keeps the invariant a backend can go on if and only if it does not wait for the lock or, as the holder, for the row of a listener |
| NotifyProgress.StuckIsCycle | mtpgsql/src/backend/commands/async.c:430-567 | if no backend can go on, the holder of the lock waits for the row of a listener that waits for the lock |
| NotifyProgress.CycleRun | mtpgsql/src/backend/commands/async.c:296-567 | a run from the start to such a state, with no signal left to be taken |
| TriggerDescriptor.SelectedInOrder | mtpgsql/src/backend/commands/trigger.c:602-680 | the selected triggers are the list at strictly increasing positions, which are exactly those of the triggers that fire on the event |
| TriggerDescriptor.SelectedFires | mtpgsql/src/backend/commands/trigger.c:602-680 | every entry of a per-event array is a trigger of the list that fires on the event |
| TriggerDescriptor.TriggerDesc.constructor | mtpgsql/src/backend/commands/trigger.c:590-600 | after the build loop each per-event array is the order-preserving selection of the trigger list |
| TriggerDescriptor.TriggerDesc.DescribeTrigger | mtpgsql/src/backend/commands/trigger.c:609-680 | adds the trigger at the end of exactly the arrays of its kind and events |
| TriggerArgs.EncodedLength | mtpgsql/src/backend/commands/trigger.c:234-249 | the length computed by counting backslashes is the length of the encoding |
| TriggerArgs.EncodeArgs | mtpgsql/src/backend/commands/trigger.c:234-270 | fills its buffer of computed length plus one exactly, with the encoding and a NUL |
| TriggerArgs.WriteArg | mtpgsql/src/backend/commands/trigger.c:252-268 | one argument: escaped text, terminator and NUL behind what was there |
| TriggerArgs.WriteEscaped | mtpgsql/src/backend/commands/trigger.c:255-263 | the copying loop writes the escaped text behind what was there |
| TriggerArgs.CountBytes | mtpgsql/src/backend/utils/adt/varlena.c:50-85 | the first pass of byteain accepts exactly well-formed text and counts its bytes |
| TriggerArgs.ByteaIn | mtpgsql/src/backend/utils/adt/varlena.c:50-85 | byteain computes the unescaped bytes, or rejects |
| TriggerArgs.SplitArgs | mtpgsql/src/backend/commands/trigger.c:571-575 | the loop over NUL-terminated strings computes the split |
| TriggerArgs.ArgumentsRoundTrip | mtpgsql/src/backend/commands/trigger.c:234-270 | any list of NUL-free arguments, empty ones included, is returned by unescaping and splitting |
| TriggerArgs.EscapedAt | mtpgsql/src/backend/commands/trigger.c:255-263 | the i-th byte of an argument comes behind as many extra bytes as there are backslashes up to it, and a backslash behind a backslash |
| TriggerArgs.EncodedNext | mtpgsql/src/backend/commands/trigger.c:252-268 | each argument adds its escaped text and a backslash with three zeros |
| TriggerArgs.OctalRead | mtpgsql/src/backend/utils/adt/varlena.c:50-85 | a backslash and the digits a, b, d are read as one byte, 64a + 8b + d cut to eight bits |
| TriggerArgs.RejectedExactly | mtpgsql/src/backend/utils/adt/varlena.c:50-85 | a text that begins with a backslash is refused exactly if neither a backslash nor three digits follow, or if what follows these is refused |
| TriggerModes.StoredExecute | mtpgsql/src/backend/commands/trigger.c:1546-1798 | a command changes the stored mode of exactly the triggers it mentions |
| TriggerModes.SessionCommand | mtpgsql/src/backend/commands/trigger.c:1546-1616 | the session's list and flag stay a record of its history of commands |
| TriggerModes.TransactionCommand | mtpgsql/src/backend/commands/trigger.c:1723-1798 | the transaction's list and flag keep agreeing with "latest command that mentions the trigger, else its default" |
| TriggerModes.MemoiseAgrees | mtpgsql/src/backend/commands/trigger.c:1062-1116 | remembering a looked-up default changes no later answer |
| TriggerRows.FlagsMean | mtpgsql/src/backend/commands/trigger.c:1886-2051 | the flags of an event say exactly what happened to its row in this transaction, followed through its versions |
| TriggerRows.RejectedExactly | mtpgsql/src/backend/commands/trigger.c:1886-2051 | on a table with a referential UPDATE trigger a change is rejected if and only if the rule forbids it, and not found if and only if no previous event made the version |
| TriggerRows.RuleKept | mtpgsql/src/backend/commands/trigger.c:1886-2051 | in a transaction run without error no change is forbidden by those before it |
| TriggerRows.KeyChangesAtMostOnce | mtpgsql/src/backend/commands/trigger.c:1143-1170 | along a row a referenced key changes at most once, and never after an insert in the same transaction |
| TriggerRows.DeletedRowUntouched | mtpgsql/src/backend/commands/trigger.c:2020-2051 | a deleted row was neither inserted nor key-changed in the same transaction |
| TriggerRows.UnguardedRun | mtpgsql/src/backend/commands/trigger.c:1930-2051 | for any watched table without referential UPDATE trigger: the run INSERT, UPDATE, DELETE of one row that goes through |
| TriggerRows.GuardedExactly | mtpgsql/src/backend/commands/trigger.c:1930-2051 | deletes of rows inserted in the transaction are always caught if and only if the table has a referential UPDATE trigger |
| TriggerMeaning.NoInterestExactly | mtpgsql/src/backend/commands/trigger.c:1833-1839 | a change is passed over if and only if no trigger of the table is a row trigger for INSERT, DELETE or UPDATE |
| TriggerMeaning.SavedItems | mtpgsql/src/backend/commands/trigger.c:1840-1885 | a saved event has one item for every AFTER ROW trigger declared for its operation, in the order of the list, with its oid and modes; it is saved as done exactly for a referential action on an UPDATE that left its key alone |
| TriggerMeaning.HasRiExactly | mtpgsql/src/backend/commands/trigger.c:1920-1928 | a table has a referential UPDATE trigger if and only if an AFTER ROW UPDATE trigger has one of the five functions, each named |
| TriggerMeaning.RejectedOtherwise | mtpgsql/src/backend/commands/trigger.c:1930-2051 | on the other tables with row triggers an UPDATE is never rejected, and a DELETE exactly of a row version that an INSERT of the transaction made |
| TriggerMeaning.WaitsExactly | mtpgsql/src/backend/commands/trigger.c:1062-1116 | an item waits only if its trigger is deferrable, and then as the last command in scope that names it or ALL says, or as it was declared if there is none |
| TriggerMeaning.EveryTriggerFires | mtpgsql/src/backend/commands/trigger.c:1474-1492 | when all is done, for each change every AFTER ROW trigger declared for it has been called exactly once, and none otherwise; a referential action on an UPDATE that left its key alone has not been called |
| TriggerQueue.SaveSame | mtpgsql/src/backend/commands/trigger.c:1886-2051 | saving an event does not depend on what has been marked done |
| TriggerQueue.SaveKeepsQueue | mtpgsql/src/backend/commands/trigger.c:1125-1133 | an added event keeps the queue invariant: done means saved done or fired, nothing fires twice, an event marked done has all items done |
| TriggerQueue.FireKeepsQueue | mtpgsql/src/backend/commands/trigger.c:1335-1347 | firing and marking an item keeps the queue invariant |
| TriggerQueue.MarkEventKeepsQueue | mtpgsql/src/backend/commands/trigger.c:1349-1354 | marking an event whose items are all done keeps the queue invariant |
| TriggerQueue.ItemIsTrigger | mtpgsql/src/backend/commands/trigger.c:1217-1243 | item i of a saved event is the trigger with the same oid, deferrability and default that is executed for it later |
| TriggerQueue.PreviousHasItems | mtpgsql/src/backend/commands/trigger.c:1957-2013 | items of a previous event are read only of UPDATE events, which have as many items as the table's UPDATE triggers |
| TriggerQueue.FiredExactlyOnce | mtpgsql/src/backend/commands/trigger.c:1285-1356 | once everything is done, an item not saved as done has fired exactly once, another never |
| DeferredTriggers.TriggerInfo.BeginXact | mtpgsql/src/backend/commands/trigger.c:1395-1441 | copies the session's modes into the transaction, whose scope begins with the session's commands |
| DeferredTriggers.TriggerInfo.AbortXact | mtpgsql/src/backend/commands/trigger.c:1503-1520 | leaves the transaction, keeping the session |
| DeferredTriggers.TriggerInfo.CheckState | mtpgsql/src/backend/commands/trigger.c:1062-1116 | answers what the history of commands means: the latest that mentions the trigger or ALL, else its default; never for a trigger that is not deferrable |
| DeferredTriggers.TriggerInfo.SetState | mtpgsql/src/backend/commands/trigger.c:1528-1798 | adds the command to the history of the session or of the transaction, which list and flag go on representing |
| DeferredTriggers.TriggerInfo.GetPreviousEvent | mtpgsql/src/backend/commands/trigger.c:1143-1170 | the backward scan finds the last event that made the row version |
| DeferredTriggers.TriggerInfo.CheckKeys | mtpgsql/src/backend/commands/trigger.c:1957-2013 | the loop over the items of an UPDATE computes the items and flags, or the violation |
| DeferredTriggers.TriggerInfo.BuildEvent | mtpgsql/src/backend/commands/trigger.c:1809-2051 | the event that the rule asks for, computed from the per-event arrays of the relation's trigger descriptor, or the reason why there is none; what the rule asks for is stated by `TriggerMeaning.NoInterestExactly`, `TriggerMeaning.SavedItems` and `TriggerRows.RejectedExactly` |
| DeferredTriggers.TriggerInfo.SaveEvent | mtpgsql/src/backend/commands/trigger.c:1809-2062 | appends the event that the rule asks for, or reports violation, missing event, no interest or no transaction and leaves the queue as it is; no interest exactly if the table has no row trigger |
| DeferredTriggers.TriggerInfo.FireItem | mtpgsql/src/backend/commands/trigger.c:1181-1270 | calls the item's trigger once and marks that item only; exactly the changes of tables with row triggers that the function reports are appended, in order; an error marks nothing, and comes only from the function or from a report that is refused |
| DeferredTriggers.TriggerInfo.HandleEvent | mtpgsql/src/backend/commands/trigger.c:1309-1355 | the item loop touches no other event, fires in order and only what is not to wait, and leaves unfired only what is to wait |
| DeferredTriggers.TriggerInfo.InvokeEvents | mtpgsql/src/backend/commands/trigger.c:1285-1356 | the pass fires in queue order, nothing that is to wait, and when it ends leaves undone only waiting items, also among events added meanwhile; these are exactly the reports of the functions called; it stops early only if a function fails or a report is refused |
| DeferredTriggers.TriggerInfo.EndQuery | mtpgsql/src/backend/commands/trigger.c:1451-1466 | fires exactly the outstanding items that are not deferred, unless a function fails or a report is refused; ignored outside a transaction |
| DeferredTriggers.TriggerInfo.EndXact | mtpgsql/src/backend/commands/trigger.c:1474-1492 | a transaction that ends has fired every item not saved as done exactly once, and so called every trigger declared for one of its changes; it does end unless a function fails or a report is refused; ignored outside a transaction |
| InheritanceOrder.WorklistStep | mtpgsql/src/backend/commands/creatinh.c:541-570 | putting the direct superclasses behind the first entry preserves the recursive unfolding of the list |
| InheritanceOrder.UnfoldCovers | mtpgsql/src/backend/commands/creatinh.c:541-570 | the unfolding holds a class if and only if it is listed or a superclass of a listed one |
| InheritanceOrder.UnfoldClosed | mtpgsql/src/backend/commands/creatinh.c:541-570 | in the unfolding every direct superclass occurs again behind each occurrence of its subclass |
| InheritanceOrder.KeepLastMembers | mtpgsql/src/backend/commands/creatinh.c:576-606 | keeping the last of the duplicates loses no class and leaves each once |
| InheritanceOrder.KeepLastClosed | mtpgsql/src/backend/commands/creatinh.c:576-606 | and keeps every superclass behind its subclasses |
| InheritanceOrder.KeepLastIsPrecedence | mtpgsql/src/backend/commands/creatinh.c:541-606 | the result holds exactly the transitive superclasses, each once, and every class before all of its own superclasses |
| InheritancePaths.PathsInOrder | mtpgsql/src/backend/commands/creatinh.c:541-570 | the unfolding lists the paths to superclasses, each given by the places in the lists of parents, a path before those that go on from it and parents in order |
| InheritancePaths.PathFound | mtpgsql/src/backend/commands/creatinh.c:541-570 | and every path is in it |
| InheritancePaths.PrecedenceByPaths | mtpgsql/src/backend/commands/creatinh.c:541-606 | the result stands in the order of the last paths that lead to its classes; this and its members determine it |
| InheritanceOrder.RankedIsAcyclic | mtpgsql/src/backend/commands/creatinh.c:146-148 | superclasses created before their subclasses form no cycle |
| InheritanceColumns.FirstOfNames | mtpgsql/src/backend/commands/creatinh.c:326-432 | the merged columns have distinct names, and the names of all columns merged |
| InheritanceColumns.FirstOfHolds | mtpgsql/src/backend/commands/creatinh.c:326-432 | where types agree, merging loses no name with its type |
| InheritanceColumns.FirstOfParent | mtpgsql/src/backend/commands/creatinh.c:326-432 | a parent adds its columns of new names in order, so parent by parent gives the first-occurrence dedup of all parents' columns |
| InheritanceColumns.FirstOfExactly | mtpgsql/src/backend/commands/creatinh.c:326-432 | the merged columns are, in order, exactly the columns that no earlier one has the name of |
| Inheritance.CheckAttrExists | mtpgsql/src/backend/commands/creatinh.c:647-669 | absent exactly if no column has the name, otherwise whether a column of the name has the type or another |
| Inheritance.MergeParent | mtpgsql/src/backend/commands/creatinh.c:336-406 | the backward loop keeps the parent's new columns in order, or reports a conflict that exists |
| Inheritance.HasDuplicateColumn | mtpgsql/src/backend/commands/creatinh.c:289-308 | finds whether two columns of the command have one name |
| Inheritance.HasDuplicateParent | mtpgsql/src/backend/commands/creatinh.c:309-321 | finds whether a parent is named twice |
| Inheritance.Catalog.MergeAttributes | mtpgsql/src/backend/commands/creatinh.c:279-448 | succeeds exactly if names, parents and types fit, with the first-occurrence dedup of the parents' columns followed by the own ones; a failure names a reason that holds |
| Inheritance.ExpandList | mtpgsql/src/backend/commands/creatinh.c:541-570 | the loop over the linked list that it lengthens behind its cursor ends, and the cells then hold the recursive unfolding |
| Inheritance.RemoveDuplicates | mtpgsql/src/backend/commands/creatinh.c:576-606 | the loop that overwrites an entry with its successor leaves cells that hold the list with the last of each duplicate |
| Inheritance.OccursBehind | mtpgsql/src/backend/commands/creatinh.c:582-591 | the inner loop finds whether the class occurs further on |
| Inheritance.ListOf | mtpgsql/src/backend/commands/creatinh.c:541-606 | both loops, run one after the other on the same cells, give the unfolding with the last of each duplicate |
| LinkedCells.InsertAfter | mtpgsql/src/backend/commands/creatinh.c:555-569 | new cells are linked in behind the entry and before what followed it |
| LinkedCells.InsertAt | mtpgsql/src/backend/commands/creatinh.c:555-569 | in the list as a whole this inserts the items at that place and changes nothing else |
| LinkedCells.Overwrite | mtpgsql/src/backend/commands/creatinh.c:600-601 | taking over item and successor of the next cell removes the entry from the list |
| Inheritance.Catalog.PrecedenceOf | mtpgsql/src/backend/commands/creatinh.c:541-606 | the stored list is the precedence list of the new relation, in the order of the last paths |
| Inheritance.Catalog.StoreRelation | mtpgsql/src/backend/commands/creatinh.c:456-640 | stores parents in order and the precedence list, and keeps the catalog invariant |
| Inheritance.Catalog.DefineRelation | mtpgsql/src/backend/commands/creatinh.c:48-148 | succeeds exactly if name and columns are acceptable; adds one relation, whose k-th parent is the k-th one named and whose precedence list is in the order of the last paths from them; changes no other, and keeps the catalog invariant |
| Inheritance.Catalog.EveryRun | mtpgsql/src/backend/commands/creatinh.c:279-640 | after any run of CREATE TABLE: no cycles, correct precedence lists in the order of the last paths, and every table has the columns (name and type) of all its transitive superclasses, with distinct names |
| SequenceFetch.InitParams | mtpgsql/src/backend/commands/sequence.c:476-579 | accepts exactly readable options that give an increment, range, start and cache that fit, with the defaults by direction and the last option of a kind |
| SequenceFetch.DescribedMeans | mtpgsql/src/backend/commands/sequence.c:476-579 | what each option sets, the last one of a kind, and the default of each: increment and cache 1, the range by direction, the start at the end of the range the sequence comes from |
| SequenceFetch.NoOptions | mtpgsql/src/backend/commands/sequence.c:512-559 | no options give start 1, increment 1, from 1 to 2147483647, cache 1, no cycle |
| SequenceFetch.FirstFollows | mtpgsql/src/backend/commands/sequence.c:206-256 | the value after the last one is the first value itself, or one increment further, or, where that is out of range, the end of the range from which all of it lies ahead |
| SequenceFetch.AtBound | mtpgsql/src/backend/commands/sequence.c:216-245 | the overflow-safe tests of nextval mean that one more increment leaves the range |
| SequenceFetch.FetchBlock | mtpgsql/src/backend/commands/sequence.c:206-256 | fails exactly if called, not cycling and the next value out of range; otherwise a block that starts with the value that follows, is an arithmetic progression within the range, at most the cache size, and shorter only at the bound; no int4 overflow |
| SequenceFetch.CachedFits | mtpgsql/src/backend/commands/sequence.c:197-201 | a cached value is within the range and one step nearer to the end of the block |
| SequenceLedger.ServeOk | mtpgsql/src/backend/commands/sequence.c:197-201 | returning a cached value keeps the partition of the fetched values into returned and cached ones |
| SequenceLedger.RefillOk | mtpgsql/src/backend/commands/sequence.c:248-264 | fetching a block keeps it |
| SequenceValues.WholeProgression | mtpgsql/src/backend/commands/sequence.c:206-256 | between two places of a progression with the same value all values from the end of its range lie |
| SequenceLedger.RepeatsLate | mtpgsql/src/backend/commands/sequence.c:179-271 | so a value is returned a second time only after all of these have been fetched, whatever the sessions |
| SequenceLedger.NoDuplicates | mtpgsql/src/backend/commands/sequence.c:179-271 | as long as the range is not used up, no two calls return the same value and each session's values are strictly monotone |
| Sequence.ServeKeeps | mtpgsql/src/backend/commands/sequence.c:197-201 | the fast path stays within the block and the invariants of sequence and session entry |
| Sequence.RefillKeeps | mtpgsql/src/backend/commands/sequence.c:206-264 | so does a fetch, also one that starts with a wrap |
| Sequence.Server.DefineSequence | mtpgsql/src/backend/commands/sequence.c:57-175 | a sequence is created exactly for acceptable options and a free name, and has handed out nothing |
| Sequence.Server.CloseSequences | mtpgsql/src/backend/commands/sequence.c:457-474 | entries outlive the transaction, closed |
| Sequence.Server.InitSequence | mtpgsql/src/backend/commands/sequence.c:382-446 | the session's entry is kept, or reset if the sequence was re-created; fails exactly if there is no such sequence |
| Sequence.Server.ReadInfo | mtpgsql/src/backend/commands/sequence.c:344-379 | returns the tuple and records its increment in the entry, which is what currval looks at; the session has reached the sequence |
| Sequence.Server.Refill | mtpgsql/src/backend/commands/sequence.c:206-271 | with nothing cached the call is refused exactly if the sequence is exhausted, and otherwise returns the value that follows, as the first of a block whose end becomes the last value of the sequence and whose rest the session has cached |
| Sequence.Server.NextVal | mtpgsql/src/backend/commands/sequence.c:179-271 | returns a value in range that is added to the ledger under the session, from the cache without touching the sequence or, with nothing cached, the value that follows as the first of a new block; refuses only if exhausted and the session has nothing cached; a refused call hands out nothing but has reached the sequence |
| Sequence.Server.CurrVal | mtpgsql/src/backend/commands/sequence.c:276-293 | defined exactly if a nextval or setval of the session, refused or not, has reached the sequence; answers what was given last, or 0 if nothing was; so it is defined exactly when something was given, except where all calls were refused |
| Sequence.CurrValOfNothing | mtpgsql/src/backend/commands/sequence.c:276-293 | in a new session whose nextval on an exhausted sequence is refused, currval answers 0 |
| Sequence.CurrValAfterRefusedSet | mtpgsql/src/backend/commands/sequence.c:296-341 | so it does in a new session whose setval is refused, also on a sequence with values left |
| Sequence.Server.SetVal | mtpgsql/src/backend/commands/sequence.c:296-341 | sets the last value exactly if the cache is 1 and the value in range; a refused call changes no sequence but has reached it |
| Sequence.Server.EveryRun | mtpgsql/src/backend/commands/sequence.c:179-271 | after any interleaving, for the values since the sequence was created or last set: the values returned and the values cached in the sessions' entries partition the progression from the start to the last value; without CYCLE no duplicates, and each session strictly monotone; with it a value is returned again only after all values from the end of the range have been fetched |
| CopyText.FieldOfValue | mtpgsql/src/backend/commands/copy.c:1189-1389 | an escaped value followed by delimiter or newline reads as the value |
| CopyText.FieldOfNull | mtpgsql/src/backend/commands/copy.c:1189-1342 | an acceptable null marker reads as itself |
| CopyText.NullOkExactly | mtpgsql/src/backend/commands/copy.c:1189-1342 | the acceptable null markers are exactly those that read as themselves |
| CopyText.DelimOkExactly | mtpgsql/src/backend/commands/copy.c:1189-1389 | of all delimiter strings, those that work for all values are exactly those whose first character is outside the escape alphabet and that hold no other but newline |
| CopyText.RoundTrip | mtpgsql/src/backend/commands/copy.c:379-383 | with or without end marker, reading what was written gives back the table but for values equal to the null marker, which become NULL; the same table if and only if there is none |
| CopyText.MarkerOnlyAtEnd | mtpgsql/src/backend/commands/copy.c:379-383 | the end marker is a line of the output at its very end and nowhere else |
| CopyEscapes.EncodedField | mtpgsql/src/backend/commands/copy.c:1189-1345 | a field read from bytes written in any of the ways there are (plain, behind a backslash, as one of the six letters, as one to three octal digits) is those bytes, given as numbers, up to newline, delimiter or byte 0 |
| CopyEscapes.MarkerOrError | mtpgsql/src/backend/commands/copy.c:1283-1289 | a backslash and a dot end the data if a newline follows, and are an error otherwise |
| CopyEscapes.WrittenAt | mtpgsql/src/backend/commands/copy.c:1347-1389 | each byte of a value is written, a backslash before exactly the bytes that need one |
| CopyLines.ShortLine | mtpgsql/src/backend/commands/copy.c:790-822 | the fields that a line lacks are read as NULL |
| CopyLines.LongLine | mtpgsql/src/backend/commands/copy.c:790-822 | of a line with too many fields the first ones are read, and the line has not ended |
| CopyLines.ExtraFieldsSkipped | mtpgsql/src/backend/commands/copy.c:1166-1175 | the rest is skipped up to the end of the line if and only if no value in it holds a newline |
| CopyLines.RaggedRows | mtpgsql/src/backend/commands/copy.c:767-826 | a text of lines of any lengths, none with such a rest, is read as rows of the table's width |
| Copy.Reader.GetChar | mtpgsql/src/backend/commands/copy.c:170-187 | the next character, or end of file |
| Copy.Reader.PeekChar | mtpgsql/src/backend/commands/copy.c:204-217 | the next character, left on the stream |
| Copy.Reader.DonePeek | mtpgsql/src/backend/commands/copy.c:219-246 | takes the peeked character off or leaves it |
| Copy.Reader.ReadOctal | mtpgsql/src/backend/commands/copy.c:1234-1273 | one to three octal digits give one byte; end of file among them ends the input |
| Copy.Reader.ReadEscape | mtpgsql/src/backend/commands/copy.c:1229-1309 | what a backslash sequence stands for, the end of data, or the corrupted end marker; the bytes are pinned by `CopyEscapes.EncodedField` |
| Copy.Reader.ReadAttribute | mtpgsql/src/backend/commands/copy.c:1189-1345 | the character loop reads the field the grammar defines; after the end of the line a field is NULL |
| Copy.Reader.ReadNewline | mtpgsql/src/backend/commands/copy.c:1166-1175 | skips to the next line unless the line has ended |
| Copy.Reader.ReadLine | mtpgsql/src/backend/commands/copy.c:790-822 | the fields of one row, or end of data, or error |
| Copy.Reader.CopyFrom | mtpgsql/src/backend/commands/copy.c:767-826 | the reading loop ends and yields the rows the grammar defines; what it makes of texts not written by CopyTo is stated by `CopyEscapes.EncodedField` and `CopyLines.RaggedRows` |
| Copy.AttributeOut | mtpgsql/src/backend/commands/copy.c:1347-1389 | appends the escaped value |
| Copy.CopyTo | mtpgsql/src/backend/commands/copy.c:477-533 | writes the rows, and the end marker on a connection |
| Copy.WriteThenRead | mtpgsql/src/backend/commands/copy.c:379-383 | CopyFrom after CopyTo returns the same rows and nulls if and only if no value equals the null marker |
| OperatorCatalog.AddShell | mtpgsql/src/backend/catalog/pg_operator.c:252-334 | a shell of a new key keeps the catalog sound |
| OperatorCatalog.PutOperator | mtpgsql/src/backend/catalog/pg_operator.c:800-845 | a new tuple, or one in place of its shell with the same object id and types, keeps the catalog sound and all others as they are |
| OperatorCatalog.SetComOk | mtpgsql/src/backend/catalog/pg_operator.c:984-1008 | a back link to a commutator is set only where empty and has reversed types |
| OperatorCatalog.SetNegateOk | mtpgsql/src/backend/catalog/pg_operator.c:1012-1042 | a back link to a negator is set only where empty and has the same types |
| OperatorCatalog.RunEvolves | mtpgsql/src/backend/catalog/pg_operator.c:483-1048 | between any two of the catalogs that a run of commands goes through, operators keep object id, name and types, and a defined operator keeps everything but links that were empty |
| Operators.OperatorTable.Get | mtpgsql/src/backend/catalog/pg_operator.c:106-169 | the scan finds the one operator of the name and types, or none |
| Operators.OperatorTable.ShellMake | mtpgsql/src/backend/catalog/pg_operator.c:252-394 | adds a shell under a new object id |
| Operators.OperatorTable.LinkOthers | mtpgsql/src/backend/catalog/pg_operator.c:695-791 | the loop over the four named operators finds or makes each with the types it must have, and fails exactly if a new operator names itself as negator or sort operator |
| Operators.OperatorTable.OperatorUpd | mtpgsql/src/backend/catalog/pg_operator.c:888-1048 | fills the empty back links of commutator and negator, in one update or two, and nothing else |
| Operators.OperatorTable.OperatorDef | mtpgsql/src/backend/catalog/pg_operator.c:483-867 | the operator is in the catalog, over its shell if it had one, each link to the operator named; operators there before are linked back; all else that is new is a shell of a named operator that was absent, and all else that was there has at most an empty link set to the new operator |
| Operators.OperatorTable.OperatorCreate | mtpgsql/src/backend/catalog/pg_operator.c:483-1123 | succeeds exactly for allowed commands; the tuple holds what the command says column by column: the types and the procedure looked up with them in this order, the kind, the selectivity procedures, and each link to the operator named for it; keys stay unique and links of the right types; nothing is added but the operator and shells of operators it names; it is its own negator or sort operator exactly if the command names it so; a failure leaves the catalog as it was and names a reason that holds |
| Operators.OperatorTable.StoredAs | mtpgsql/src/backend/catalog/pg_operator.c:588-686 | the columns of the tuple, one by one, in terms of the command |
| Operators.DefinedLinks | mtpgsql/src/backend/catalog/pg_operator.c:690-791 | the commutator named is linked with the types reversed, the negator with the same ones, the left sort operator with the left type twice and the right one with the right type twice; no name, no link |
| Operators.OperatorTable.Execute | mtpgsql/src/backend/catalog/pg_operator.c:483-1123 | over any sequence of commands each goes through exactly if it is allowed in the catalog before it, and stores what it says; each catalog evolves into each later one, and failed commands change nothing; an operator is its own negator or sort operator afterwards exactly if it was before or a command that went through has named it so |
| Operators.SelfLinkExactly | mtpgsql/src/backend/catalog/pg_operator.c:748-782 | a command makes its operator its own negator or sort operator if and only if it names it so, and changes this for no other operator |
| Operators.OwnLink | mtpgsql/src/backend/catalog/pg_operator.c:748-782 | an allowed command that names its operator as its own negator or sort operator gives such an operator |
| Operators.OwnLinkRun | mtpgsql/src/backend/catalog/pg_operator.c:748-782 | two commands that reach this, for negators and both kinds of sort operator: the first names the operator, the second, which would have failed before, defines it |
| StatementBindings.ContentsWrite | pgjava_c/WeaverStmtManager.c:354-368 | writing a slot changes the map at its key only |
| PreparedPlan.StripExactly | mtpgsql/src/backend/env/WeaverConnection.c:872-915 | the texts read as a name are the name behind one of the three markers, and the name itself if it does not begin with one |
| PreparedPlan.ShortExactly | mtpgsql/src/backend/env/WeaverConnection.c:480-518 | the position as a 16-bit integer differs from it by a multiple of 65536 |
| PreparedPlan.Plan.constructor | mtpgsql/src/backend/env/WeaverConnection.c:426-431 | eight free slots |
| PreparedPlan.Plan.FindName | mtpgsql/src/backend/env/WeaverConnection.c:895-899 | the search ends at the slot of the name or the first free one, exactly if the engine has the name or has no column; otherwise it comes to a slot without name |
| PreparedPlan.Plan.FindPosition | mtpgsql/src/backend/env/WeaverConnection.c:499-503 | the search ends at the slot of the column or the first free one |
| PreparedPlan.Plan.Expand | mtpgsql/src/backend/env/WeaverConnection.c:860-870 | doubles the array, with the same slots in front |
| PreparedPlan.Plan.BindTransfer | mtpgsql/src/backend/env/WeaverConnection.c:872-915 | the name without a marker gets the address, and no other key changes; slots of names stay before those of columns |
| PreparedPlan.Plan.OutputTransfer | mtpgsql/src/backend/env/WeaverConnection.c:480-518 | the position cut to 16 bits gets the address if it is from 1 to 64, and is refused otherwise |
| StatementBindings.Bindings.Find | pgjava_c/WeaverStmtManager.c:333-336 | the search stops at the slot of the key, or at the first empty slot, or past the table |
| StatementBindings.Bindings.Register | pgjava_c/WeaverStmtManager.c:312-318 | the engine holds type and address of the slot under the key as it reads it, unless it refuses the key; not ok exactly if its search for a name comes to a slot without one |
| StatementBindings.Bindings.Reset | pgjava_c/WeaverStmtManager.c:446-468 | after a move every address the engine holds is in the new table, with the slot's type; no search fails, and the other table's addresses stay |
| StatementBindings.Bindings.Expand | pgjava_c/WeaverStmtManager.c:402-444 | doubles the table, or makes one of four, with the same slots in front, and hands it over again |
| StatementBindings.Bindings.Get | pgjava_c/WeaverStmtManager.c:320-352 | the slot of the key with the type asked for, registered if new or changed; goes through exactly if the engine can be given the key |
| StatementBindings.Bindings.Link | pgjava_c/WeaverStmtManager.c:354-368 | the table stays a packed prefix of distinct keys and as a map changes at the key only; registrations stay current across growth |
| StatementBindings.Bindings.RegisteredExactly | pgjava_c/WeaverStmtManager.c:312-468 | every slot is what the engine finds for its key, with its type, if and only if the engine takes all keys bound and reads no two of them alike |
| StatementBindings.Statement.LinkInput | pgjava_c/WeaverStmtManager.c:320-360 | goes through exactly if the engine has the name as it reads it, or has no column; then binds the name without its marker, and leaves the outputs |
| StatementBindings.Statement.LinkOutput | pgjava_c/WeaverStmtManager.c:362-393 | binds the column index, and leaves the inputs; the table is the same or a new one, and uses at most one more slot |
| StatementBindings.Statement.LinkAll | pgjava_c/WeaverStmtManager.c:320-393 | a sequence of calls goes through if and only if after the first column that the engine takes no name is bound that is new to it; then the tables hold what was bound last for every name and every index, every address the engine holds is in the tables as they are, with the type they have, and the engine finds all slots exactly if it takes all keys and reads no two alike |
| StatementBindings.TakesExactly | mtpgsql/src/backend/env/WeaverConnection.c:895-899 | a call goes through exactly if its place among the calls is in order |
| StatementBindings.BoundLatest | pgjava_c/WeaverStmtManager.c:320-393 | after a sequence of calls a key has what the last call for it bound |
| StatementBindings.BoundNever | pgjava_c/WeaverStmtManager.c:320-393 | and a key that no call was for has what it had |
| StatementBindings.OneSlot | pgjava_c/WeaverStmtManager.c:326-336 | any number of calls with the spellings of one name, with and without marker, bind one slot |
| StatementBindings.OutputFirst | mtpgsql/src/backend/env/WeaverConnection.c:480-518 | a column and then a name: the call does not go through |
| StatementBindings.InputsFirst | mtpgsql/src/backend/env/WeaverConnection.c:872-915 | names before columns always go through |
| StatementBindings.SharedName | mtpgsql/src/backend/env/WeaverConnection.c:881-899 | after binding two names that differ by a second marker there is a slot that the engine does not find |
| StatementBindings.RefusedPosition | mtpgsql/src/backend/env/WeaverConnection.c:480-518 | a column position that the engine refuses has a slot that it does not know of |
| StringTable.CompHash | mtpgsql/src/backend/bootstrap/bootstrap.c:924-934 | a bucket number, for names that are not empty and of seven bits |
| StringTable.EnterAllKeeps | mtpgsql/src/backend/bootstrap/bootstrap.c:884-901 | over any run numbers do not change, are distinct, and belong to the strings entered |
| StringTable.FirstSeenOrder | mtpgsql/src/backend/bootstrap/bootstrap.c:884-901 | over any run equal strings have equal numbers, different strings different ones, and a string seen earlier the smaller one |
| StringTable.StringTable.FindStr | mtpgsql/src/backend/bootstrap/bootstrap.c:943-966 | the walk along the linked chain finds the number of the string, or the string is not in the table |
| StringTable.StringTable.AddNode | mtpgsql/src/backend/bootstrap/bootstrap.c:1006-1030 | a node is linked in at the end of its chain, and no other chain changes |
| LinkedCells.Last | mtpgsql/src/backend/bootstrap/bootstrap.c:1015-1027 | the walk along the chain ends at its last node |
| StringTable.StringTable.AddStr | mtpgsql/src/backend/bootstrap/bootstrap.c:976-1031 | the string gets the next number and the chains go on agreeing with the array; fails exactly if the table is full |
| StringTable.StringTable.EnterString | mtpgsql/src/backend/bootstrap/bootstrap.c:884-901 | the table gains the string unless it has it, and the number returned is its position |
| StringTable.StringTable.LexIDStr | mtpgsql/src/backend/bootstrap/bootstrap.c:908-912 | the string of a number, which EnterString has returned for it |

## Left out

- NOTIFY: the loops of async.c are steps of a state machine and not methods, because a signal may come between any two statements; the order in which a scan visits rows is left open.
- NOTIFY: process ids are not used twice, and signals merge while undelivered; Async_UnlistenOnExit is UNLISTEN * with a commit; the test for normal processing mode and the truncation of names are not modelled.
- Triggers: the catalog scans of SET CONSTRAINTS are replaced by the list of trigger oids they find; equalTriggerDescs, BEFORE triggers and statement triggers are not part of this model.
- Triggers: a fired function is a parameter that reports changes or raises an error; it does not re-enter the invoking loop. A run in which functions report for ever is not a run of the model, since the list of their reactions is finite.
- TriggerArgs.SplitArgs: the number of arguments is not truncated to 16 bits.
- Inheritance: CHECK constraints, defaults other than by copy, type modifiers, ALTER and DROP TABLE, and the 16-bit sequence numbers are not modelled.
- Sequences: the session's linked list of entries is a map by name; renaming a sequence, reuse of object ids and buffer errors are not modelled. A session that ends is one that makes no more calls.
- COPY: the BINARY, MULTIBYTE, WITH OIDS and dropped-column branches; values are texts, so input and output functions of types are not part of this model.
- Copy.Reader.CopyFrom: asks for at least one column, because with none the loop of the source does not end.
- Operators: removal, truncation of names, ownership and type shells; types and procedures are given tables.
- StatementBindings.Statement.LinkInput: asks for a name that is not empty and under 64 bytes, since the source marks an empty slot by an empty name and has a buffer of 64 bytes; the connection is valid and the statement prepared once; fewer than 16384 slots in use in the table, and fewer than 16384 names and accepted columns together in the engine, since slots are counted in 16-bit integers. What the tables hold after a call that has not gone through is not promised.
- StatementBindings.Statement.LinkOutput: asks for an index that is not zero, which marks an empty slot, and for the same bounds.
- StatementBindings.Statement.LinkAll: asks that the calls keep within these bounds.
- PreparedPlan.Plan.BindTransfer: the engine's other errors (a cancelled query, a wrong thread) are not modelled.
- StringTable.CompHash: asks for a string that is not empty and of seven bits, since the source would read outside an empty string, and signed characters would make the bucket number negative.
- StringTable.StringTable.EnterString: asks for the same; the fatal error of a full table is a result.
- Sequence.Server.DropSequence: stands for DROP SEQUENCE, so that sequences can be re-created under a name; asks that no session has the sequence open, as the exclusive lock of DROP makes sure.
- Inheritance.Catalog.DefineRelation: takes the new object id, which is not in use, as a parameter.
- JNI glue, value marshalling, storage, locks, caches and the other catalog commands.
