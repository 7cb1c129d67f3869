# IDIS backend: verified models

IDIS supervises a small factory: a C++ backend acquires telemetry, evaluates rules, keeps alarms and incidents, and sends
physical commands to devices; a browser client follows the commands. This project models the stateful core of that backend in
Dafny and proves what it keeps over whole runs.

Run `dafny verify dfyconfig.toml` in this directory.

## What is modelled

| area | modules |
|---|---|
| shared vocabulary | `Basics`, `CommandTypes` |
| durable command ledger | `CommandLedger` (the store as a class), `LedgerRuns` (sequences of its transactions) |
| command protocol | `CommandProtocol` (interleaved atomic sections), `ProtocolSafety` (invariant), `ProtocolTheorems`, `ProtocolOutcomes` (ledger rows), `ProtocolFreshness` and `ProtocolFinality` (memory), `ProtocolPositions` (records among events), `ProtocolSending` (what clients are sent), `ProtocolRevisions` (of ledger rows), `ProtocolRequests` (what was requested, deadlines, quarantine), `ProtocolRace` (examples) |
| command runtime | `CommandRuntime` (the locked sections as a class over cache and ledger), `CommandService` (supervised adapter call) |
| browser view of a command | `ClientView`, `ClientDelivery` (delivery in order, exactly), `ClientSnapshots` (from fetching a record on) |
| rules | `RuleService` (class and specification), `RuleRuns` (runs, replay), `RuleSamples` (what samples mean) |
| alarms | `AlarmService` (class and specification), `AlarmHistory` (event sourcing), `AlarmStamps` (by whom and when), `AlarmReconciliation`, `FieldAlarms` (from the register into the store), `AcquisitionService`, `RuleAlarmAgreement` |
| incidents | `IncidentService`, `IncidentClosure` (with the alarm store) |
| telemetry and reports | `TelemetryStore`, `TelemetryReporting`, `QueryService` |
| bounded queues | `WebSocketQueue`, `Executor` |
| configuration | `ConfigService`, `ConfigDrafts` (from the creating request on), `AssetHierarchy` |

How the models are built:

- SQLite tables are maps and sequences; a transaction is a function from tables to tables, or no change when it is rolled back.
  The classes change fields step by step, as the C++ classes do, and every method is proved to have the effect of such a
  function; the properties are then proved of the functions, over all runs.
- A command is a thread of atomic sections: what the backend does under one lock or inside one transaction is one step, and
  so is sending an event; between two steps any other step may happen, including a crash. A ghost log records every
  adapter call, and the events of a command are the transitions saved, each of which is then sent.
- The clock is an input. Over runs it never goes backwards (`CommandProtocol.Enabled`, `LedgerRuns.ClockMonotone`).
- JSON objects are records of the fields the logic reads. Strings built by concatenation (alarm id and raise time, device and
  point) are pairs. Thresholds and counter values are real numbers.
- What a specification function means is also said in terms of its inputs, by lemmas that do not repeat its definition
  and mostly over whole runs: what a sample means to a rule, what a request makes of a command, what a report makes of
  an alarm.
- Where SQL or a hash map leaves an order open (equally old rows, iteration), the model allows every order.

## Findings

Each of these is shown on concrete data, for protocols and stores by a run from their first state. Next to it stands the
condition under which the property does hold: an if-and-only-if over all inputs.

1. **A repeated request can undo a command in memory.** `transition` changes the in-memory record under one lock and
   writes the ledger afterwards under another. An idempotent retry in between copies the older ledger row over the
   record (`application.cpp:1231`). A rejected command is then ISSUED again in memory (`ProtocolRace.RejectionUndone`),
   two events carry the same revision (`ProtocolRace.RevisionRepeated`), and a client that receives every event in order
   stays at RECEIVED while the command is CONFIRMED (`ClientView.StaleCopyStrandsClient`).
   `ProtocolFinality.RegressesExactlyOnStaleCopy` shows that such a copy is the only step, in any run, that moves a
   record backwards. For any revisions, and any timeouts of its own in between, a client that receives a finished
   command in order ends in its terminal state if and only if the revisions let the last event through
   (`ClientDelivery.ConvergesExactly`; a condition on the revisions alone without timeouts,
   `ClientDelivery.PromptClientConvergesExactly`; against the ledger in every run,
   `ClientDelivery.DeliveredClientAgreesExactly`); it shows every announced state in turn if and only if they
   strictly increase (`ClientView.FollowsExactly`), as they do in every run without a stale copy of the command
   (`ClientSnapshots.FetchedClientConverges`, also with timeouts in between). Together with an open manual review the
   same race turns an OUTCOME_UNKNOWN ledger row into EXECUTING, so that the next command for the same device action is
   admitted without any conclusion (`ProtocolRace.UnresolvedOvertaken`); `ProtocolOutcomes.UnknownLostExactly` gives
   the one step that can do this.
   At-most-once delivery, truthful terminal states and the finality of CONFIRMED, FAILED, REJECTED and EXPIRED rows do
   not depend on any of it: they hold in every run. So does that no selection of events leads a client anywhere but
   forward along the command's trace (`ClientSnapshots.FetchedNeverContradicted`).
2. **An occurrence is named by alarm and raise time.** Raising an alarm again at an old raise time overwrites the
   occurrence and loses its acknowledgement (`AlarmHistory.AcknowledgementLost`; exactly when:
   `AlarmHistory.SettledStable` and, over runs, `AlarmHistory.StoreIsEventSourced`), also under a CLOSED incident
   (`IncidentClosure.ReraiseUndoesClosing`) or between the check and the closing of one
   (`IncidentClosure.CloseRacesReraise`; exactly when: `IncidentClosure.ClosedSettledKeptExactly` and
   `IncidentClosure.LookedAtKeptExactly`).
3. **A cleared field alarm reported again with an old raise time reopens silently**, as the same occurrence and without
   a RAISED event (`AlarmReconciliation.ClearedAlarmReopensSilently`; exactly when:
   `AlarmReconciliation.ClearedAlarmReported`). Mirrored into the alarm store this is a way into item 2: it raises the
   old name again and loses the acknowledgement (`FieldAlarms.SilentReopeningLosesAcknowledgement`; exactly when:
   `FieldAlarms.ReopeningUnsettlesExactly`).
4. **A closed incident blocks its occurrences for good**: no second incident over the same set can be created
   (`IncidentClosure.ClosedSetRefused`; exactly when one can: `IncidentService.CreatedExactly`).
5. **A telemetry row and its cursor are written by two statements without a transaction**: after a crash between them
   rows can follow each other too closely (`TelemetryReporting.TornInsertBreaksSpacing`); so can rows of a source that
   returns to an earlier epoch (`TelemetryReporting.ReturnBreaksSpacing`). Exactly when is said for one event by
   `TelemetryReporting.SpacingKeptExactly`, for runs by `TelemetryReporting.RunSpacedExactly`, for the row after a torn
   write by `TelemetryReporting.NextAfterTornExactly`. A sample that announces a new epoch without a positive time
   separates the in-memory cursor from the durable one (`TelemetryStore.EpochWithoutTimeSeparates`; exactly when:
   `TelemetryStore.SyncedExactly`).
6. **The two coverage functions differ on an invalid window** (`QueryService.InvalidWindowDiffers`; exactly when:
   `QueryService.CoverageTwinsAgreeExactly`), and the two counter segmentations on equal timestamps
   (`QueryService.EqualTimestampsDiffer`; exactly when: `QueryService.TwinSegmentsAgree` together with
   `QueryService.TiesDisagree`).
7. **A published revision that needs a restart never runs**, because nothing changes the running revision at start
   (`ConfigService.DeviceChangeNotRun`; exactly what runs: `ConfigService.RunsExactlyNewestUnchanged`). Draft names can
   collide (`ConfigService.DraftNamesCollide`; exactly when: `ConfigService.DraftFailsExactly`).
8. **A rule report that is rolled back is never repeated**, nor are those behind it in the cycle made
   (`RuleAlarmAgreement.MissedReport`, with a storage fault). In every run a rule agrees with its alarm if and only if
   it stands where the last committed report about it left it (`RuleAlarmAgreement.LastReportDecides`; before any
   report, `RuleAlarmAgreement.FirstAlarmDecides`).
9. **A crash between saving a transition and sending its event loses the event for good**: the ledger shows the outcome
   and no event ever tells it to clients (`ProtocolRace.EventLost`). Exactly when they have been told:
   `ProtocolSending.CertainRowToldExactly`; that never more than the last event is missing:
   `ProtocolSending.AllButTheLastIsSent`.
10. **The revision of a ledger row can fall** (`ProtocolRace.RowRevisionFell`). Exactly when, in every run:
   `ProtocolRevisions.RowFallsExactly`; without a stale copy of the command only among the versions of an unknown
   outcome: `ProtocolRevisions.FreshRowFallsExactly`.

Two facts concern library functions beyond what their callers do with them. `expireCommand` is final where it strikes,
so it can contradict a confirmation that arrives later (`ClientView.ExpiryContradictsConfirmation`; exactly when:
`ClientView.ExpiryAgreesExactly`); the browser calls it for demo commands only (`apps/web/src/stores/site.ts:833-847`).
A rule timer cannot start at stamp 0, the value that also means "no timer" (`RuleService.ZeroStampIsLost`;
`RuleService.ActivatesExactly` and `RuleSamples.SamplesActivateExactly` cover all other
stamps); the service stamps readings with positive times.

## Model

| member | source | states |
|---|---|---|
| CommandLedger.Ledger.Insert | backend-cpp/src/command_ledger.cpp:134-155 | a legacy insertion is ignored when the id is taken, otherwise the row is added and the oldest finished rows above the limit are deleted |
| CommandLedger.Ledger.InsertWithDedup | backend-cpp/src/command_ledger.cpp:157-244 | the idempotent transaction: expired keys dropped, live key answers duplicate or conflict, full protected table refuses and rolls back, otherwise row and key are inserted |
| CommandLedger.InsertionAnswers | backend-cpp/src/command_ledger.cpp:157-244 | each answer of the transaction if and only if: conflict or duplicate for a key that has not expired, refusal in a table full of protected rows, insertion otherwise unless the id stays taken |
| CommandLedger.InsertionLeaves | backend-cpp/src/command_ledger.cpp:157-244 | only an insertion changes the commands; keys that have not expired stay as they are, and no key appears but that of an insertion |
| CommandLedger.Ledger.DeleteOldest | backend-cpp/src/command_ledger.cpp:193-211 | deletes as many finished, certain rows as asked or as there are, and none that is newer than a finished row it leaves |
| CommandLedger.Ledger.FindDedup | backend-cpp/src/command_ledger.cpp:246-262 | finds a key exactly while it has not expired |
| CommandLedger.Ledger.Update | backend-cpp/src/command_ledger.cpp:323-339 | overwrites the row's command and nothing else, and fails without effect exactly when there is no row |
| CommandLedger.Ledger.NonTerminal | backend-cpp/src/command_ledger.cpp:356-371 | every unfinished row once and nothing else, least recently updated first |
| CommandLedger.Ledger.LatestReconciliation | backend-cpp/src/command_ledger.cpp:313-318 | a newest reconciliation of the command, none only if there is none |
| CommandLedger.Ledger.BlockingUnknownFor | backend-cpp/src/command_ledger.cpp:300-321 | answers none only if no unresolved command for the pair lacks a newest reconciliation allowing retry; otherwise names an unresolved one at least as recent as every blocking one |
| LedgerRuns.KeyInsertedOnce | backend-cpp/src/command_ledger.cpp:165-191 | over any run, before its expiry a key is inserted once, every later use is answered from the first request and leaves the commands alone, even after the row was pruned |
| LedgerRuns.KeyFreeAfterExpiry | backend-cpp/src/command_ledger.cpp:165-191 | over any run, once all insertions made under a key have expired it inserts again, whatever became of their commands, if and only if the id is free and the table is not full of protected rows |
| LedgerRuns.DeletesOnlyFinished | backend-cpp/src/command_ledger.cpp:193-240 | an outcome other than Inserted changes no command; only CONFIRMED, FAILED, REJECTED and EXPIRED rows are ever deleted; only an overwrite changes a row that stays |
| LedgerRuns.ProtectedRowSurvives | backend-cpp/src/command_ledger.cpp:380-398 | a row survives any run that never overwrites it with a discardable state, unchanged if it is not overwritten |
| LedgerRuns.IdempotentCapacity | backend-cpp/src/command_ledger.cpp:193-211 | Inserted never raises the row count above the larger of its old value and the limit |
| LedgerRuns.LegacyCapacity | backend-cpp/src/command_ledger.cpp:380-398 | a legacy insertion ends within the limit if and only if enough rows may be discarded |
| ProtocolSafety.StepKeeps | backend-cpp/src/application.cpp:1043-1455 | every atomic section of admission, queue, worker, feedback, review, pruning, crash and restart keeps the protocol invariant |
| ProtocolSafety.RunInv | backend-cpp/src/application.cpp:1043-1455 | the invariant holds in every reachable state of every interleaving |
| ProtocolSafety.TerminalIsLast | backend-cpp/src/application.cpp:1016-1019 | the terminal states are exactly those that no transition leaves, and all of them but OUTCOME_UNKNOWN may be discarded |
| ProtocolTheorems.AdapterInvokedAtMostOnce | backend-cpp/src/application.cpp:1190-1347 | in every reachable state the adapter has been invoked at most once for any admission |
| ProtocolOutcomes.DeliveredOncePerRow | backend-cpp/src/application.cpp:1190-1347 | while the ledger row of a command id exists no second section ever hands it to the adapter, and the row belongs to one admission |
| ProtocolTheorems.TerminalStatesAreTruthful | backend-cpp/src/application.cpp:1276-1431 | a ledger row in REJECTED or EXPIRED means the adapter was never invoked; CONFIRMED means exactly one applied delivery followed by a confirmation; FAILED means a refused or failed one |
| ProtocolTheorems.OutcomeSaysWhatHappened | backend-cpp/src/application.cpp:1318-1378 | in every run the final event of an admission is decided by what crossed the adapter, each of CONFIRMED, FAILED and OUTCOME_UNKNOWN with an if-and-only-if |
| ProtocolTheorems.ThreadsNeverStranded | backend-cpp/src/application.cpp:1276-1431 | every live thread's next section, also the sending of an event, is enabled whatever the environment answers: its record is in memory and unfinished and its ledger row exists |
| ProtocolTheorems.NeverDeliveredAgain | backend-cpp/src/application.cpp:1276-1347 | once no thread serves an admission, its deliveries and events are final for the rest of the run |
| ProtocolTheorems.CrashNeverReplays | backend-cpp/src/application.cpp:1043-1073 | nothing admitted before a crash reaches the adapter after it |
| ProtocolTheorems.RecoveredIsUnknown | backend-cpp/src/application.cpp:1052-1071 | a row found unfinished at restart becomes OUTCOME_UNKNOWN in ledger and memory and has no thread |
| ProtocolTheorems.OneActionPerKeyWindow | backend-cpp/src/application.cpp:1217-1233 | two admissions under one key lie in disjoint windows, across crashes and pruning, and each invokes the adapter at most once |
| ProtocolFreshness.RunCurrent | backend-cpp/src/application.cpp:1380-1431 | in every run without a stale copy of a command its memory, ledger and saved transitions stay in step: revisions count the transitions, and their events, sent or not, carry consecutive revisions |
| ProtocolFreshness.FreshIsUndisturbed | backend-cpp/src/application.cpp:1433-1455 | where no stale copy of a command happens no stale evidence is saved for it |
| ProtocolFinality.RegressesExactlyOnStaleCopy | backend-cpp/src/application.cpp:1190-1247 | in every run an in-memory revision falls at exactly those steps that copy an older ledger row over memory |
| ProtocolOutcomes.UnknownLostExactly | backend-cpp/src/application.cpp:1433-1455 | in every run an OUTCOME_UNKNOWN row is kept by every step, and loses its state at exactly those that save evidence added to a record which showed another state |
| ProtocolOutcomes.UnknownOutcomeSurvives | backend-cpp/src/command_ledger.cpp:380-398 | an OUTCOME_UNKNOWN row survives all later steps, prunes, crashes and restarts as the same admission for the same target, if and only if no such evidence is saved over it |
| ProtocolOutcomes.TerminalStateFinal | backend-cpp/src/application.cpp:1389-1392 | in every run a CONFIRMED, FAILED, REJECTED or EXPIRED ledger row never changes at all while it exists |
| ProtocolFinality.CachedRecordAdvances | backend-cpp/src/application.cpp:1389-1397 | in every run a cached record's revision never falls and its terminal state never changes, except where its own lagging row is copied over it |
| ProtocolOutcomes.UnresolvedBlocksUntilConcluded | backend-cpp/src/application.cpp:1173-1179 | while a pair has an unknown outcome no idempotent request for it is admitted until a newest reconciliation has a conclusion and allows retry, unless stale evidence overwrote that very command |
| ProtocolOutcomes.RunConclusions | backend-cpp/src/application.cpp:513-516 | in every reachable state a reconciliation that allows retry is conclusive |
| ProtocolOutcomes.EventsTellTheLedger | backend-cpp/src/application.cpp:1418 | in every run the saved transitions of a command form a legal trace; once it ends in a certain outcome the ledger row, while it exists, shows the same, and in an unknown one unless stale evidence was saved |
| ProtocolSending.SentTellsTheLedger | backend-cpp/src/application.cpp:1418-1419 | the same of the events that clients have been sent |
| ProtocolSending.AllButTheLastIsSent | backend-cpp/src/application.cpp:1418-1419 | in every reachable state clients have been sent every saved transition, or all but the last, which is the next thing its live thread sends or was lost in a crash |
| ProtocolSending.LostForGood | backend-cpp/src/application.cpp:1418-1419 | an event lost in a crash is never sent, and nothing more of its admission is |
| ProtocolSending.CertainRowToldExactly | backend-cpp/src/application.cpp:1418-1419 | in every run a certain outcome in the ledger has been told to clients if and only if its event is neither pending nor lost |
| ProtocolRevisions.RowFallsExactly | backend-cpp/src/application.cpp:1418-1455 | in every run the revision of a row falls at exactly those writes of a transition, its timing or evidence whose record is older than the row |
| ProtocolRevisions.FreshRowFallsExactly | backend-cpp/src/application.cpp:1418-1455 | without a stale copy of the command it falls if and only if a transition is saved after evidence for its unknown outcome, or evidence after later evidence, and the outcome stays unknown |
| ProtocolOutcomes.UnfinishedIsServed | backend-cpp/src/application.cpp:1276-1431 | while service runs every unfinished row has a thread whose next section is enabled, unless stale evidence was saved for it |
| ProtocolRequests.AdmitsExactly | backend-cpp/src/application.cpp:1190-1247 | in every run a request begins an admission if and only if no record, no live idempotency key and no table full of protected rows stands against it, and begins it with exactly what was requested |
| ProtocolRequests.RepeatsAnswered | backend-cpp/src/application.cpp:1192-1233 | a request not admitted starts nothing and changes no row; memory then holds the ledger row that answers it, found by its id or by its key |
| ProtocolRequests.RecordsAreRequests | backend-cpp/src/application.cpp:1075-1090 | in every reachable state the ledger row, the record in memory and the snapshot being saved ask for the device action that the admission requested, until issue time plus the time to live requested |
| ProtocolRequests.TransitionsStamp | backend-cpp/src/application.cpp:1387-1411 | whatever section begins a transition, the record takes the time of the section, the next revision and the number of the next event, and keeps what was requested |
| ProtocolRequests.DecidesByDeadline | backend-cpp/src/application.cpp:1289-1295 | in every run the worker ends a command as EXPIRED if and only if the deadline set by its admission has passed, as REJECTED if and only if it is in time and the domain unavailable, and accepts it otherwise |
| ProtocolRequests.DeliveredInTime | backend-cpp/src/application.cpp:1288-1311 | whenever a command is handed to the adapter, its worker had accepted it, under the same admission, no later than the admission time plus the time to live requested |
| ProtocolRequests.QuarantineStopsDelivery | backend-cpp/src/platform/command_service.cpp:114-142 | in every run the adapter is quarantined exactly when a bounded driver has come back late since the last start, and then no command is handed to it |
| ProtocolRace.RejectionUndone | backend-cpp/src/application.cpp:1226-1231 | a reachable state in which a rejected command becomes ISSUED again in memory at a lower revision, with no thread left |
| ProtocolRace.RevisionRepeated | backend-cpp/src/application.cpp:1226-1231 | a reachable confirmed command two of whose events carry the same revision |
| ProtocolRace.UnresolvedOvertaken | backend-cpp/src/application.cpp:1433-1455 | a reachable state in which an unknown outcome has been overwritten and the next request for the pair is admitted without a conclusion |
| ProtocolRace.RowRevisionFell | backend-cpp/src/application.cpp:1433-1455 | a reachable row whose revision falls from 5 to 4 when the transition is saved after its evidence |
| ProtocolRace.EventLost | backend-cpp/src/application.cpp:1418-1419 | a reachable state after a restart with a REJECTED row whose event was never sent |
| CommandRuntime.ApplicationService.PruneCommandCacheLocked | backend-cpp/src/application.cpp:1025-1041 | evicts the least recently updated finished records, exactly down to the target or until none is left, never an unfinished or unknown one |
| CommandRuntime.ApplicationService.IssueLocked | backend-cpp/src/application.cpp:1191-1246 | the locked admission is the protocol's admission section, up to eviction of finished records |
| CommandRuntime.ApplicationService.IssueIdempotent | backend-cpp/src/application.cpp:1173-1246 | a held request changes nothing and names an unresolved command; an unheld one finds nothing blocking and is the protocol's admission |
| CommandRuntime.ApplicationService.TransitionLocked | backend-cpp/src/application.cpp:1387-1411 | the in-memory half of a transition is the protocol's, and a terminal record is not overwritten with another state |
| CommandRuntime.ApplicationService.AppendCommandEvidence | backend-cpp/src/application.cpp:1433-1455 | evidence raises the revision in memory and ledger, never the state, and does nothing for a record not in memory |
| CommandRuntime.ApplicationService.ReconcileCommand | backend-cpp/src/application.cpp:497-531 | each answer if and only if: unknown to memory and ledger, not an unknown outcome, inconclusive with a retry allowed, done otherwise; a reconciliation done is the protocol's review sections, and no retry is ever allowed without a conclusion |
| CommandRuntime.ReviewLeads | backend-cpp/src/application.cpp:497-531 | the protocol's review sections may be taken one after the other exactly for an unknown outcome and a conclusion that may allow what it allows, and lead to what a reconciliation leaves |
| CommandRuntime.ApplicationService.CommandV2 | backend-cpp/src/application.cpp:473-495 | a request for a command is answered with the record in memory, or else the ledger row |
| CommandRuntime.ApplicationService.Transition | backend-cpp/src/application.cpp:1380-1431 | undisturbed, a transition moves memory and ledger alike and announces the new revision; a late observation announces nothing and keeps the state |
| CommandRuntime.ApplicationService.RestoreCommandLedger | backend-cpp/src/application.cpp:1043-1073 | restart gives every unfinished row an unknown outcome and no other row, and memory holds the recent and recovered rows |
| CommandRuntime.RecoveryOrderIrrelevant | backend-cpp/src/application.cpp:1055-1071 | recovering rows one by one in any order comes to the same table |
| CommandRuntime.RecoveryFillsMemory | backend-cpp/src/application.cpp:1055-1071 | recovering rows one by one in any order puts the recovered ones into memory, over what was there |
| CommandRuntime.RestartResumesExactly | backend-cpp/src/application.cpp:1052-1073 | after a crash all unfinished rows can be recovered in any order, and service can resume if and only if none was left out |
| CommandService.CommandService.Execute | backend-cpp/src/platform/command_service.cpp:114-180 | the adapter is called exactly when not quarantined and contracted; each certainty if and only if, so that an exception or an overrun deadline is never reported as not sent; a bounded driver that overruns its deadline is quarantined for good |
| CommandService.AppliedIsEarned | backend-cpp/src/platform/command_service.cpp:125-180 | APPLIED is claimed if and only if the adapter was called, answered so without an exception and kept a deadline it was bound to |
| CommandService.NotSentExactly | backend-cpp/src/platform/command_service.cpp:116-153 | NOT_SENT is answered if and only if the adapter was not called, or a supervised driver that kept its deadline says so itself |
| CommandService.RejectionIsTheDrivers | backend-cpp/src/platform/command_service.cpp:125-142 | a rejection is answered if and only if a called driver that kept its deadline says so itself |
| CommandService.OpenExactly | backend-cpp/src/platform/command_service.cpp:130-180 | POSSIBLY_APPLIED is answered if and only if a called driver threw, overran its deadline or says so, or a simulation failed or was late |
| CommandService.ViolatedExactly | backend-cpp/src/platform/command_service.cpp:137-142 | the call quarantines the adapter if and only if it was made, to a bounded driver that came back late |
| CommandService.ExecuteIsDelivery | backend-cpp/src/platform/command_service.cpp:114-180 | the supervised call is the protocol's invoke and return sections, or its not-sent branch |
| ClientView.SelectionNeverContradicts | packages/domain/src/command-state.ts:40-115 | any duplicated, reordered or lossy selection of a legal trace, also one whose revisions repeat, keeps the client at TIMEOUT or at a trace position reached only forward |
| ClientView.TerminalViewIsTrue | packages/domain/src/command-state.ts:40-115 | from any unfinished view and over any legal trace, while no local expiry is due, a terminal client state is the trace's final state |
| ClientView.TerminalViewIsFinal | packages/domain/src/command-state.ts:89-91 | no message and no clock moves a client out of a terminal state |
| ClientView.DecidesExactly | packages/domain/src/command-state.ts:40-96 | each decision about a message, and each reason for refusing one, if and only if |
| ClientView.TakenSays | packages/domain/src/command-state.ts:64-115 | a message taken sets state and numbers announced, never moves the time of observation back, and with comparable revisions always raises it |
| ClientView.AllowsExactly | packages/domain/src/command-state.ts:10-22 | the client allows exactly the backend's transitions, a failure, expiry, unknown outcome or timeout of any unfinished command, two shortcuts over missed messages, and anything but ISSUED after a timeout |
| ClientView.ClocksExactly | packages/domain/src/command-state.ts:118-137 | an unfinished command shows TIMEOUT or EXPIRED exactly when the time since its last change, or its deadline, has been reached, and nothing else of it changes |
| ClientView.FullDeliveryConverges | packages/domain/src/command-state.ts:40-137 | if the revisions strictly increase, full in-order delivery from any snapshot, with timeouts in between, ends in the backend's terminal state |
| ClientView.AdvancesExactlyOnNewRevision | packages/domain/src/command-state.ts:45-52 | the next event of a trace is taken if and only if its revision is greater than the client's |
| ClientView.FollowsExactly | packages/domain/src/command-state.ts:45-52 | a client that sees every event of a legal trace in order shows each state in turn if and only if the revisions strictly increase |
| ClientDelivery.ConvergesExactly | packages/domain/src/command-state.ts:40-137 | for any revisions and any timeouts in between, a client that sees every event of a finished trace in order from its admission on ends in the trace's terminal state if and only if the last revision exceeds those of all events it did not refuse for its state, and a CONFIRMED finds it in TIMEOUT or at an APPLIED that came through |
| ClientDelivery.PromptClientConvergesExactly | packages/domain/src/command-state.ts:40-115 | without timeouts, if and only if the last revision exceeds all before it, or only the first two where ACCEPTED was refused; for CONFIRMED also ACCEPTED's and APPLIED's must exceed all before them |
| ClientDelivery.DeliveredClientAgreesExactly | packages/domain/src/command-state.ts:40-137 | in every run, once a certain outcome has been sent, such a client agrees with the command's ledger row, while it exists, if and only if the revisions let the last event through |
| ClientView.ExpiryAgreesExactly | packages/domain/src/command-state.ts:118-124 | folded in order with a whole trace of increasing revisions, the expiry function agrees with it if and only if the trace ends EXPIRED or its last event comes before the first expiry that is due |
| ClientView.ExpiryContradictsConfirmation | packages/domain/src/command-state.ts:118-124 | a confirmed trace that leaves such a client at EXPIRED |
| ClientView.ClientAgreesWithLedger | packages/domain/src/command-state.ts:40-137 | end to end in every run: a certain terminal client state is the state of the command's ledger row while it exists, an unknown one too unless stale evidence was saved |
| ClientView.FinishedSnapshotAgrees | packages/domain/src/command-state.ts:89-91 | a client that starts from a finished record, also one a restart made, agrees with the ledger while the row exists; with an unknown outcome as long as no stale evidence is saved |
| ProtocolPositions.RunPlaced | backend-cpp/src/application.cpp:1380-1455 | in every run each version of a command with a known outcome, in ledger, in memory and about to be saved, is at the saved transition it names as its last one, the one in memory also at the one about to be saved |
| ClientSnapshots.FetchedIsPlaced | backend-cpp/src/application.cpp:477-485 | in every run, stale copies included, a fetched record with a known outcome stands at the position of the command's trace that it names, at most one event past those sent |
| ClientSnapshots.FetchedNeverContradicted | backend-cpp/src/application.cpp:477-485 | in every run a client that fetches such a record and folds any selection of the events sent is at TIMEOUT or at or after the fetched position |
| ClientSnapshots.FetchedStands | backend-cpp/src/application.cpp:477-485 | in a run without a stale copy of it, a fetched record with a known outcome stands at the end of the command's saved transitions, or of the one about to be saved, and at most one event past those sent |
| ClientSnapshots.FetchedClientConverges | backend-cpp/src/application.cpp:477-485 | in such a run a client that fetches such a record and receives all events sent of the command in order, the last one terminal, ends in the state of the ledger row |
| ClientView.StaleCopyStrandsClient | packages/domain/src/command-state.ts:45-52 | after one stale copy a client that sees every event in order stays at RECEIVED while the ledger says CONFIRMED |
| RuleService.RuleService.Configure | backend-cpp/src/platform/rule_service.cpp:40-56 | the same revision changes nothing; another replaces the rules by the usable definitions and forgets all states |
| RuleService.RuleService.Evaluate | backend-cpp/src/platform/rule_service.cpp:68-98 | states and transitions of an evaluation are those of the per-rule specification, in rule order |
| RuleService.RuleService.EvaluateRule | backend-cpp/src/platform/rule_service.cpp:73-96 | one rule's branches with the whole new state; an abnormal rule becomes NORMAL exactly beyond the recovery threshold and UNKNOWN exactly at an unusable sample, a normal one ACTIVE only beyond the trigger, and a transition is announced exactly when the condition changes |
| RuleService.AnnouncementsLegal | backend-cpp/src/platform/rule_service.cpp:77-95 | a rule's announcements follow the NORMAL, ACTIVE, UNKNOWN graph without repeats and end at its condition |
| RuleService.ActivatesExactly | backend-cpp/src/platform/rule_service.cpp:93-95 | NORMAL to ACTIVE happens at a reading if and only if it ends an unbroken block of triggering readings begun at least the duration earlier |
| RuleService.AbnormalUntilRecovery | backend-cpp/src/platform/rule_service.cpp:88-92 | an abnormal rule stays abnormal exactly as long as no usable reading is past the recovery threshold |
| RuleService.UnknownExactlyBehindGate | backend-cpp/src/platform/rule_service.cpp:79-91 | while abnormal, UNKNOWN means exactly that the last reading was behind the gate |
| RuleService.ZeroStampIsLost | backend-cpp/src/platform/rule_service.cpp:94-95 | of the function alone: a block that begins at stamp 0 is not timed from its beginning |
| RuleSamples.SamplesActivateExactly | backend-cpp/src/platform/rule_service.cpp:80-95 | in the service a rule goes from NORMAL to ACTIVE at a sample if and only if that sample ends an unbroken block, as long as the duration configured, of samples of sufficient quality, each numeric and beyond the trigger in the rule's direction |
| RuleSamples.SamplesRecoverExactly | backend-cpp/src/platform/rule_service.cpp:80-92 | an abnormal rule becomes NORMAL at a sample if and only if that is usable and beyond the recovery threshold, UNKNOWN if and only if it is not usable, and is ACTIVE otherwise |
| RuleSamples.AbnormalUntilBeyondRecovery | backend-cpp/src/platform/rule_service.cpp:88-92 | an abnormal rule stays so exactly as long as no sample is beyond the recovery threshold |
| RuleSamples.LatestExactly | backend-cpp/src/platform/rule_service.cpp:71 | of several samples of one point the last counts, and none is found exactly when there is none |
| RuleSamples.OnlyItsSamplesCount | backend-cpp/src/platform/rule_service.cpp:75-76 | evaluations without a sample of its point change nothing about a rule |
| RuleSamples.AnnouncesChanges | backend-cpp/src/platform/rule_service.cpp:64-96 | a rule announces its new condition at exactly the samples that change it, with their time and the configuration revision |
| RuleSamples.DisabledIsNormal | backend-cpp/src/platform/rule_service.cpp:74 | a disabled rule shows NORMAL and announces nothing |
| RuleSamples.InRuleOrder | backend-cpp/src/platform/rule_service.cpp:72-97 | the transitions of one evaluation come in the order of the rules, at most one from each |
| RuleSamples.RulesAreDefinitions | backend-cpp/src/platform/rule_service.cpp:44-55 | the rules are exactly the definitions with a rule, device and point name, in their order, as they spell them; without a recovery threshold the trigger serves, and a negative duration is none |
| RuleRuns.EvaluatesAlone | backend-cpp/src/platform/rule_service.cpp:72-97 | with distinct rule ids a rule depends only on its own state and the last sample of its point |
| RuleRuns.RuleIsItsReadings | backend-cpp/src/platform/rule_service.cpp:68-98 | between configures the service's state and transitions of a rule are the fold of that rule's readings |
| RuleRuns.BatchIsOneByOne | backend-cpp/src/platform/replay_service.cpp:22-24 | a batch with one sample per point gives every rule the same state and transitions as its samples one at a time in any order |
| RuleRuns.Replay | backend-cpp/src/platform/replay_service.cpp:23-24 | a replay session's transitions are those of a freshly configured service fed one sample at a time |
| AlarmService.AlarmService.LatestOpenOccurrence | backend-cpp/src/platform/alarm_service.cpp:25 | the newest occurrence of the alarm that is not NORMAL, none only if there is none |
| AlarmService.AlarmService.Observe | backend-cpp/src/platform/alarm_service.cpp:28-30 | a report raises, changes or confirms the alarm's occurrence together with its event and outbox row, or is rolled back |
| AlarmService.AlarmService.Acknowledge | backend-cpp/src/platform/alarm_service.cpp:32 | acknowledges once, with event and outbox row, or changes nothing |
| AlarmService.AlarmService.SyncLegacyAlarm | backend-cpp/src/platform/alarm_service.cpp:31 | mirrors a field alarm's condition and, when an occurrence is at hand, its acknowledgement |
| AlarmHistory.RunOneOpen | backend-cpp/src/platform/alarm_service.cpp:25-30 | in every reachable state an alarm has at most one occurrence that is not NORMAL |
| AlarmHistory.FaithfulExactlyWhenFresh | backend-cpp/src/platform/alarm_service.cpp:25-32 | a transaction keeps an occurrence equal to the replay of its events if and only if it does not raise that very name again |
| AlarmHistory.CommitsWhenFresh | backend-cpp/src/platform/alarm_service.cpp:27-32 | a transaction about such an occurrence, or one that raises a fresh name, never fails on an event key |
| AlarmHistory.StoreIsEventSourced | backend-cpp/src/platform/alarm_service.cpp:25-32 | over any run the outbox mirrors the events, and an occurrence is the replay of its events if and only if its name was never raised again; then they carry revisions 1 to its own, the last shows its state, and acknowledgement is never lost |
| AlarmHistory.ReplaySettles | backend-cpp/src/platform/alarm_service.cpp:28-32 | in replayable events acknowledgement and NORMAL are never undone |
| AlarmHistory.SettledStable | backend-cpp/src/platform/alarm_service.cpp:28-32 | NORMAL and acknowledged stays so if and only if the transaction does not raise that very name again |
| AlarmHistory.SyncIdempotent | backend-cpp/src/platform/alarm_service.cpp:31 | mirroring the same alarm twice adds nothing |
| AlarmHistory.AcknowledgementLost | backend-cpp/src/platform/alarm_service.cpp:28-29 | a run from the empty store in which raising again at an old raise time loses the acknowledgement and repeats revision 1 |
| AlarmStamps.AcknowledgementsAreReal | backend-cpp/src/platform/alarm_service.cpp:32 | in every run an acknowledged occurrence was acknowledged by the operator and at the time it names, and has been since |
| AlarmStamps.NormalIsReported | backend-cpp/src/platform/alarm_service.cpp:28-30 | in every run a normal occurrence was open until a report, of the time it names, said its alarm is normal, and has been normal since |
| AlarmStamps.OccurrencesAreRaised | backend-cpp/src/platform/alarm_service.cpp:28-30 | in every run an occurrence was raised by a report of the time in its name, when its alarm was not open |
| AlarmStamps.EventSays | backend-cpp/src/platform/alarm_service.cpp:27-32 | a transaction writes at most one event, which says of which occurrence, when, by whom, and how the occurrence stands after it |
| RuleAlarmAgreement.RulesAndAlarmsAgree | backend-cpp/src/application.cpp:1870-1876 | after any evaluations and other transactions an enabled rule none of whose reports was missed has the condition of its alarm's only open occurrence, NORMAL exactly when there is none, whatever became of other rules' reports |
| RuleAlarmAgreement.InstalledSystemAgrees | backend-cpp/src/application.cpp:1870-1876 | so they agree in every state reached from a fresh installation before the next configure or missed report |
| RuleAlarmAgreement.LastReportDecides | backend-cpp/src/application.cpp:1872-1876 | in every run, whatever reports were rolled back or given up, a rule agrees with its alarm if and only if its condition is the one it had when a report about it was last committed |
| RuleAlarmAgreement.FirstAlarmDecides | backend-cpp/src/application.cpp:1872-1876 | where no report about it was committed yet, if and only if its condition is the one its alarm had at first |
| RuleAlarmAgreement.LastMoveDecides | backend-cpp/src/application.cpp:1872-1876 | a committed report of a rule's last move brings the two together; a missed one takes apart a rule and an alarm that agreed before it, until the rule moves again |
| RuleAlarmAgreement.MissedReport | backend-cpp/src/application.cpp:2018-2025 | a run from installation on in which a storage fault rolls back a report, and its rule stays ACTIVE without an alarm although the storage has recovered |
| RuleAlarmAgreement.ConfigureAgreesExactlyWhenClosed | backend-cpp/src/platform/rule_service.cpp:55 | a configure keeps agreement if and only if no enabled rule's alarm is open |
| RuleAlarmAgreement.FreshReportsCommit | backend-cpp/src/application.cpp:1872-1875 | with fresh raise names every report of an evaluation is committed |
| RuleAlarmAgreement.FreshCycleMissesNothing | backend-cpp/src/application.cpp:1872-1876 | so a cycle that raises only fresh names misses no report of any rule, unless the storage fails |
| IncidentService.IncidentService.Create | backend-cpp/src/platform/incident_service.cpp:127-171 | answers an unclosed incident over the same occurrences, makes a new one, or fails without effect |
| IncidentService.IncidentService.Transition | backend-cpp/src/platform/incident_service.cpp:173-214 | the status graph with optimistic revision check and event, or no change |
| IncidentService.TransitionKeepsNumbered | backend-cpp/src/platform/incident_service.cpp:173-214 | a transition is refused if and only if its revision or action does not fit, and events carry revisions 1 to the incident's |
| IncidentService.ActionsExactly | backend-cpp/src/platform/incident_service.cpp:173-214 | an action is carried out if and only if it leads on from the incident's status at the revision expected, and then changes status, revision and events of that incident as it must and nothing else |
| IncidentService.CreatedExactly | backend-cpp/src/platform/incident_service.cpp:127-171 | an incident is created if and only if its name is free and no incident, open or closed, has the same occurrences |
| IncidentService.ClosedSetNeverServedAgain | backend-cpp/src/platform/incident_service.cpp:140-163 | over the occurrences of a closed incident no incident can be created again |
| IncidentClosure.ClosedSetRefused | backend-cpp/src/platform/incident_service.cpp:140-163 | a reachable closed incident over which every creation is refused |
| IncidentClosure.ClosedSettledKeptExactly | backend-cpp/src/platform/alarm_service.cpp:28-32 | an alarm transaction keeps the occurrences of CLOSED incidents settled if and only if it does not raise the name of one of them again |
| IncidentClosure.LookedAtKeptExactly | backend-cpp/src/application.cpp:588-597 | the same for the occurrences an outstanding close request has looked at |
| IncidentClosure.ClosedMeansSettled | backend-cpp/src/application.cpp:581-606 | in every reachable state every occurrence of a CLOSED incident is NORMAL and acknowledged, although checked one by one before, whatever other alarms do |
| IncidentClosure.IncidentsNumbered | backend-cpp/src/platform/incident_service.cpp:98-214 | in every reachable state, whatever alarms do, events are numbered 1 to n and there is one incident per occurrence set |
| IncidentClosure.IncidentsLive | backend-cpp/src/platform/incident_service.cpp:173-214 | in every reachable state an incident stands where its events have led it, from OPEN on and from each to the next by an action that leads there |
| IncidentClosure.ReraiseUndoesClosing | backend-cpp/src/application.cpp:588-599 | a reachable CLOSED incident over an active occurrence, whose alarm was raised again at its old raise time |
| IncidentClosure.CloseRacesReraise | backend-cpp/src/application.cpp:588-599 | an incident closed over an occurrence that was raised again between the check and the closing |
| AlarmReconciliation.AlarmRegister.Reconcile | backend-cpp/src/application.cpp:1507-1593 | the records, occurrence numbers and RAISED events after a batch |
| AlarmReconciliation.AlarmRegister.Acknowledge | backend-cpp/src/application.cpp:1919-1934 | an active alarm is acknowledged, an acknowledged one keeps its first acknowledgement, a cleared or unknown one is refused |
| AlarmReconciliation.OpenFieldAlarmClearedExactly | backend-cpp/src/application.cpp:1530-1593 | an open field alarm is cleared if and only if the batch reports it cleared or omits it while its device is complete, and keeps occurrence and acknowledgement |
| AlarmReconciliation.OccurrenceContinues | backend-cpp/src/application.cpp:1530-1593 | over any number of batches that do not clear it an open field alarm stays the same occurrence and never loses its acknowledgement |
| AlarmReconciliation.PlatformAlarmsStay | backend-cpp/src/application.cpp:1578-1580 | alarms of the platform are never cleared by absence |
| AlarmReconciliation.ReportedExactly | backend-cpp/src/application.cpp:1522-1573 | state, occurrence, acknowledgement, times and announcement of every reported alarm, told by what was on record; nobody's acknowledgement is invented |
| AlarmReconciliation.ClearedByAbsenceKeeps | backend-cpp/src/application.cpp:1575-1590 | an alarm not reported keeps all but state and clearing time if its absence clears it, and everything if not |
| AlarmReconciliation.OnlyReportsAppear | backend-cpp/src/application.cpp:1515-1566 | after a batch the alarms on record are those before and those reported |
| AlarmReconciliation.SerialsStayFree | backend-cpp/src/application.cpp:1533-1552 | a new occurrence is numbered as none on record ever was |
| AlarmReconciliation.ClearedAlarmReported | backend-cpp/src/application.cpp:1530-1573 | a cleared alarm reported again opens, as a new announced occurrence if and only if it was raised after all that is known of the old one |
| AlarmReconciliation.ClearedAlarmReopensSilently | backend-cpp/src/application.cpp:1530-1573 | three batches, at any times, after which a cleared alarm is open again under its old occurrence without an event |
| FieldAlarms.ReopeningUnsettlesExactly | backend-cpp/src/application.cpp:1868-1869 | when a cleared field alarm is reported open again, mirroring it undoes a settled occurrence of it if and only if it is mirrored under that raise time and the report commits; if that is the raise time on record, nothing was announced |
| FieldAlarms.AcknowledgementMirrored | backend-cpp/src/platform/alarm_service.cpp:31 | an operator's acknowledgement of a field alarm reaches the alarm's open occurrence in the store, in that operator's name if nobody was first |
| FieldAlarms.SilentReopeningLosesAcknowledgement | backend-cpp/src/application.cpp:1868-1869 | a run of register and store from empty in which a silent reopening loses an acknowledgement |
| AcquisitionService.FullReplaceExactlyWhenNoneFailed | backend-cpp/src/platform/acquisition_service.cpp:167 | for a validated batch the size comparison holds if and only if no device failed |
| AcquisitionService.ReplaceDeviceValues | backend-cpp/src/platform/acquisition_service.cpp:62-83 | complete devices take their incoming entry, others keep theirs, every failed device is degraded |
| AcquisitionService.ReplaceTelemetryValues | backend-cpp/src/platform/acquisition_service.cpp:85-108 | complete devices take their incoming points, others keep theirs, points of failed devices become stale with the reason added once |
| AcquisitionService.ReplaceCommunicationValues | backend-cpp/src/platform/acquisition_service.cpp:110-132 | complete devices take their incoming link, others keep theirs, every failed device's link is offline |
| AcquisitionService.LastExactly | backend-cpp/src/platform/acquisition_service.cpp:62-108 | of several entries with one key the last counts |
| AcquisitionService.CompleteOnly | backend-cpp/src/platform/acquisition_service.cpp:144-149 | of an incoming batch the points of complete devices are taken, in their order |
| AcquisitionService.StaleSays | backend-cpp/src/platform/acquisition_service.cpp:96-105 | a point of a failed device is shown stale, with the batch's words about the failure, its reason added once, and otherwise as it was |
| AcquisitionService.DegradedSays | backend-cpp/src/platform/acquisition_service.cpp:74-81 | a failed device is shown degraded, with the failure, and otherwise as it is known |
| AcquisitionService.OfflineSays | backend-cpp/src/platform/acquisition_service.cpp:122-130 | the link of a failed device is shown offline and bad, with the failure, and otherwise as it is known |
| AcquisitionService.Normalize | backend-cpp/src/platform/acquisition_service.cpp:134-179 | without failures a validated batch replaces everything; with failures complete devices carry its entries, every known entry of a failed device survives, its points stale, its link offline, all its device entries degraded, and nothing else of it appears |
| TelemetryStore.TelemetryService.InsertTelemetry | backend-cpp/src/historian.cpp:250-291 | inserts the row once and moves the durable cursor to another epoch or forward, or refuses |
| TelemetryStore.TelemetryService.PersistTelemetry | backend-cpp/src/application.cpp:1595-1625 | a poll admits exactly the samples past their cursor and period, in order, until one is refused |
| TelemetryStore.DueIsStored | backend-cpp/src/application.cpp:1606-1623 | a sample that can be stored is stored if and only if it begins a new epoch or is later than its cursor by a period; nothing else changes, and no other point is touched |
| TelemetryStore.DurableFollows | backend-cpp/src/historian.cpp:270-291 | a stored sample moves the durable cursor if and only if it is of another epoch or not before it |
| TelemetryStore.UnstorableRefused | backend-cpp/src/application.cpp:1606-1623 | a sample that cannot be stored is refused exactly when it is due, and leaves no row and no durable cursor |
| TelemetryStore.PollsInOrder | backend-cpp/src/application.cpp:1598-1624 | a poll takes its samples in order, up to one that is refused |
| TelemetryStore.SyncedExactly | backend-cpp/src/application.cpp:1606-1623 | memory and durable cursor stay equal with every sample except one that changes the epoch without a positive time |
| TelemetryStore.EpochWithoutTimeSeparates | backend-cpp/src/application.cpp:1606-1623 | such a sample, after which they differ |
| TelemetryStore.PollKeepsSynced | backend-cpp/src/platform/quality_service.cpp:77-82 | with normalized, positive sample times any poll keeps them equal |
| TelemetryStore.RestartChangesNothing | backend-cpp/src/historian.cpp:480-495 | after a restart any later samples are admitted and stored exactly as without it |
| TelemetryReporting.RunSpacedExactly | backend-cpp/src/application.cpp:1606-1623 | over any run with restarts and torn writes, rows of registered points stay a period apart within each epoch if and only if no event writes a row within a period of one its cursor does not know of |
| TelemetryReporting.RunKeepsSpacing | backend-cpp/src/application.cpp:1613-1620 | with whole writes that holds in every run in which no sample belongs to an epoch its point has left by a cursor reset |
| TelemetryReporting.SpacingKeptExactly | backend-cpp/src/application.cpp:1606-1620 | one event keeps the spacing if and only if the row it writes is a period younger than the rows its cursor does not know of |
| TelemetryReporting.SpacedCount | backend-cpp/src/platform/query_service.cpp:21-29 | a window holds at most as many well-spaced rows as coverage expects |
| TelemetryReporting.CoverageBounded | backend-cpp/src/application.cpp:668-669 | in such runs a report over all epochs of a point, which reads the newest 10000 rows at most, receives at most the expected rows for each epoch in its window, and with one epoch its coverage is exactly rows read over expected rows |
| TelemetryReporting.ReturnBreaksSpacing | backend-cpp/src/application.cpp:1607-1609 | a source returning to an epoch gets two rows of it 1 ms apart |
| TelemetryReporting.TornInsertBreaksSpacing | backend-cpp/src/historian.cpp:261-290 | a run in which after a crash between row and cursor a row follows 1 ms after another |
| TelemetryReporting.NextAfterTornExactly | backend-cpp/src/historian.cpp:261-290 | after a torn write the next row of the epoch keeps the spacing if and only if it is a period younger than the orphan |
| QueryService.Coverage | backend-cpp/src/platform/query_service.cpp:21-29 | expected, received and good counts and the clamped ratio |
| QueryService.CoverageSays | backend-cpp/src/platform/query_service.cpp:21-29 | expected is the number of sampling times in the window, good the number of GOOD rows, the ratio that of rows to expected but at most one; an empty window has none |
| QueryService.ClampFiresExactly | backend-cpp/src/platform/query_service.cpp:24-28 | the ratio is unclamped if and only if there are no more rows than expected |
| QueryService.CoverageTwinsAgreeExactly | packages/domain/src/application-history.ts:13-17 | backend and browser summaries agree if and only if the window is valid or no sample is good |
| QueryService.InvalidWindowDiffers | packages/domain/src/application-history.ts:13-17 | an invalid window with one good row, which only the browser counts |
| QueryService.CounterSegments | backend-cpp/src/platform/query_service.cpp:31-51 | the segments are those of the maximal non-decreasing runs, which tile the readings |
| QueryService.SegmentsAccount | backend-cpp/src/platform/query_service.cpp:31-51 | sample counts add up to the input, gap counts to the adjacent gaps, deltas to the positive changes, each delta is end minus start, and each segment begins and ends with the readings of its run's ends |
| QueryService.GapsCounted | backend-cpp/src/platform/query_service.cpp:43-47 | gaps are exactly the adjacent readings further apart than allowed |
| QueryService.RunsUnique | backend-cpp/src/platform/query_service.cpp:43-49 | there is only one way to cut readings into maximal runs |
| QueryService.BrowserSegments | packages/domain/src/application-history.ts:19-29 | the browser's loop also yields the segments of the maximal non-decreasing runs, which tile its readings |
| QueryService.TwinSegmentsAgree | packages/domain/src/application-history.ts:19-29 | if readings of one time are the same reading, the results of the two loops, each after its own sort, are the same |
| QueryService.TiesDisagree | packages/domain/src/application-history.ts:20 | whenever two readings of one time differ, two sorts of the same rows make the two loops disagree |
| QueryService.EqualTimestampsDiffer | packages/domain/src/application-history.ts:20 | with equal timestamps the segments depend on the sort |
| WebSocketQueue.WebSocketSession.Enqueue | backend-cpp/src/transport/http_server.cpp:265-313 | heartbeat replacement, low-priority drop, eviction for critical messages, closing when only critical ones are queued |
| WebSocketQueue.WebSocketSession.EvictOldest | backend-cpp/src/transport/http_server.cpp:294-301 | evicts the oldest non-critical messages until below capacity and counts them |
| WebSocketQueue.WebSocketSession.Take | backend-cpp/src/transport/http_server.cpp:319-331 | the writer takes the front of the queue |
| WebSocketQueue.SessionAccounts | backend-cpp/src/transport/http_server.cpp:265-339 | critical messages handed over followed by those queued are, in order, those accepted; capacity and one-heartbeat bounds; accepted calls are handed, queued, dropped or replaced |
| WebSocketQueue.RefusedOnlyWhenClosed | backend-cpp/src/transport/http_server.cpp:265-309 | a call is refused exactly on a closed session; only a critical message facing a queue full of critical ones closes it |
| WebSocketQueue.EnqueuesExactly | backend-cpp/src/transport/http_server.cpp:265-309 | on an open session a message is queued while there is room; a heartbeat replaces the last one; in a full queue a non-critical message is dropped and counted, a critical one takes the place of the oldest non-critical one and closes the session if there is none |
| Executor.BoundedExecutor.Submit | backend-cpp/src/runtime/executor.cpp:27-39 | accepted exactly when not stopping and below capacity, counted either way |
| Executor.BoundedExecutor.Next | backend-cpp/src/runtime/executor.cpp:46-55 | a woken worker takes the front, leaves only when stopping with an empty queue |
| Executor.BoundedExecutor.Complete | backend-cpp/src/runtime/executor.cpp:57-60 | a finished task is counted, and its worker waits again |
| Executor.BoundedExecutor.Shutdown | backend-cpp/src/runtime/executor.cpp:17-22 | no task is accepted any more; those queued stay |
| Executor.ExecutorAccounts | backend-cpp/src/runtime/executor.cpp:17-64 | accepted jobs are waiting, running or completed, begin once each in order; submissions are accepted or rejected |
| Executor.ShutdownDrains | backend-cpp/src/runtime/executor.cpp:17-25 | once all workers have left, every accepted job has completed and none can be accepted |
| ConfigService.ConfigService.CreateDraft | backend-cpp/src/platform/config_service.cpp:358-364 | adds the draft under its name, based on the revision given or else the published one, with the content given or else that of its base, or fails without effect |
| ConfigDrafts.DraftIsAsAsked | backend-cpp/src/platform/config_service.cpp:358-364 | in every run a draft, as long as it is there, has the base and content that its creating request asked for: given, or else the revision published then and the content of the base |
| ConfigDrafts.OvertakenDraftConflicts | backend-cpp/src/platform/config_service.cpp:376-377 | once a revision newer than the base asked for is published, every attempt to publish the draft is a conflict without effect |
| ConfigDrafts.PublishesWhatWasAsked | backend-cpp/src/platform/config_service.cpp:376-388 | publishing succeeds if and only if the base asked for is the published revision and the content asked for is valid, and then publishes that content right after that base |
| ConfigService.ConfigService.PublishDraft | backend-cpp/src/platform/config_service.cpp:376-389 | publishes, conflicts exactly when its base is not the published revision, is invalid or fails, with the whole new state |
| ConfigService.ConfigService.Rollback | backend-cpp/src/platform/config_service.cpp:391-404 | publishes the target's content or refuses, with the whole new state |
| ConfigService.RevisionsAreOneChain | backend-cpp/src/platform/config_service.cpp:268-272 | revisions are one linear chain whose newest is published, all but the first validated, and the running device list is the bootstrapped one |
| ConfigService.RevisionsGrow | backend-cpp/src/platform/config_service.cpp:376-404 | revisions are only added, never rewritten |
| ConfigService.RunsExactlyNewestUnchanged | backend-cpp/src/platform/config_service.cpp:333-404 | in every reachable state what runs is exactly the newest revision with the bootstrapped device list |
| ConfigService.DeviceChangeNotRun | backend-cpp/src/platform/config_service.cpp:333-385 | a published revision with other devices while the first one still runs |
| ConfigService.SupersededDraftNeverPublishes | backend-cpp/src/platform/config_service.cpp:377 | a draft based on a superseded revision conflicts for ever |
| ConfigService.PublishesExactly | backend-cpp/src/platform/config_service.cpp:376-388 | a draft is published if and only if it is based on the published revision and valid, under a fresh name on top of its base |
| ConfigService.RollbackRestoresContent | backend-cpp/src/platform/config_service.cpp:391-404 | rollback publishes exactly the target's content under a fresh name, always for a revision that was validated |
| ConfigService.DraftNamesCollide | backend-cpp/src/platform/config_service.cpp:273-277 | two drafts created in one millisecond around a publish get the same name |
| ConfigService.DraftFailsExactly | backend-cpp/src/platform/config_service.cpp:358-364 | in every run creating a draft fails if and only if its content has no source, or a draft created in the same millisecond at the same count of drafts is still there |
| ConfigService.AssetsStayForests | backend-cpp/src/platform/config_service.cpp:290-292 | in every run the assets of every revision after the bootstrapped one have names of their own and form a forest: no cycle, no missing parent |
| AssetHierarchy.Walk | backend-cpp/src/platform/config_service.cpp:292 | terminates, and reports a cycle, a missing parent or a root exactly when the parent links lead there |
| AssetHierarchy.CheckAssets | backend-cpp/src/platform/config_service.cpp:290-292 | the asset checks find no error if and only if every asset has a name of its own and reaches a parentless one |
| AssetHierarchy.ForestHasRoots | backend-cpp/src/platform/config_service.cpp:290-292 | in such a list every parent is in the list, and no asset is its own ancestor |
| AssetHierarchy.CheckForest | backend-cpp/src/platform/config_service.cpp:290-292 | no finding if and only if every asset reaches a parentless one within as many assets as there are |

## Left out

- ClientSnapshots.FetchedClientConverges: proved for runs without a stale copy of that command, because `ClientView.StaleCopyStrandsClient` shows a client stranded by one.
- ClientView.FullDeliveryConverges: assumes strictly increasing revisions; `ClientDelivery.ConvergesExactly` assumes nothing of them, but that the client starts with the admission.
- RuleSamples.SamplesActivateExactly: assumes that evaluations have positive times; `RuleService.ZeroStampIsLost` shows what fails at 0.
- RuleAlarmAgreement.LastMoveDecides: its second half assumes agreement before the move; `RuleAlarmAgreement.LastReportDecides` does not.
- ProtocolOutcomes.UnresolvedBlocksUntilConcluded: excludes stale evidence saved over that command, because `ProtocolRace.UnresolvedOvertaken` shows it fails with one; `ProtocolOutcomes.UnknownLostExactly` shows that nothing else needs to be excluded.
- ProtocolOutcomes.UnfinishedIsServed: excludes stale evidence saved over that command, for the same reason.
- IncidentClosure.ClosedMeansSettled: assumes that no alarm of a CLOSED incident, or looked at by an outstanding close request, is raised again under its old name; step by step this is exactly what is needed.
- TelemetryReporting.RunKeepsSpacing: assumes whole writes and no return to an epoch left by a reset; `TelemetryReporting.RunSpacedExactly` has neither assumption.
- The time between the blocking check and the locked admission, and between reading and consuming a preview: admission is one step in the protocol.
- Storage faults: a ledger write that throws in the middle of a command's thread is not modelled, except as a crash; a rule report that throws is.
- The size and age policy of cache pruning is exact in `CommandRuntime` and left open in the protocol, which allows any finished record to be evicted at any time.
- The time limits of feedback polling: an observation, and the end of polling, may come at any time.
- The limit on recent rows loaded at restart: any set of rows may be loaded.
- Parameter validation, authorization, device status and preview checks of a request, and the request fingerprint comparison: they only refuse.
- Audit records, command details, feedback status texts and evidence contents: they do not influence the state machine.
- Validation of a configuration snapshot other than the asset walk and the restart test is a parameter of `ConfigService`.
- Conversion, filtering and sorting of counter readings before segmentation: the models of both loops start from sorted readings. The browser also accepts non-finite numbers and does not fall back to the receive time.
- `quality_service.cpp` beyond the positive sample time it guarantees.
- The historian's alarm replay, retention, backup and migration; JSON encoding, HTTP, sockets, thread scheduling and SQLite itself.
- Vue components, digital twin, demo data, reconnect timers of the browser: presentation or library behaviour.
