# Verified model of the filesystem ticket queue and its neighbours

This project models the build queue of the repository: a two-directory ticket store with atomic replace, an advisory
lock, crashes and lock-free readers; the commands that run on top of it with their entry, exit and dependency gates; and
the smaller machines beside it: system alarms and their nag sweep, the dispatch handshake, the inheritance audit, and
the text formats that must survive a round trip.

Check everything with `dafny verify dfyconfig.toml`.

| module | what it models |
|---|---|
| `Tickets`, `TicketStore`, `TicketFiles` | ticket bodies; the two directories as a map from path to record; the store's functions, file operation by file operation |
| `StoreProtocol`, `StoreScan` | any number of processes mutating under the lock, with a crash possible at every step; lock-free scans underneath |
| `QueueSave`, `Claims` | load, edit and save without a lock; compare-and-set claims and releases |
| `GateLogic`, `Ungating`, `ProofStore`, `QueueCommands`, `StoreCommands`, `QueueHistory`, `AddCommand` | the text gates, the in-place release of dependents, proofs bound to commits, the gated commands on a list and on the store, whole histories of them, and `add` |
| `SlateEditor`, `PendingQueue`, `MemoryEmit`, `TextLines`, `Lexical` | the slate editor, the pending file, stamps and file names, and the text helpers they share |
| `SystemAlarms`, `AlarmNotifier` | dedup counters, pruning, archive and reopening; the nag sweep |
| `DispatchHandshake` | ack, probes, started or timeout, against `cancel` and the clock |
| `IgorBaseCheck` | depth-first search with one shared visited set |
| `Sorting`, `BuildPacket` | stable sorting and the canonical form of a packet |

Files and stores that the code changes in place are classes whose methods are proved against functions of the old state;
the theorems are about those functions. What an operation leaves for its readers is also stated key by key, without those
functions (`SameBut`, and the members named `InWords`). The clock, fresh file names, the delivery of a nag, the answers of git and the
application are parameters, so every theorem holds for all of them.

## Where the code and its comments part

The model follows the code.

- Reopening: a write may reopen a terminal ticket, and a crash between its two replaces then leaves an open ticket in
  `closed/`, the reverse of the only residue the store's documentation admits (`ReopeningCrashHidesTicket`,
  `CompletedPutHeals`). Nothing else does that harm (`CrashHarmsIff`). A file that moves back to `tickets/` between the
  two listings of a scan is missed by it (`ReopeningEscapesScan`), and only such a file (`ProtocolScanLosesNoTicket`).
- Load, edit and save hold no lock: a save puts back every listed status, so a claim survives it exactly when the list
  does not say otherwise (`ClaimSurvivesSaveIff`). Exclusive claims are proved for runs of the compare-and-set
  (`ClaimsAreExclusive`). `dispatch` accepts a ticket in progress although its message says it must be in `sprint`, and
  exclusivity fails exactly when it does so (`HoldingIsExclusiveIff`).
- The decision rollup never fires after a close (`RollupAfterCloseIsIdentity`).
- `add`, the status migration, and `setstatus` to `done` or `cancelled` pass no gate, and `setstatus` releases no
  dependent (`AddKeepsGatesIff`, `MigrationIsUngated`, `OtherTerminalsAreUngated`, `SetStatusReleasesNobody`). `add`
  checks ids against the stored queue, not within its batch (`AddKeepsIdsUniqueIff`).
- `block`, `needs-review`, a submit and `setstatus` can reopen a terminal ticket (`ReopenedIff`), and then take its gate
  away from clear (`ReopeningUnclearsItsGate`).
- A date inside a ticket id is also read as a date the gate waits for (`DatedIdWaitsForItsDate`).
- An alarm emptied by pruning keeps its old count in the archive (`AgedOutKeepsOldCount`), and only there does the sum
  law fail (`ArchivedCountsAddUpIff`). Two signatures can share a file, and when is exact (`NamesAgreeIff`). A nag whose
  stamp is lost is repeated (`NextSweepRepeatsIff`).
- The bound of ceil(timeout / interval) probes holds exactly for positive timeouts (`QuotientBoundIff`).
- The slate editor is idempotent except when the title or result it inserts holds a carriage return (`IdempotentIff`).
- Handing over signatures instead of bodies saves tokens only when the bodies are long enough (`ImprovedIff`): a body
  that contains its signature need not be (`ContainedSignatureMayNotPay`).

## Model

| member | source | states |
|---|---|---|
| `Tickets.EqIgnoringAgree` | unseen_university/ticket_store.py:247-259 | bodies equal up to `updated_at` agree on every other key, present or absent |
| `TicketStore.ReadIsLookup` | unseen_university/ticket_store.py:202-220 | on a sound disk, finding a file by id and reading it is a lookup in the abstract queue |
| `TicketStore.RenameRefines` | unseen_university/ticket_store.py:292-299 | renaming a file across the two directories keeps the disk sound and changes nothing a reader can see |
| `TicketStore.CommitRefines` | unseen_university/ticket_store.py:279-289 | the in-place replace is one update of the abstract queue and keeps one file per ticket |
| `TicketStore.PutRefines` | unseen_university/ticket_store.py:262-307 | a whole `_put` keeps the disk sound, updates the abstract queue once, and files the ticket where its status says |
| `TicketStore.PutReads` | unseen_university/ticket_store.py:262-307 | after a `_put` readers find the body up to its stamps, in `closed/` exactly when it is terminal, and every other ticket as it was |
| `TicketStore.PutCases` | unseen_university/ticket_store.py:275-307 | the file-level outcome of `_put`: new file, move, no-op or rewrite, and exactly when each happens |
| `TicketStore.PutTouchesOneFile` | unseen_university/ticket_store.py:262-307 | every file of another ticket stays where it was, byte for byte |
| `TicketFiles.Store.IterFiles` | unseen_university/ticket_store.py:185-199 | yields each readable ticket file once, `tickets/` before `closed/` |
| `TicketFiles.Store.Find` | unseen_university/ticket_store.py:202-211 | returns the file holding the id, if any |
| `TicketFiles.Store.ReadTicket` | unseen_university/ticket_store.py:217-220 | returns the abstract queue's body for the id, active or closed |
| `TicketFiles.Store.List` | unseen_university/ticket_store.py:223-244 | returns each wanted body exactly once; the in-flight view leaves out terminal bodies still in `tickets/` |
| `TicketFiles.Store.PutBody` | unseen_university/ticket_store.py:262-307 | the file operations of `_put`, step by step, amount to the specified update; the reported path is where the ticket is found, in `closed/` exactly when it is terminal; other tickets read as before; an id-less body is refused |
| `TicketFiles.Store.WriteTicket` | unseen_university/ticket_store.py:310-318 | readers then find the given body, key by key, with a completion stamp added only to a terminal one that lacks it; one without an id is refused |
| `TicketFiles.Store.SetTicketWorker` | unseen_university/ticket_store.py:321-336 | readers then find the worker on an open ticket and nothing else changed; a terminal one is left alone, an unknown id reported |
| `TicketFiles.Store.SetTicketStatus` | unseen_university/ticket_store.py:339-358 | readers then find the status and nothing else changed, through close for a terminal one; a terminal ticket is never reopened |
| `TicketFiles.Store.CloseTicket` | unseen_university/ticket_store.py:361-385 | refuses a non-terminal status and an unknown id, in that order; else readers find the status, the completion stamp, the given result or the old one, every other key as it was, in `closed/` |
| `TicketFiles.Store.UpdateIf` | unseen_university/ticket_store.py:388-421 | exactly when the live status is an expected one readers then find the mutated body, key by key; otherwise nothing changes |
| `StoreProtocol.DecisionIsLive` | unseen_university/ticket_store.py:388-421 | under the lock, what was decided at the look-up is still what the live body asks for when it is stored |
| `StoreProtocol.StepKeepsInv` | unseen_university/ticket_store.py:138-151 | every step of any process, crashes included, keeps the disk sound and the history sequential |
| `StoreProtocol.EveryRunIsSequential` | unseen_university/ticket_store.py:262-421 | in every interleaving with crashes: one file per ticket over both directories, terminal bodies stamped, and readers see the replay of a legal sequential history |
| `StoreProtocol.OnlyReplaceIsVisible` | unseen_university/ticket_store.py:289-299 | readers see a change at the in-place replace only; the rename, the release and a crash are invisible |
| `StoreProtocol.HolderCanFinish` | unseen_university/ticket_store.py:138-151 | from any state the holder of the lock can finish its mutation on its own, and then the lock is free |
| `StoreProtocol.AloneIsOnePut` | unseen_university/ticket_store.py:262-421 | a mutator that is left alone does exactly one `_put` of what it decides on the live body, and lets the lock go |
| `StoreProtocol.InFlightExactIff` | unseen_university/ticket_store.py:223-244 | the in-flight listing is the open part of the queue exactly when no open body sits in `closed/` |
| `StoreProtocol.InFlightIsExactWithoutReopening` | unseen_university/ticket_store.py:15-20 | in every run that reopens nothing the only residue is a terminal body in `tickets/`, and the in-flight listing is always exact |
| `StoreProtocol.InFlightIsExactWhenUnlocked` | unseen_university/ticket_store.py:262-307 | reopenings included, the in-flight listing is exact whenever the lock is free, in every run in which no reopening dies between its two replaces |
| `StoreProtocol.CrashHarmsIff` | unseen_university/ticket_store.py:289-299 | a crash leaves the in-flight listing inexact exactly when it strikes a holder between the two replaces of a reopening |
| `StoreProtocol.ReopeningCrashHidesTicket` | unseen_university/ticket_store.py:289-293 | a write that reopens a filed ticket and dies between its two replaces leaves an open ticket the in-flight listing misses |
| `StoreProtocol.CompletedPutHeals` | unseen_university/ticket_store.py:262-307 | the next completed mutation of that ticket files it by its status, so it is listed again exactly when open |
| `StoreScan.ScanLosesNoTicket` | unseen_university/ticket_store.py:185-244 | a lock-free scan, interleaved with any rewrites, creations and moves in both directions, returns exactly once every ticket present at its start whose own file is not brought back meanwhile, repeats no id and invents no body |
| `StoreScan.InFlightScanKeepsOpenTickets` | unseen_university/ticket_store.py:223-244 | a ticket that stays open in `tickets/` for the whole scan is in the in-flight listing exactly once, and no terminal body is |
| `StoreScan.ProtocolStepsDisturbOnly` | unseen_university/ticket_store.py:262-307 | every step of the protocol, reopenings included, is a disturbance of the kind the scan theorems allow |
| `StoreScan.OutOfSightIsMissed` | unseen_university/ticket_store.py:185-199 | on every sound disk, a ticket whose file is in neither directory while that directory is being listed is missed |
| `StoreScan.ProtocolScanLosesNoTicket` | unseen_university/ticket_store.py:185-307 | a full scan during any run of the protocol, with crashes and reopenings of other tickets, returns exactly once every ticket that is there, is not an open one left in `closed/`, and is not reopened meanwhile |
| `StoreScan.ReopeningEscapesScan` | unseen_university/ticket_store.py:289-299 | for every filed terminal ticket of every sound store there is a scan that a write reopening it makes miss it |
| `QueueSave.DefaultsFillOnly` | devlab/claudecode/cc_queue.py:202-220 | defaults fill missing keys only, and filling twice is filling once |
| `QueueSave.Load` | devlab/claudecode/cc_queue.py:223-245 | the loaded list is the stored queue, each ticket once, with defaults |
| `QueueSave.Save` | devlab/claudecode/cc_queue.py:248-291 | the save loop amounts to one `_put` per listed ticket that differs from the snapshot; the count is the number written |
| `QueueSave.SaveOfLoadIsNoOp` | devlab/claudecode/cc_queue.py:223-291 | saving what was just loaded changes no file at all |
| `QueueSave.SaveTouchesOnlyChanged` | devlab/claudecode/cc_queue.py:276-288 | a file whose ticket is not to be changed keeps its place and its bytes |
| `QueueSave.SaveCreatesOnlyListed` | devlab/claudecode/cc_queue.py:276-288 | an id the list does not ask to write is not created |
| `QueueSave.SaveStoresTask` | devlab/claudecode/cc_queue.py:270-288 | each listed ticket ends up stored as given, or untouched when it was unchanged |
| `QueueSave.StoreEqualsSavedList` | devlab/claudecode/cc_queue.py:248-291 | after a save the store equals the list up to defaults and time stamps |
| `QueueSave.ChangedTaskIsWritten` | devlab/claudecode/cc_queue.py:276-288 | a changed ticket that carries its defaults is really written, exactly as given |
| `QueueSave.SaveDecidesStatus` | devlab/claudecode/cc_queue.py:270-288 | with mutators running between snapshot and writes too, a listed ticket ends with its listed status, or its live one if the snapshot showed it unchanged |
| `QueueSave.SaveRestoresListedStatus` | devlab/claudecode/cc_queue.py:248-291 | a save puts back the listed status of every listed ticket |
| `QueueSave.ClaimSurvivesSaveIff` | devlab/claudecode/cc_queue.py:223-291 | a claim made since the load survives the save exactly when the list does not hold the ticket, or holds it in progress |
| `QueueSave.StaleSaveUndoesClaim` | devlab/claudecode/cc_queue.py:223-291 | so a save of a list loaded before a claim puts the ticket back to `sprint` |
| `GateLogic.ScanOfPrintedIds` | unseen_university/gate_logic.py:108-128 | scanning a gate printed from well-formed ids returns exactly those ids |
| `GateLogic.LongerIdIsNotAMatch` | unseen_university/gate_logic.py:102-108 | an id is never found inside a longer id |
| `GateLogic.LastListedDecides` | unseen_university/gate_logic.py:133-139 | of several tickets with one id the last listed decides whether a gate on it is met |
| `GateLogic.DatesOrderAsText` | unseen_university/gate_logic.py:121-128 | dates compare as their ISO texts do, character by character |
| `GateLogic.ElapsedIff` | unseen_university/gate_logic.py:121-128 | a date of a gate has elapsed exactly when it is a day of the calendar and not after today |
| `GateLogic.CalendarIsGregorian` | unseen_university/gate_logic.py:121-128 | the days a date may name are those of the Gregorian calendar: year lengths, and the leap years among the first n |
| `GateLogic.WordedGateClear` | unseen_university/gate_logic.py:112-141 | a gate of dates and date-free ids, in any order, is clear exactly when every date has elapsed and every id is terminal |
| `GateLogic.PlainProseIsNeverClear` | unseen_university/gate_logic.py:117-119 | a text that names no ticket and no day is never clear |
| `GateLogic.PrintedGateClear` | unseen_university/gate_logic.py:112-141 | a printed gate is clear exactly when all its ids are terminal and every date spelled inside them has elapsed |
| `GateLogic.DateFreeGateClear` | unseen_university/gate_logic.py:112-141 | for date-free ids, clear means all terminal |
| `GateLogic.DatedIdWaitsForItsDate` | unseen_university/gate_logic.py:108-128 | a date inside an id is scanned as a date too: the gate waits for it |
| `GateLogic.ClearGateStaysClear` | unseen_university/gate_logic.py:112-141 | while finished ids stay finished and the date does not decrease, a clear gate stays clear |
| `GateLogic.PunctuationChangesNothing` | unseen_university/gate_logic.py:69-101 | punctuation around a text never changes whether it counts as a declared intention |
| `GateLogic.SolidTextVerdict` | unseen_university/gate_logic.py:69-101 | what is neither padded nor punctuated is refused only as one of the placeholder words, in either case |
| `GateLogic.HollowTextVerdict` | unseen_university/gate_logic.py:69-101 | the other refusals stay distinct: nothing there, nothing but white space, nothing but punctuation |
| `Ungating.GuardSprintEntry` | devlab/claudecode/cc_queue.py:1070-1091 | allows entry to `sprint` exactly with a declared intention, else diverts the ticket to triage |
| `Ungating.FlipUngatedToSprint` | devlab/claudecode/cc_queue.py:954-974 | a ticket in `dependency` whose gate is gone ends in `sprint` with an intention, in triage with the reason without one; any other is untouched; the result says which |
| `Ungating.UngateDependents` | devlab/claudecode/cc_queue.py:977-1025 | the in-place pass over the half-updated list equals the simultaneous update: exactly the open tickets whose gate names the closed id and is clear lose the gate and leave `dependency`, nothing else changes, and their number is returned |
| `Ungating.FlipKeepsDone` | devlab/claudecode/cc_queue.py:954-974 | a flip never makes a status terminal and never touches the id |
| `Ungating.PassIgnoresListOrder` | devlab/claudecode/cc_queue.py:977-1025 | with unique ids, two orderings of the queue release the same tickets |
| `Ungating.PassIsIdempotent` | devlab/claudecode/cc_queue.py:977-1025 | a second pass for the same close changes nothing |
| `Ungating.DoneAfterClosing` | devlab/claudecode/cc_queue.py:977-1025 | after closing in any order, the finished ids are those of the set closed all at once |
| `Ungating.ClosingHasClosedForm` | devlab/claudecode/cc_queue.py:977-1025 | closing a set in any order leaves every other ticket as the closed form says: released iff its gate names a member and is clear at the end |
| `Ungating.ClosingIsConfluent` | devlab/claudecode/cc_queue.py:977-1025 | hence neither the closing order nor what each close writes matters to any ticket outside the set |
| `Ungating.GateStaysClearInQueue` | unseen_university/gate_logic.py:112-141 | over any history of a queue with unique ids, in any listing order, that keeps every terminal ticket listed and terminal, a clear gate stays clear |
| `Ungating.RollupAfterCloseIsIdentity` | devlab/claudecode/cc_queue.py:839-882 | the decision rollup does not count `closed` as finished, so after a close it does nothing |
| `Ungating.RollupClearsItsGates` | devlab/claudecode/cc_queue.py:839-882 | the rollup clears exactly the gates that name the decision, and only when all its tickets are done, discarded or blocked |
| `Ungating.RollUpDecision` | devlab/claudecode/cc_queue.py:839-882 | the two loops of the rollup compute it in place |
| `Claims.WorkerEntry` | devlab/claudecode/cc_queue.py:307-362 | an effective claim found the ticket in `sprint`, an effective release found it in progress |
| `Claims.ClaimLedger` | devlab/claudecode/cc_queue.py:307-362 | claims + held at the start = releases + held now, over every sequential history of workers |
| `Claims.ReleaseBetweenClaims` | devlab/claudecode/cc_queue.py:307-362 | two successful claims of one ticket have a release of it between them |
| `Claims.ClaimsAreExclusive` | devlab/claudecode/cc_queue.py:1941-2006 | both, over every interleaving of concurrent workers with crashes |
| `Claims.DispatchPersistsIff` | devlab/claudecode/cc_queue.py:666-696 | a dispatch goes through exactly when the live ticket is in `sprint` or already in progress |
| `Claims.TakerLedger` | devlab/claudecode/cc_queue.py:635-696 | with dispatches: takes + held at the start = releases + hits on held tickets + held now |
| `Claims.ExclusiveIff` | devlab/claudecode/cc_queue.py:635-696 | with claims, releases and dispatches, from a free ticket, holding it is exclusive exactly when no dispatch hits it while it is held |
| `Claims.HoldingIsExclusiveIff` | devlab/claudecode/cc_queue.py:635-696 | both, over every interleaving of workers and dispatchers with crashes |
| `Claims.CmdDispatch` | devlab/claudecode/cc_queue.py:635-696 | succeeds exactly from those two statuses; readers then find the ticket in progress with who dispatched it and when, and nothing else changed |
| `Claims.NextTicketForWorker` | devlab/claudecode/cc_queue.py:1904-1938 | the ticket returned is in `sprint`, ungated, this worker's and not too hard, and the first such of least priority key; none is returned exactly when the breaker is tripped or no ticket is all of that |
| `Claims.ClaimTicket` | devlab/claudecode/cc_queue.py:307-329 | succeeds exactly when the live ticket is in `sprint`; readers then find it in progress and nothing else changed |
| `Claims.ResetStaleInProgress` | devlab/claudecode/cc_queue.py:332-362 | succeeds exactly when the live ticket is in progress; readers then find it in `sprint` or, without an intention, in triage with the reason, and no longer dispatched |
| `Claims.CmdNext` | devlab/claudecode/cc_queue.py:1941-2006 | returns nothing exactly when the breaker is tripped or every ticket is out of `sprint`, gated, another worker's or too hard; else the best ticket of a listing, which readers then find taken |
| `ProofStore.AcceptedIff` | unseen_university/proof_store.py:84-123 | accepted means: the recorded commit, or the first linked one when none is recorded, is an ancestor of HEAD, proved paths are given, and the trees agree on them |
| `ProofStore.AcceptedProofBindsToPaths` | unseen_university/proof_store.py:84-123 | an accepted proof stays accepted at a later HEAD exactly when that tree still agrees on the proved paths |
| `ProofStore.UnreachableIsRefused` | unseen_university/proof_store.py:95-106 | a proof whose commit is not an ancestor of HEAD is refused |
| `ProofStore.PlainCovers` | unseen_university/proof_store.py:112-119 | a plain proved path covers itself and what lies below it |
| `ProofStore.SiblingIsNotCovered` | unseen_university/proof_store.py:112-119 | a longer name that merely begins alike is not covered |
| `ProofStore.DirectoryCovers` | unseen_university/proof_store.py:112-119 | a final slash asks for what lies below; a leading `./` changes nothing |
| `ProofStore.LinkedIff` | unseen_university/proof_store.py:62-74 | the proofs found for a ticket are those that link it |
| `ProofStore.FindForTicket` | unseen_university/proof_store.py:62-74 | collects them in order |
| `ProofStore.BestValidProof` | unseen_university/proof_store.py:126-139 | returns the first accepted linked proof on file iff one exists, with one rejection per earlier candidate |
| `QueueCommands.ProofGateIsHonest` | devlab/claudecode/cc_queue.py:1094-1138 | passing the exit gate leaves either an accepted proof or a non-blank reason on the ticket |
| `QueueCommands.EditIsGated` | devlab/claudecode/cc_queue.py:1303-1361 | a command keeps its own ticket gated: intention in `sprint`, honest close in `closed` |
| `QueueCommands.CommandKeepsGates` | devlab/claudecode/cc_queue.py:1218-1390 | every gated command keeps both invariants on every ticket, dependents included |
| `QueueCommands.GatesHoldOverEveryRun` | devlab/claudecode/cc_queue.py:1035-1215 | over every run of gated commands, with proofs and commits changing in between, both gates hold throughout |
| `QueueCommands.CloseCommandIsClosingStep` | devlab/claudecode/cc_queue.py:1303-1361 | an allowed close is one closing step of `Ungating`, so confluence speaks about the command |
| `QueueCommands.ResetsLeaveNothingInProgress` | devlab/claudecode/cc_queue.py:2009-2068 | after reset, reset-stale or reconcile no targeted ticket is stuck in progress |
| `QueueCommands.ResetsReopenNothing` | devlab/claudecode/cc_queue.py:2009-2068 | resets, reconciles and claims never reopen a terminal ticket |
| `QueueCommands.SetStatusReleasesNobody` | devlab/claudecode/cc_queue.py:2104-2133 | `setstatus` changes one ticket only: no dependent is released by a terminal status set this way |
| `QueueCommands.OtherTerminalsAreUngated` | devlab/claudecode/cc_queue.py:2104-2133 | `setstatus` to `done` or `cancelled` passes with no proof and no reason |
| `QueueCommands.MigrationIsUngated` | devlab/claudecode/cc_queue.py:2152-2203 | migration breaks the entry gate exactly for a pending ticket titled as designed with no intention |
| `QueueCommands.CmdSetStatus` | devlab/claudecode/cc_queue.py:2074-2135 | `closed` passes exactly with a named reason or a proof on file and leaves it on the ticket, `sprint` exactly with an intention; the status is set, nothing else changes, and a refusal leaves the list unchanged |
| `QueueCommands.CmdReset` | devlab/claudecode/cc_queue.py:2009-2048 | a known open ticket goes to `sprint` with its dispatch and block stamps cleared, or to triage with the reason; nothing else changes |
| `QueueCommands.CmdResetStale` | devlab/claudecode/cc_queue.py:2051-2068 | every ticket in progress goes to `sprint` or triage in one pass, no other changes, and their number is returned |
| `QueueCommands.CmdClose` | devlab/claudecode/cc_queue.py:1303-1361 | saves exactly for a known id with a non-blank reason or a proof on file; the ticket is then closed with the result and that reason or proof on it, and exactly the open tickets whose gate names it and is now clear are released |
| `QueueCommands.ProvenCloseIff` | devlab/claudecode/cc_queue.py:1094-1138 | without a reason a close goes through exactly when some linked proof is accepted, and names an accepted one |
| `QueueCommands.PlainCommandsInWords` | devlab/claudecode/cc_queue.py:1374-1390 | `gate`, `block` and `needs-review` write what they say on their own ticket and nothing else |
| `QueueCommands.UngateInWords` | devlab/claudecode/cc_queue.py:2395-2418 | `ungate` drops the gate and takes the ticket out of `dependency`, nothing else |
| `QueueCommands.ClaimInWords` | devlab/claudecode/cc_queue.py:1941-2006 | a claim takes a ticket in `sprint` and only such a one |
| `QueueCommands.ReconcileInWords` | devlab/claudecode/cc_queue.py:332-362 | a reconcile puts a ticket in progress back, to `sprint` or triage, and no other |
| `QueueCommands.SubmitInWords` | devlab/claudecode/cc_queue.py:1141-1300 | a submit waits for validation, or closes small safe work of igor's by itself, with the proof on file or the reason that there is none |
| `QueueCommands.MigrationSettles` | devlab/claudecode/cc_queue.py:2152-2203 | a migration touches the status alone, leaves no retired word, and is done after one run |
| `StoreCommands.ExecuteKeepsIds` | devlab/claudecode/cc_queue.py:1218-1390 | no command changes a ticket id or the length of the list |
| `StoreCommands.SaveIsGated` | devlab/claudecode/cc_queue.py:248-291 | saving a gated list that lists the whole store leaves every file on disk gated, defaults and stamps notwithstanding |
| `StoreCommands.SessionKeepsStoreGated` | devlab/claudecode/cc_queue.py:1303-1361 | load, a gated command and save, run alone, leave a sound store in which every file is gated |
| `StoreCommands.SessionIsCarriedOut` | devlab/claudecode/cc_queue.py:223-291 | the store then holds every ticket as the command left it, up to defaults and time stamps |
| `StoreCommands.StoreStaysGated` | devlab/claudecode/cc_queue.py:1035-1361 | the same over every run of whole commands: the two gates hold of every file on disk |
| `AddCommand.CmdAdd` | devlab/claudecode/cc_queue.py:1650-1733 | appended are exactly the candidates with a usable new id, a known role or none, a tier from 1 to 5 and a passed preflight, in order, each as given with what it leaves open filled in |
| `AddCommand.AddKeepsGatesIff` | devlab/claudecode/cc_queue.py:1666-1733 | `add` keeps both gates on the whole queue exactly when no admitted candidate asks for `sprint` without an intention or for `closed` without proof or reason |
| `AddCommand.FilledIsGatedIff` | devlab/claudecode/cc_queue.py:1682-1729 | defaults, inferred fields and decorations change nothing the gates look at: the new ticket is gated exactly when the candidate does not slip in |
| `AddCommand.AddKeepsIdsUniqueIff` | devlab/claudecode/cc_queue.py:1664-1681 | stored tickets are kept and not shadowed, and ids stay unique exactly when the batch does not name a new id twice |
| `QueueHistory.ReopenedIff` | devlab/claudecode/cc_queue.py:1374-1390 | a terminal ticket is reopened by a command exactly when it is its own and the command is a non-terminal `setstatus` that passes, `block`, `needs-review`, or a submit that does not auto-close |
| `QueueHistory.GateStaysClearOverCommands` | devlab/claudecode/cc_queue.py:1218-2425 | over any run of commands none of which reopens a terminal ticket, a clear gate is clear at the end |
| `QueueHistory.ReopeningUnclearsItsGate` | devlab/claudecode/cc_queue.py:2074-2135 | a command that does reopen its ticket makes the gate on it unclear |
| `QueueHistory.CloseCallsAreClosings` | devlab/claudecode/cc_queue.py:1303-1361 | a sequence of close commands, refused and unknown ones included, is the sequence of closing steps of those that pass |
| `QueueHistory.CloseCommandsAreConfluent` | devlab/claudecode/cc_queue.py:1303-1361 | two sequences of close commands on one day that close the same tickets, in any order and with any results, proofs and reasons, leave every other ticket the same |
| `SlateEditor.InsertBullet` | devlab/claudecode/cc_queue.py:916-937 | the single pass copies all lines and slips the bullet into its slot, if the Done section lacks the ticket |
| `SlateEditor.AppendToSlate` | devlab/claudecode/cc_queue.py:912-944 | one run of the editor on a file |
| `SlateEditor.KindsAreTests` | devlab/claudecode/cc_queue.py:919-931 | the three kinds of line are the three tests of the loop, in whatever order they are made |
| `SlateEditor.SlotInWords` | devlab/claudecode/cc_queue.py:916-937 | the slot: none without a Done section or when an item of it names the ticket, else in front of the header that ends the section, or at the end of the file |
| `SlateEditor.BulletInWords` | devlab/claudecode/cc_queue.py:896-915 | the bullet: id, title, and of the result the first line, in parentheses, cut at 120 characters |
| `SlateEditor.EditInsertsOneBullet` | devlab/claudecode/cc_queue.py:912-944 | all text is kept in order; at most one bullet goes in, plus a final newline the text lacked |
| `SlateEditor.SecondRunRereads` | devlab/claudecode/cc_queue.py:912-944 | a second run finds the ticket and adds nothing, for every file and every id without line breaks |
| `SlateEditor.IdempotentIff` | devlab/claudecode/cc_queue.py:912-944 | two runs equal one run exactly when the editor does not itself write a carriage return |
| `SystemAlarms.EventKeepsConsistent` | unseen_university/system_alarms.py:199-231 | each operation keeps open records consistent: count is the sum of callers, callers and last-seen have the same keys |
| `SystemAlarms.EventBalances` | unseen_university/system_alarms.py:199-383 | per signature, each operation moves raises between open, pruned and closed without loss |
| `SystemAlarms.EveryRaiseIsAccountedFor` | unseen_university/system_alarms.py:173-383 | over every run: consistent open records, and raises = open count + pruned + closed |
| `SystemAlarms.RaiseStatusIff` | unseen_university/system_alarms.py:199-231 | over every run a signature is on file, open or archived, exactly when it was ever raised; a raise is `new` exactly the first time, and `reopened` exactly when it was raised before and is not open |
| `SystemAlarms.AgedOutKeepsOldCount` | unseen_university/system_alarms.py:373-377 | an alarm emptied by pruning is archived under its old count |
| `SystemAlarms.SweepClearsStale` | unseen_university/system_alarms.py:337-383 | after a prune sweep every surviving caller of a swept alarm is at or after the cutoff |
| `SystemAlarms.SweepIsIdempotent` | unseen_university/system_alarms.py:337-383 | a second prune at the same time does nothing |
| `SystemAlarms.SweepInWords` | unseen_university/system_alarms.py:337-383 | the whole sweep, record by record, in any order and with repetitions in the listing |
| `SystemAlarms.ArchivedCountsAddUpIff` | unseen_university/system_alarms.py:315-383 | over every run, an archived count is the sum of its callers exactly when any caller is left in the record |
| `SystemAlarms.NamesAgreeIff` | unseen_university/system_alarms.py:79-87 | two signatures of at most 120 characters with untrimmed ends share a record exactly when they are equal except where both have an underscore or an unsafe character |
| `SystemAlarms.LongNamesAgreeIff` | unseen_university/system_alarms.py:79-87 | longer signatures share a record exactly when their first 120 characters do |
| `SystemAlarms.BlankNamesCollide` | unseen_university/system_alarms.py:79-87 | signatures of unsafe characters and underscores alone all share one record |
| `SystemAlarms.OneKindNamesAgreeIff` | unseen_university/system_alarms.py:79-87 | for one kind, `kind:rest` signatures with safe rests share a record exactly when they are the same |
| `SystemAlarms.KindsAndRestsKeepTheirNames` | unseen_university/system_alarms.py:79-87 | across kinds too, when neither part has an underscore of its own |
| `SystemAlarms.UnsafeSignaturesCollide` | unseen_university/system_alarms.py:79-87 | every unsafe character reads as an underscore, whatever surrounds it |
| `SystemAlarms.AlarmStore.RaiseAlarm` | unseen_university/system_alarms.py:199-231 | an open record gets one more count, for the caller too, and its stamps; else a fresh record, `reopened` if an archived one exists; every other record is unchanged |
| `SystemAlarms.AlarmStore.MarkAlarm` | unseen_university/system_alarms.py:266-284 | stamps an open alarm and changes nothing else, false when there is none |
| `SystemAlarms.AlarmStore.CloseAlarm` | unseen_university/system_alarms.py:315-334 | the open record is then in the archive, as it was, and no other record changed; false when there is none |
| `SystemAlarms.AlarmStore.PruneStale` | unseen_university/system_alarms.py:337-383 | each listed alarm loses exactly the callers last seen before the cutoff, is counted anew if it lost any, and is archived under its old count if none is left; all others are unchanged; with both counters |
| `AlarmNotifier.SweepClosedForm` | unseen_university/system_alarm_notifier.py:76-93 | a sweep stamps exactly the due alarms whose nag and stamp succeed, and changes nothing else |
| `AlarmNotifier.SweepTriesExactlyTheDue` | unseen_university/system_alarm_notifier.py:76-93 | the sender is called for an alarm exactly when it is open, named and un-stamped |
| `AlarmNotifier.NagsAreSeparated` | unseen_university/system_alarm_notifier.py:58-93 | over every run with successful stamps, two nags for a signature have an archive and a fresh record between them |
| `AlarmNotifier.NextSweepRepeatsIff` | unseen_university/system_alarm_notifier.py:85-90 | the next delivered sweep nags again exactly when the stamp was lost |
| `AlarmNotifier.RetriedUntilEnded` | unseen_university/system_alarm_notifier.py:76-93 | an un-stamped open alarm is tried again by every later sweep until it is stamped or archived; prunes that archive nothing do not end its wait |
| `AlarmNotifier.NotifyNewAlarms` | unseen_university/system_alarm_notifier.py:58-93 | stamps exactly the un-stamped named alarms whose nag and stamp succeed, and returns the number of nags delivered |
| `DispatchHandshake.EveryRunIsShaped` | unseen_university/shim.py:187-248 | in every interleaving the log is an ack, refused probes measured short of the timeout, then at most one ending |
| `DispatchHandshake.SentInOrder` | unseen_university/shim.py:187-248 | one ack, then at most one of `started` and `timeout`, then nothing |
| `DispatchHandshake.SentIsLogged` | unseen_university/shim.py:187-244 | what was sent is what the log of the loop says was sent |
| `DispatchHandshake.EndingsAreEarned` | unseen_university/shim.py:205-244 | `started` follows an accepted probe, `timeout` a refused one measured at or past the timeout; no earlier probe was accepted |
| `DispatchHandshake.AtMostOneMessageAfterCancel` | unseen_university/shim.py:246-248 | at most one message follows the first cancel |
| `DispatchHandshake.ProbesAreBounded` | unseen_university/shim.py:205-244 | with a positive interval, at most ceil(timeout / interval) probes, or one |
| `DispatchHandshake.QuotientBoundFailsWithoutTime` | unseen_university/shim.py:205-244 | with no time to wait the loop still probes once, above the quotient |
| `DispatchHandshake.QuotientBoundIff` | unseen_university/shim.py:205-244 | the plain quotient bound holds over every run exactly when the timeout is positive |
| `DispatchHandshake.Handshake.Start` | unseen_university/shim.py:187-203 | sends the ack before the loop is launched |
| `DispatchHandshake.Handshake.Cancel` | unseen_university/shim.py:246-248 | sets the stop flag and sends nothing |
| `DispatchHandshake.Handshake.ProdLoop` | unseen_university/shim.py:205-244 | in any surroundings that keep time and at some round end it, the loop is a run of the protocol, and the first round that is not quiet decides what it sends |
| `DispatchHandshake.SomeRoundEnds` | unseen_university/shim.py:205-244 | with a positive interval, surroundings that keep time always bring the loop to an end |
| `IgorBaseCheck.BuildLocalParents` | devlab/claudecode/audit_check_igorbase.py:136-142 | maps every class to its base names; the last definition of a name wins |
| `IgorBaseCheck.BaseNameIsLast` | devlab/claudecode/audit_check_igorbase.py:124-133 | the base name is the last dotted name of the expression, whatever it is qualified or subscripted with |
| `IgorBaseCheck.ExhaustedMeansNone` | devlab/claudecode/audit_check_igorbase.py:145-162 | a set closed under bases in which nobody lists `IgorBase` has no member that inherits it |
| `IgorBaseCheck.Search` | devlab/claudecode/audit_check_igorbase.py:145-162 | terminates on cyclic graphs; a hit is real, a miss leaves every newly visited class cleared |
| `IgorBaseCheck.HasIgorBaseTransitively` | devlab/claudecode/audit_check_igorbase.py:145-162 | true exactly when some chain of local bases reaches a class listing `IgorBase` |
| `IgorBaseCheck.CyclesDoNotInherit` | devlab/claudecode/audit_check_igorbase.py:145-162 | classes that only inherit from each other do not inherit `IgorBase` |
| `MemoryEmit.PadIsFixedWidth` | devlab/claudecode/memory_emit.py:114 | zero-padded printing has fixed width and reads back to the number |
| `MemoryEmit.StampForDayOnly` | devlab/claudecode/memory_emit.py:86-114 | refuses a malformed date; else a well-formed stamp on that date whose clock reads hash mod 86 400 000 000 |
| `MemoryEmit.DerivedStampDecodes` | devlab/claudecode/memory_emit.py:117-119 | the derived stamp decodes to its date and that microsecond |
| `MemoryEmit.StampsCollideIff` | devlab/claudecode/memory_emit.py:86-114 | on one date two records share a stamp exactly when their hashes agree modulo a day of microseconds |
| `MemoryEmit.SplitUndoesJoinIff` | devlab/claudecode/memory_emit.py:126-129 | splitting a dotted join gives the list back exactly when no piece has a dot |
| `MemoryEmit.NameOfSegments` | devlab/claudecode/memory_emit.py:163-173 | empty namespace segments are skipped wherever they are; else the name is emitter, segments and stamp, dotted |
| `MemoryEmit.ParseUndoesStem` | devlab/claudecode/memory_emit.py:126-187 | parsing an emitted name gives back the stamp and the dotted emitter and namespace as segments |
| `MemoryEmit.PiecesRecoveredIff` | devlab/claudecode/memory_emit.py:126-187 | the segments are the given pieces exactly when none of them has a dot |
| `MemoryEmit.ParsedNameRebuilds` | devlab/claudecode/memory_emit.py:126-135 | whatever name parses is rebuilt from its parts |
| `MemoryEmit.NamesCollideIff` | devlab/claudecode/memory_emit.py:173-187 | two emissions get one name exactly when dotted prefix and stamp agree |
| `PendingQueue.Dispatcher.Filter` | unseen_university/notification_dispatcher.py:68-81 | override, then busy state, then default |
| `PendingQueue.Dispatcher.Deliver` | unseen_university/notification_dispatcher.py:83-106 | a loud message that cannot reach its session is queued, not dropped; silent ones are not queued |
| `PendingQueue.Dispatcher.QueuePending` | unseen_university/notification_dispatcher.py:171-177 | appends one line, the three fields with a spaced bar between them, to the pending file |
| `PendingQueue.Dispatcher.DrainPending` | unseen_university/notification_dispatcher.py:108-127 | returns every well-formed line in order and removes the file |
| `PendingQueue.LineRoundTripIff` | unseen_university/notification_dispatcher.py:108-127 | a line parses back to its entry exactly when neither leading field can hide a separator |
| `PendingQueue.ParsesIff` | unseen_university/notification_dispatcher.py:108-127 | a line is kept exactly when it has two separators in it |
| `PendingQueue.BadLineIsSkipped` | unseen_university/notification_dispatcher.py:108-127 | a line that is not kept does not affect the others |
| `PendingQueue.DrainUndoesQueueIff` | unseen_university/notification_dispatcher.py:108-177 | queue then drain returns every entry, once, in order, exactly when every entry can be queued |
| `PendingQueue.DrainedAreQueueable` | unseen_university/notification_dispatcher.py:108-127 | whatever text is in the file, every entry read from it could have been queued |
| `PendingQueue.NothingLostOrRepeated` | unseen_university/notification_dispatcher.py:108-177 | over any run, drained entries plus the file are everything queued, in order |
| `Sorting.SortIsStable` | devlab/claudecode/build_packet.py:189-195 | sorting keeps tied elements in their order of arrival |
| `Sorting.SortOfSorted` | devlab/claudecode/build_packet.py:189-195 | sorting what is sorted changes nothing, ties included |
| `Sorting.OrderForgottenIff` | devlab/claudecode/build_packet.py:189-195 | every reordering sorts to one list exactly when tied members are equal |
| `BuildPacket.NormalizeShortlist` | devlab/claudecode/build_packet.py:189-195 | the files, each restated with its defaults, by falling score and then by path, their symbols likewise |
| `BuildPacket.NormalizeIsIdempotent` | devlab/claudecode/build_packet.py:189-195 | normalising twice is normalising once, for every shortlist |
| `BuildPacket.FileOrderForgottenIff` | devlab/claudecode/build_packet.py:189-195 | every reordering of the files normalises alike exactly when files tied on score and path have the same content |
| `BuildPacket.SymbolOrderForgottenIff` | devlab/claudecode/build_packet.py:189-195 | the same for the symbols of one file |
| `BuildPacket.PacketIgnoresOrder` | devlab/claudecode/build_packet.py:285-333 | an unambiguous shortlist gives one packet, measurement and verdict included, in any order of files and symbols |
| `BuildPacket.DistinctNamesAreUnambiguous` | devlab/claudecode/build_packet.py:189-195 | distinct paths, and distinct symbols within a file, are enough |
| `BuildPacket.PacketOfNormalized` | devlab/claudecode/build_packet.py:285-333 | compiling from a normalised shortlist gives the same packet |
| `BuildPacket.RenderHelperFirst` | devlab/claudecode/build_packet.py:219-232 | the loops render path and signature lines in order |
| `BuildPacket.LongBodiesNeverCostMore` | devlab/claudecode/build_packet.py:235-258 | if every measured body is at least as long as its lines, helper-first never costs more |
| `BuildPacket.MeasureInChars` | devlab/claudecode/build_packet.py:214-258 | both costs, over the files that can be read, from the lengths of bodies, paths and signatures alone |
| `BuildPacket.ImprovedIff` | devlab/claudecode/build_packet.py:235-258 | for every shortlist the reduction is real exactly when the bodies need more quarters of characters than the paths and signature lines; four characters more always do, and some surplus is needed |
| `BuildPacket.OneFileImprovesIff` | devlab/claudecode/build_packet.py:219-258 | for one file: the body length against the path and signature lengths |
| `BuildPacket.ContainedSignatureMayNotPay` | devlab/claudecode/build_packet.py:219-226 | a body that holds its signature and more besides need not be an improvement |
| `BuildPacket.GateNamesTheMissing` | devlab/claudecode/build_packet.py:261-273 | the gate names exactly the required fields that carry nothing, field by field, in word order |
| `BuildPacket.GatePassesIff` | devlab/claudecode/build_packet.py:261-273 | it passes exactly when all four are present |

## Left out

- Real files: JSON encoding, unreadable or foreign files, missing directories and permissions. An atomic replace is one step, and new tickets get unused file names.
- The sorted order of a directory listing: the model's listing is in an arbitrary order, and no result depends on it.
- The stored envelope apart from its body and file name, forensic events and log lines.
- Display titles: the `[status]` prefix commands keep on a title is not part of the modelled body edits.
- QueueCommands.CommandKeepsGates: covers one load, edit and save at a time; commands that interleave on the unlocked list are shown to interfere by `StaleSaveUndoesClaim`.
- The clock is read once per save or command; the source reads it per ticket. Only time stamps depend on it.
- Claims.NextTicketForWorker: a difficulty that is not a number puts a ticket out of reach where the source raises; the priority key and the state of the circuit breaker are parameters, and the persisted failure count is not modelled.
- Text outside ASCII: digits and letters of the two patterns, and lower-casing, are modelled on ASCII.
- JSON slates; the model covers the Markdown editor.
- Git path patterns with wildcards, and git failures: proved paths name a file, a directory or the top directory, and commits form a graph that only grows.
- Keys the gates never read: commit evidence, cost and token counters, the timeout counter and the file that trips the breaker, review and dispatcher stamps.
- Queue commands that would only add single-field edits: sweep-gates, notes, verdicts, epics, roles, decisions, GitHub fields, retitling, backfills, flushing and worker launch.
- SystemAlarms.EventBalances: each alarm operation is one step under its signature's lock; a crash between the archive write and the removal of the open file is not modelled.
- SystemAlarms.EveryRaiseIsAccountedFor: records are kept by signature, so it speaks of signatures with distinct file names (`NamesAgreeIff` says which), or of files if signatures are read as file names.
- DispatchHandshake.Handshake.ProdLoop: takes surroundings that at some round end the loop, because the loop itself need not; senders and the application answer without raising.
- PendingQueue.DrainUndoesQueueIff: one process at a time; an append that races with the removal of the file is not modelled, nor are I/O failures, which the source logs and swallows.
- MemoryEmit.DerivedStampDecodes: which eight digits name a real day is a parameter; the check of the time part is modelled.
- AddCommand.AddKeepsGatesIff: inferred worker and role, the difficulty as a number, the preflight's verdict and what the decorators write are parameters; a candidate's gate and decision are text or absent.
- Link merging and the write in `emit`: only the stem and its stamp check are modelled.
- BuildPacket.PacketIgnoresOrder: the ticket's parsed sections are given, the percentage is left out because it is a rounding of the two modelled counts, and the fingerprint is a function of the packet.
- Walking the syntax tree in `audit_check_igorbase.py`: the class definitions arrive as a list in walk order.
- tmux, HTTP, channel posts and the model-driven tools of the repository.
