# Observer and diagnostics harness: a verified model

This project models four parts of the eMule test harness and proves what they promise.

**The observer protocol.** The observer drives one synchronized search at a time on two clients and
must survive being killed anywhere. It keeps a durable state, validates it with a hand-written
invariant, and persists it after every phase: reserve a cycle, prepare both creates, send each
request, record its outcome, poll results under a deadline, record the driver cycle, mark evidence
pending, store the report, commit it. `ObserverSummary` and `ObserverState` hold the state, its
validation and every transition; `ObserverValidity` reads a valid state off its fields; `ObserverRun`
is the protocol as a state machine over the durable state, the stored artifacts, a log of external
effects, a non-decreasing clock and the point the process has reached, with `Crash` possible
everywhere. `ObserverSafety`, `ObserverLedger` and `ObserverTheorems` prove the invariant of all
runs. `ObserverProtocol` is the same protocol in plain terms, field by field, with no copying,
guarding or validating, and proves every step of every run to be the plain one. `ObserverHistory`,
`ObserverProgress`, `ObserverCheckpoints`, `ObserverTermination`, `ObserverOutcomes` and
`ObserverCoverage` prove the theorems over whole runs, `ObserverScenarios` has concrete runs, and
`ObserverDriver` is the process itself, a class whose methods follow the source phase by phase and
whose fields are proved to be those of the run of events it carried out.

**The diagnostic scan.** `RunIndex` specifies the compact index of a run and proves that it is a
fold and that its counts are conserved; `RunIndexHistory` says for which records it exists and
computes it from them; `RunIndexer` is the index built in place. `RunScan` has the checkpointed
scan, the final pass and the batch loader, `RunScanTheorems` and `RunScanBatch` relate them,
`RunScanExact` says exactly when each succeeds, and `RunScanner` has their loops.

**The trace auditors.** `UdpLifecycle`, `ConnectionAudit` and `EventDiff` prove the violation
counting loops sound and complete for a bijection, an automaton walk, multiset inclusion and edit
scripts, and say what each count is the number of.

**Bytes on disk and on the wire.** `RotatingLog` is the bounded log, `PartStatus` the bitmap codec,
`WireCodec`, `WireMessages`, `UdpSources`, `WireReader` and `Frames` the eD2K formats; `WireTags`
and `WireRows` write every form of a tag and any search result out and read them back.

`Wrappers`, `Tally`, `Totals`, `Division`, `Blanks`, `JsonFields` and `Bytes` are shared helpers.
Instants and durations are integers in microseconds. A `Failure` or a `false` result is an exception.

Run `dafny verify dfyconfig.toml` to check everything.

## What the code does not promise

These follow the code where its own descriptions say more; each has a lemma.

- One create phase can put two requests on the wire: `create_search` goes through a REST helper with
  two attempts. The protocol guarantees one phase per cycle and client and no replay after a restart;
  the second request is sent exactly when the first one failed and the process was not killed before
  sending it (`RetryReachesTheWire`, `AtMostOneCreate`, `SecondRequestExactly`).
- A checkpoint whose artifact is stored but whose summary is not persisted (a crash or a failed write)
  leaves one more artifact than the state counts. The next counted checkpoint then persists a state
  that fails validation, and no later start repairs it, unless retention already drops files
  (`WedgeExactly`, `BrokenForever`, `LostCheckpointBreaks`).
- A drive can end in an exception that none of its handlers catches: a probe, create answer or result
  page that raises anything but the handled errors (a body that is not a JSON object), a page whose
  total is less than its rows, a search identifier of white space, a report that cannot be built
  (`RunRaisesExactly`, `WhitespaceIdRaises`). A create answered so stays prepared and is closed as
  ambiguous after a restart. A page or a report that raises leaves the action as it was, so every
  restart can meet it again: pages only until the search deadline, reports without limit
  (`UnreadablePageStalls`, `PageStallsOnlyBeforeDeadline`, `RunWorks`).
- `record_action` can leave a state that fails validation, in any of four ways: a blank time, a
  recorded gate change not dated with a UTC instant, and a recorded divergence with a blank action
  identity or with `true` for a number (`RecordActionExact`, `UncheckedFoldBreaksValidity`).
- Following a run from its tail marks the segment before the active one, so that a run marked at
  segment zero has no mark: its first scan starts with the oldest file still there and misses none
  before it (`TailStartsThere`, `UnmarkedStartsAtOldest`, `TailAtZeroMayStartLater`).
- Finalizing with an empty time writes a checkpoint that can never be loaded again (`FinalizeTwice`).
- The batch loader refuses a run identifier of white space only, which the scan accepts
  (`BatchAgrees`); it reads runs with an empty segment between two others, which the scan refuses
  (`EmptyMiddleSegment`).
- The part-status encoder writes the empty bit string like a complete source (`RoundTripExactly`).

## Model

| member | source | states |
|---|---|---|
| ObserverTheorems.RunInv | emule_test_harness/converged_observer.py:1038-1472 | in every run of the observer, with a crash and restart allowed between any two steps (a request and its persisted outcome included), the protocol invariant holds: the durable state passes validation but for the checkpoint counters, creates are in step, poll budgets hold, the process position fits the state, requests are unique, the books balance |
| ObserverProtocol.RunIsPlain | emule_test_harness/converged_observer.py:1038-1472 | every step of every run leaves exactly what the plain protocol says, field by field: what each recorded create, page, expiry, cycle, skip, checkpoint, deadline, retention entry and effect consists of; an exception leaves everything but the process |
| ObserverTheorems.AtMostOneCreate | emule_test_harness/converged_observer.py:1206-1235 | over every run each request is sent at most once per cycle, client and attempt, whatever restarts happen, a second attempt only after the first one failed, and no persisted state has one create empty and the other begun (so the peer-skipping branch is never reached) |
| ObserverTheorems.SecondRequestExactly | emule_test_harness/converged_action_driver.py:281-294 | over every run the second request of a create phase is in the log if and only if the first one failed, the retry is not just about to go out, and the process was not killed before sending it |
| ObserverTheorems.RetryIsSent | emule_test_harness/converged_action_driver.py:281-294 | once the first request failed, whatever happens next short of a kill is the second request |
| ObserverTheorems.NeverReplayed | emule_test_harness/converged_observer.py:1172-1194 | once a cycle whose creates were begun is out of the hands of the process that began them, no continuation of the run, crashes included, sends anything more for it |
| ObserverTheorems.PreparedIsClosed | emule_test_harness/converged_observer.py:1172-1193 | for a create found prepared on entry the only possible step closes it as ambiguous at that instant; nothing else in the world changes |
| ObserverHistory.OneReportPerCycle | emule_test_harness/converged_observer.py:556-618 | over every run cycles, stored reports and commits are numbered from 1 without gap or repetition; cycle n+1 is reserved only after commit n, a report is stored only while its cycle is the open one and before its commit; totals equal driver cycles, one less between outcome and commit; each schedule slot is consumed once |
| ObserverHistory.RateLimit | emule_test_harness/converged_observer.py:828-906 | under any crashes the reservation after a commit comes at least the search interval later |
| ObserverOutcomes.NextTurnExactly | emule_test_harness/converged_observer.py:828-906 | the rate limit from both sides: after a drive that leaves nothing pending, and whatever restarts come between, a turn of the loop takes the next action if and only if the search interval has passed |
| ObserverOutcomes.PendingTurnExactly | emule_test_harness/converged_observer.py:872-906 | with an action pending a turn of the loop drives it if and only if one of its polls is due or none is open |
| ObserverHistory.SummaryIsHistory | emule_test_harness/converged_observer_state.py:831-850 | in every run the persisted totals, histograms, recent lists and gate are those read off the committed reports in the store |
| ObserverOutcomes.CyclesAreRead | emule_test_harness/converged_observer.py:970-1030 | over every run the recorded outcome of a pending action is ok if and only if both creates succeeded and both results have no error, its errors are exactly those of the failed or skipped creates and of the failed results, the first client's first, and the number of cycle errors is that of the cycles closed so far with a failure |
| ObserverOutcomes.PollsAreRead | emule_test_harness/converged_observer_state.py:654-808 | over every run the counts a client's poll persists, open or closed, are those of the last page read for it since the reservation; an error leaves them, adds one attempt and one error and is the latest error; nothing else changes them |
| ObserverOutcomes.PendingIsReserved | emule_test_harness/converged_observer_state.py:482-522 | over every run a pending action is the last reservation in the log, with its slot, cycle, time, term and method |
| ObserverOutcomes.ReportsNameTheirMethod | emule_test_harness/converged_observer.py:556-602 | over every run each stored report is one of a search and carries the name of the method its cycle was reserved with |
| ObserverOutcomes.CheckpointsAreRead | emule_test_harness/converged_observer_state.py:429-461 | over every run the checkpoint count and its first and latest times are those of the counted checkpoints, the observed interval goes from the first to the last time seen in a checkpoint or a committed report, and the failures are those in a row since the last good checkpoint or start |
| ObserverProgress.RunRaisesExactly | emule_test_harness/converged_observer.py:1038-1472 | in a reachable world a step raises if and only if one of these holds: the loop meets an invalid durable state; a probe or a create answer raises something no handler catches; a page that is requested raises so, or has fewer results in all than rows; a created identifier is white space; the report cannot be captured, built, checked or stored; one checkpoint too many failed in a row. No guard or second validation of any transition ever fires otherwise |
| ObserverProgress.DeadlineReconciled | emule_test_harness/converged_observer.py:828-869 | whenever the loop is between turns an enabled observer has a deadline if and only if nothing is pending, and a pending action never has one |
| ObserverCheckpoints.WedgeExactly | emule_test_harness/converged_observer.py:474-492 | a step breaks the durable state exactly when it counts a checkpoint while more artifacts are stored than it makes counted |
| ObserverCheckpoints.OvercountMeansLost | emule_test_harness/converged_observer.py:435-493 | that is so exactly when an earlier checkpoint was stored without being counted and retention has not begun to drop files |
| ObserverCheckpoints.ValidExactly | emule_test_harness/converged_observer.py:414-493 | over every run the durable state passes validation if and only if no step so far counted a checkpoint over more artifacts than it made counted |
| ObserverCheckpoints.NothingLostStaysValid | emule_test_harness/converged_observer.py:435-493 | a run in which no checkpoint is lost between artifact and summary keeps the whole validation invariant |
| ObserverCheckpoints.BrokenForever | emule_test_harness/converged_observer.py:414-432 | a broken durable state is final: state, log, reports and files never change again |
| ObserverTermination.PollBudget | emule_test_harness/converged_observer.py:1250-1345 | each client of a pending action records at most ceil(search timeout / 2 s) poll attempts, whatever crashes happen |
| ObserverTermination.RunWorks | emule_test_harness/converged_observer.py:1154-1370 | over every run a drive step of a pending action strictly decreases its remaining work, even one that raises, if and only if it is not a requested page or a report that raises; no other step, crash and reload included, increases it |
| ObserverTermination.DriveStepsBounded | emule_test_harness/converged_observer.py:1154-1370 | along any continuation during which an action stays pending, the drive steps taken, those ended by a raising page or report not counted, plus the work left are at most the work at the start |
| ObserverTermination.PageStallsOnlyBeforeDeadline | emule_test_harness/converged_observer.py:1289-1312 | in every run a page that raises is met only while a client has an open poll whose deadline, the search timeout after its create, has not passed; after it polls close without a request |
| ObserverTermination.WorkBounded | emule_test_harness/converged_observer.py:1247-1359 | the work of any pending action is at most twice the poll budget plus a constant |
| ObserverTermination.ActionCanFinish | emule_test_harness/converged_observer.py:1154-1370 | from every reachable world with a valid durable state there is a continuation without another crash, with well-formed answers and a report that is built, that carries a pending action to its commit |
| ObserverScenarios.LostCheckpointBreaks | emule_test_harness/converged_observer.py:435-493 | a crash-free run with a single failed summary write after a stored checkpoint ends in an invalid durable state, for every retention limit above one |
| ObserverScenarios.RetryReachesTheWire | emule_test_harness/converged_action_driver.py:281-294 | one create phase can put two requests on the wire, because the REST layer repeats a failed one |
| ObserverScenarios.WhitespaceIdRaises | emule_test_harness/converged_observer_state.py:557-585 | a run in which a white-space search identifier raises after the request was answered and leaves the create prepared on disk |
| ObserverScenarios.UnreadablePageStalls | emule_test_harness/converged_action_driver.py:40-45 | a run that reaches its first poll and there meets a page with more rows than results in all: the drive raises and the work of the action stays the same |
| ObserverDriver.Observer.ReserveOrSkip | emule_test_harness/converged_observer.py:1061-1152 | the reservation phase as it runs is one plain step: a skip persisted, or a fresh pending action with the scheduled term and method; it raises only when the probe does, and then nothing changed |
| ObserverDriver.Observer.RecoverCreates | emule_test_harness/converged_observer.py:1172-1213 | after recovery no create is left prepared and none is left for the peer-skipping branch; nothing was sent |
| ObserverDriver.Observer.IssueCreates | emule_test_harness/converged_observer.py:1215-1245 | both intents are persisted before the first request; on success both creates have outcomes; it raises only for an answer that no handler catches or a white-space identifier, and then a create is left prepared on disk |
| ObserverDriver.Observer.Exchange | emule_test_harness/converged_action_driver.py:281-294 | one or two requests, the second if and only if the first failed; an outcome unless the answer raises what no handler catches |
| ObserverDriver.Observer.StartPolls | emule_test_harness/converged_observer.py:1247-1278 | every awaiting client gets a poll; never raises |
| ObserverDriver.Observer.PollOnce | emule_test_harness/converged_observer.py:1280-1348 | one plain step: at most one due client is served, its counts those of the page, and the drive continues exactly when both clients are terminal; raises only for a requested page that raises, and then nothing changed |
| ObserverDriver.Observer.CloseCycle | emule_test_harness/converged_observer.py:1350-1363 | one plain step, always accepted: the terminal cycle with the verdict and the errors of both clients |
| ObserverDriver.Observer.FinalizePendingAction | emule_test_harness/converged_observer.py:556-618 | stores the report unless an earlier process did, reuses a stored one unchanged, and commits exactly this sequence number; raises only when the report does not come about, and then nothing changed |
| ObserverDriver.Observer.CommitPending | emule_test_harness/converged_observer.py:604-618 | the commit is always accepted and clears the pending action |
| ObserverDriver.Observer.CaptureActionCycle | emule_test_harness/converged_observer.py:1038-1370 | the whole drive returns normally unless a probe, an answer, a page or the report raises what no handler catches, or an identifier is white space |
| ObserverDriver.Observer.ReconcileActionDeadline | emule_test_harness/converged_observer.py:828-869 | succeeds if and only if the durable state is valid, and then the deadline is armed as it must be |
| ObserverDriver.Observer.ActionDue | emule_test_harness/converged_observer.py:872-906 | answers if and only if the durable state is valid |
| ObserverDriver.Observer.CaptureCheckpoint | emule_test_harness/converged_observer.py:435-493 | artifact first, then the count; a checkpoint that fails before or after its artifact is stored leaves the state it had, and ends the process exactly when it reaches the failure threshold |
| ObserverDriver.Observer.RunObserver | emule_test_harness/converged_observer.py:1373-1472 | wherever the loop stops, its log has unique requests and ordered effects and its books balance, because its fields are those of the run of events it carried out; every turn looks whether to drive, except one that puts a failed checkpoint off |
| ObserverValidity.PollExactly | emule_test_harness/converged_observer_state.py:1226-1333 | an open poll is valid if and only if it was not tried yet, got only errors, or ends with a page or an error, its last attempt in time and before the next |
| ObserverValidity.ClientExactly | emule_test_harness/converged_observer_state.py:1047-1471 | a pending client is valid if and only if nothing follows a create that did not succeed, and one that did is followed by nothing, a valid open poll, or results that were completed, timed out or ran out |
| ObserverValidity.StateExactly | emule_test_harness/converged_observer_state.py:143-319 | a state is valid if and only if its summary is, every cycle, skip and pending action accounts for one slot and the numbers of the pending action fit, what is pending is sound, its times are not blank, and the files a store holds and those it dropped are the ones it saw and no more than were counted |
| ObserverState.NewStateValid | emule_test_harness/converged_observer_state.py:59-140 | the initial state is valid |
| ObserverState.RecordActionExact | emule_test_harness/converged_observer_state.py:322-330 | the unchecked fold leaves a valid state exactly for reports that are storable: time not blank, a UTC instant where the gate records it, and for a recorded divergence positive integers for sequence and cycle and an action identity that is not blank |
| ObserverState.RecordCheckpointValid | emule_test_harness/converged_observer_state.py:429-461 | succeeds exactly for a non-blank time on a valid state and keeps it valid although it does not check again |
| ObserverState.RetentionExact | emule_test_harness/converged_observer_state.py:906-928 | keeps the state valid exactly when the store reports no more files than were counted |
| ObserverState.DeadlineExact | emule_test_harness/converged_observer_state.py:464-479 | succeeds exactly on a valid state, and for an actual deadline only with nothing pending |
| ObserverState.ReserveExact | emule_test_harness/converged_observer_state.py:482-522 | a cycle can be reserved from every valid state with nothing pending and usable inputs; the second validation never refuses |
| ObserverState.PrepareExact | emule_test_harness/converged_observer_state.py:533-554 | succeeds exactly for a client of the pending action whose create is still empty; the second validation never refuses |
| ObserverState.CompleteExact | emule_test_harness/converged_observer_state.py:557-585 | succeeds exactly for a prepared create and, where an identifier is given, one that is not blank |
| ObserverState.SkipCreateExact | emule_test_harness/converged_observer_state.py:588-611 | succeeds exactly for a client of the pending action whose create is still empty, whatever the peer did, and then that client's create alone is the skip with its time and error |
| ObserverState.StartPollExact | emule_test_harness/converged_observer_state.py:614-651 | succeeds exactly for a client that awaits its poll, with a start no earlier than its create and a later deadline |
| ObserverState.AttemptExact | emule_test_harness/converged_observer_state.py:654-739 | the guards on due time, counts, completion and rescheduling are exactly what the second validation accepts (what is then recorded is said by `RunIsPlain` and `PollsAreRead`) |
| ObserverState.ExpireExact | emule_test_harness/converged_observer_state.py:742-777 | succeeds exactly when the deadline has passed and there is an error given or an earlier attempt to report |
| ObserverState.EvidenceExact | emule_test_harness/converged_observer_state.py:810-828 | succeeds exactly once: with the driver outcome recorded, both clients terminal and no evidence window yet |
| ObserverState.CommitExact | emule_test_harness/converged_observer_state.py:831-850 | accepts exactly the storable reports with the identity, sequence and cycle of the pending action |
| ObserverState.CycleExact | emule_test_harness/converged_observer_state.py:853-887 | accepts exactly the next cycle, and with an action pending only its own cycle once both clients are terminal; it then adds one cycle, one error unless it is ok and names none, one download if scheduled, and becomes the latest |
| ObserverState.SkipExact | emule_test_harness/converged_observer_state.py:890-903 | a skip is recorded exactly when nothing is pending |
| ObserverSummary.FoldRefinesHistory | emule_test_harness/converged_observer_state.py:333-426 | folding any sequence of reports succeeds exactly for acceptable sequences and then equals the summary defined by counting labels over the history: totals, the three histograms, last-n lists and gate |
| ObserverSummary.FoldKeepsValid | emule_test_harness/converged_observer_state.py:333-385 | folding keeps a summary valid if and only if the report is storable |
| ObserverSummary.FailedIsAbsorbing | emule_test_harness/converged_observer_state.py:413-426 | a failed gate stays failed and its divergence receipt never changes |
| ObserverSummary.ReceiptNamesFirst | emule_test_harness/converged_observer_state.py:409-424 | the receipt has the sequence, action, cycle, method, time and digest of the first confirmed divergence |
| ObserverSummary.RecentAreTheLast | emule_test_harness/converged_observer_state.py:1620-1624 | the two recent lists condense the last reports, and the last that are no parity, field by field and in order, as many as there are up to their limits |
| ObserverSummary.GreenAtSome | emule_test_harness/converged_observer_state.py:397-408 | green is dated at some point if and only if some prefix without divergence met all targets |
| ObserverSummary.UncheckedFoldBreaksValidity | emule_test_harness/converged_observer_state.py:322-330 | four concrete reports (a blank time; a divergence dated with free text, with a blank action identity, with the sequence number `true`) that the unchecked fold accepts and that leave an invalid summary |
| ObserverSummary.CumulativeSummary.FoldActionReport | emule_test_harness/converged_observer_state.py:333-385 | the in-place update equals the fold, and a refused report changes nothing |
| ObserverSummary.CumulativeSummary.FoldParityGate | emule_test_harness/converged_observer_state.py:388-426 | the in-place gate update |
| ObserverSummary.CumulativeSummary.AppendBounded | emule_test_harness/converged_observer_state.py:1620-1624 | keeps the last elements up to the limit, the new one last |
| ObserverSchedule.PendingGateSchedulesUnmet | emule_test_harness/converged_observer.py:923-936 | while the gate is pending the scheduled method is below its target |
| ObserverSchedule.PeriodCoversEveryPair | emule_test_harness/converged_observer.py:934-936 | however the gate changes from slot to slot, as long as it is not pending at any of them, a window of twice as many slots as terms asks for every term position with every method exactly once |
| ObserverCoverage.PendingReservesUnmet | emule_test_harness/converged_observer.py:908-937 | over every run a cycle reserved while the gate is pending searches, on the network and in its report, by a method that misses its target; when only one does, with every term in turn |
| ObserverCoverage.GateStaysDecided | emule_test_harness/converged_observer_state.py:388-426 | over every run a gate that is no longer pending never becomes pending again |
| ObserverCoverage.RunCoversEveryPair | emule_test_harness/converged_observer.py:908-937 | over every run, from the moment the gate is decided, a consumed window of twice as many slots as terms holds exactly one slot for each term position and method, each slot was consumed once, and each cycle reserved in it searched the term of its slot on the network of its method |
| RunIndex.AdvanceInParts | emule_test_harness/diagnostic_run_index.py:108-124 | indexing xs then ys is indexing xs + ys, failures included |
| RunIndex.RecordConserved | emule_test_harness/diagnostic_run_index.py:199-285 | counting one record keeps every conservation law |
| RunIndex.IndexConserved | emule_test_harness/diagnostic_run_index.py:199-405 | in every index reached from empty: record count = sum of family counts = process last - first + 1; each family count = stream last - first + 1 = sum of its events = sum of its severities, opcode records sum to at most it, omitted prefix = first - 1, all bounds hold |
| RunIndexHistory.IndexIsHistory | emule_test_harness/diagnostic_run_index.py:108-405 | indexing records succeeds if and only if each of them has the schema, identity and fields asked for, continues the process, segment and stream sequences and stays within every bound on distinct values; the index is then the one computed from the records, every span and every counter (families, events, severities, outcomes, key presence, and opcodes under the marker and number of the body, or of the keys where the body has none) |
| RunIndexer.CountKeyNames | emule_test_harness/diagnostic_run_index.py:228-234 | the key-name loop equals its specification and fails exactly when it does |
| RunIndexer.Indexer.AdvanceOne | emule_test_harness/diagnostic_run_index.py:199-285 | the field updates for one record equal its specification and fail exactly when it does |
| RunIndexer.Indexer.AdvanceSpans | emule_test_harness/diagnostic_run_index.py:317-340 | process and segment sequences updated in place |
| RunIndexer.Indexer.AdvanceAll | emule_test_harness/diagnostic_run_index.py:108-124 | the record loop equals the fold, or fails exactly when it does |
| RunScanTheorems.SegmentsAreOneFold | emule_test_harness/diagnostic_run_scan.py:442-488 | consuming segments one by one equals indexing their concatenation, succeeding exactly when that does and every segment is clean |
| RunScanTheorems.ScanKeepsFaithful | emule_test_harness/diagnostic_run_scan.py:28-163 | a live scan produces a consistent checkpoint whose index is one pass over the counted segments, which end just before the active one (or none are counted), keeping the first one |
| RunScanTheorems.FinalizeKeepsFaithful | emule_test_harness/diagnostic_run_scan.py:166-268 | finalizing consumes on to at least the last observed active segment and keeps the checkpoint consistent and faithful |
| RunScanTheorems.ScansAreOnePass | emule_test_harness/diagnostic_run_scan.py:28-374 | any interleaving of scans, lost results, restarts from saved checkpoints and finalization leaves one interval of segments, each consumed once, indexed as one pass |
| RunScanTheorems.ConsumedOnlyGrows | emule_test_harness/diagnostic_run_scan.py:442-488 | along any passes the first consumed segment never changes and the last never goes back |
| RunScanTheorems.FinalizeTwice | emule_test_harness/diagnostic_run_scan.py:201-207 | finalizing again changes nothing if and only if the first pass was given a non-empty time; with an empty one its checkpoint can never be loaded |
| RunScanExact.ScanExactly | emule_test_harness/diagnostic_run_scan.py:28-163 | a live scan succeeds if and only if its identity, time, health and checkpoint are in order and the closed segments behind the checkpoint, the mark or the oldest file are all there, readable, of this run and acceptable to the index; it then counts just those and says so in every field |
| RunScanExact.FinalExactly | emule_test_harness/diagnostic_run_scan.py:166-268 | the same of the final pass, through the newest file, which must reach the last observed active segment |
| RunScanExact.TailStartsThere | emule_test_harness/diagnostic_run_scan.py:87-100 | after a run was marked at its active segment, no pass, live or final, whatever is lost or restarted, ever counts a segment before it, and for a mark above zero what is counted starts with it |
| RunScanExact.UnmarkedStartsAtOldest | emule_test_harness/diagnostic_run_scan.py:87-100 | for a mark at zero what is counted starts with the oldest file, which is segment zero if and only if it is still there |
| RunScanExact.TailAtZeroMayStartLater | emule_test_harness/diagnostic_run_scan.py:87-100 | a concrete run marked at zero whose counted segments start with three |
| RunScanExact.ConsistentExactly | emule_test_harness/diagnostic_run_scan.py:271-374 | a checkpoint source is consistent if and only if it is the record of one interval of segments, behind its mark and before the active segment, of a run that is live or finalized |
| RunScanExact.BatchExactly | emule_test_harness/diag_event_runs.py:504-577 | the batch loader reads exactly the directories with one readable file for each segment of an interval, whose records are of the run and the segment and have no gap in their process sequence, and returns all records in order |
| RunScanBatch.BatchAgrees | emule_test_harness/diag_event_runs.py:304-343 | for any retained suffix of the consumed, unchanged segments the batch loader returns exactly their records, or fails if and only if the run identifier is blank |
| RunScanBatch.FinalizeIsBatch | emule_test_harness/diag_event_runs.py:504-577 | finalizing without a checkpoint succeeds exactly when its identity is not empty, the health did not go back, one pass over the files succeeds, the index accepts its records and the files reach the active segment; the index is one fold over those records, and the batch loader is that pass unless the run identifier is blank |
| RunScanBatch.EmptySegmentsOnlyAtTheEnds | emule_test_harness/diagnostic_run_index.py:331-340 | no empty segment is ever counted between two that hold records |
| RunScanBatch.EmptyMiddleSegment | emule_test_harness/diagnostic_run_index.py:331-340 | a concrete run with an empty middle segment that the batch loader reads and the final pass refuses |
| RunScanner.ConsumeSegments | emule_test_harness/diagnostic_run_scan.py:442-488 | the segment loop equals its specification and fails exactly when it does |
| RunScanner.LoadSegment | emule_test_harness/diag_event_runs.py:538-566 | the record loop of the batch loader |
| RunScanner.LoadInOrder | emule_test_harness/diag_event_runs.py:524-568 | the segment loop of the batch loader, carrying the previous sequence number |
| UdpLifecycle.AuditIsExact | emule_test_harness/diag_event_diff.py:592-666 | no violation if and only if attempts and terminals are well formed and in one-to-one correspondence by ID, each terminal after its attempt |
| UdpLifecycle.CleanExactly | emule_test_harness/diag_event_diff.py:592-666 | no violation if and only if every sent packet starts an ID, every outcome ends one and says the right thing about delivery, and each ID that occurs is started once and then ended once |
| UdpLifecycle.ViolationsExactly | emule_test_harness/diag_event_diff.py:592-699 | the number of violations is that of the sent packets that start no new ID, the outcomes without an ID, of another kind or wrong about delivery, the IDs not ended once after their start, and the IDs that end without one |
| UdpLifecycle.CountsExactly | emule_test_harness/diag_event_diff.py:592-699 | the attempts reported are the IDs that were started, the terminals the outcomes that have an ID |
| UdpLifecycle.CleanCountsAgree | emule_test_harness/diag_event_diff.py:687-699 | a clean trace has as many attempts as terminals |
| UdpLifecycle.Audit | emule_test_harness/diag_event_diff.py:592-699 | the two passes return exactly the specified violation count, the number of IDs started and of outcomes with an ID, and pass if and only if starts and ends are one to one |
| ConnectionAudit.AuditIsExact | emule_test_harness/diag_event_diff.py:758-852 | no violation if and only if there is a record, every record is right in every field, and every trace is a walk starting with an attempt |
| ConnectionAudit.ViolationsExactly | emule_test_harness/diag_event_diff.py:758-852 | the number of violations is that of the records filed under no trace, of the failed checks, each counted once, of the traces that do not start with an attempt, of the records that do not go on from the one before them in their trace, and one for an empty run |
| ConnectionAudit.MovesExactly | emule_test_harness/diag_event_diff.py:701-756 | the permitted transitions, listed as states |
| ConnectionAudit.Audit | emule_test_harness/diag_event_diff.py:758-860 | the passes return exactly the specified violation count and the number of traces |
| ConnectionAudit.WalkOne | emule_test_harness/diag_event_diff.py:826-843 | the walk of one trace counts a wrong start and every discontinuity |
| ConnectionAudit.ConnectedIsEarned | emule_test_harness/diag_event_diff.py:724-727 | in a sound trace connected is preceded immediately by awaiting and connecting, from one attempt |
| ConnectionAudit.DisconnectIsFinal | emule_test_harness/diag_event_diff.py:740-755 | in a sound trace nothing follows disconnected |
| ConnectionAudit.CloseBetweenStarts | emule_test_harness/diag_event_diff.py:740-755 | in a sound trace a close stands right before every later attempt start |
| EventDiff.DiffEvents | emule_test_harness/diag_event_diff.py:934-979 | greedy matching yields counts that are a function of the two multisets, the matched ones the size of their intersection; both sides are conserved; clean if and only if the oracle multiset is included |
| EventDiff.ScriptConserves | emule_test_harness/diag_event_diff.py:395-442 | for any valid edit script every packet of both sides is counted once, and a clean result means equal key sequences |
| EventDiff.ScriptExactly | emule_test_harness/diag_event_diff.py:395-442 | matched is the number of positions in equal blocks, and payload mismatches are the positions of other blocks at which both sides carry one opcode |
| EventDiff.DirectionExactly | emule_test_harness/diag_event_diff.py:370-389 | the packets of a direction are those of exactly its records, in order |
| EventDiff.ReplaceBlock | emule_test_harness/diag_event_diff.py:401-435 | positional pairing of an unequal block: its payload mismatches are the shared positions with one opcode, everything else is left over |
| EventDiff.DiffPackets | emule_test_harness/diag_event_diff.py:389-442 | one direction follows its script: totals conserved, matched and payload mismatches counted by position |
| EventDiff.DiffPacketFamily | emule_test_harness/diag_event_diff.py:370-466 | both directions together: totals conserved, and a passing family has equal wire-key sequences in each direction |
| RotatingLog.RotatingBinaryLog.Rotate | emule_test_harness/bounded_process_output.py:74-87 | the descending renames move every generation up by one and drop the last |
| RotatingLog.RotatingBinaryLog.Write | emule_test_harness/bounded_process_output.py:89-102 | every byte is written; a log written with write alone stays packed |
| RotatingLog.RotatingBinaryLog.WriteRecord | emule_test_harness/bounded_process_output.py:104-122 | a record is written whole at the end of the newest file, after a rotation if and only if it does not fit behind what is there, or refused, and then nothing changes |
| RotatingLog.RotatingBinaryLog.RetainedIsSuffix | emule_test_harness/bounded_process_output.py:74-122 | the retained files are exactly the last pieces written, none straddling files; no file exceeds the segment size and at most the retained number exist |
| RotatingLog.RotatingBinaryLog.RetainedExactly | emule_test_harness/bounded_process_output.py:89-102 | after T > 0 bytes by write alone exactly the last min(T, (R-1)*S + ((T-1) mod S) + 1) bytes are retained |
| PartStatus.DecodeEncode | emule_test_harness/client_udp_diagnostic_evidence.py:145-182 | decoding an encoding anywhere in a datagram gives the bits back with the exact end, except that the empty string reads as complete |
| PartStatus.RoundTripExactly | emule_test_harness/client_udp_diagnostic_evidence.py:172-182 | decode(encode(bits)) is bits if and only if bits is not the empty string |
| PartStatus.EncodeDecode | emule_test_harness/client_udp_diagnostic_evidence.py:145-169 | every accepted encoding re-encodes to the same bytes |
| PartStatus.EncodePartStatus | emule_test_harness/client_udp_diagnostic_evidence.py:172-182 | setting bits in place yields the specified encoding or the specified error |
| PartStatus.RequestsAreConcatenations | emule_test_harness/client_udp_diagnostic_evidence.py:185-213 | an accepted request of version 1 to 4 is exactly the concatenation of its decoded fields |
| PartStatus.RequestRoundTrip | emule_test_harness/client_udp_diagnostic_evidence.py:185-213 | every well-formed request is accepted with its own fields |
| PartStatus.AcksAreConcatenations | emule_test_harness/client_udp_diagnostic_evidence.py:216-240 | the same of acknowledgements; the rank is never zero |
| PartStatus.AckRoundTrip | emule_test_harness/client_udp_diagnostic_evidence.py:216-240 | every well-formed acknowledgement is accepted with its own fields |
| WireCodec.TagLocal | emule_test_harness/ed2k_wire.py:793-836 | reading a tag depends on exactly the bytes it consumes |
| WireCodec.TagSequenceSlices | emule_test_harness/ed2k_wire.py:839-852 | the slices of a decoded tag vector concatenate to the payload, and each decodes alone to its tag; a vector is accepted if and only if its count fits one byte and exactly that many tags fill the payload |
| WireTags.TagRoundTrip | emule_test_harness/ed2k_wire.py:793-836 | a tag of any kind (hash, string, short string, float, truth value, bit array, blob, small blob, 8 to 64 bits) with a short or a long name, written out, reads back as itself with whatever follows left over; a truth value is any byte, false only for zero |
| WireTags.TagPrinted | emule_test_harness/ed2k_wire.py:793-836 | whatever reads as a tag is one of these forms of it |
| WireReader.Reader.TakeBytes | emule_test_harness/ed2k_wire.py:161-168 | takes exactly the next bytes, or fails without moving |
| WireReader.Reader.DecodeTag | emule_test_harness/ed2k_wire.py:793-836 | the reader form of tag decoding equals its specification, which reads every form of every tag |
| WireReader.DecodeVector | emule_test_harness/ed2k_wire.py:839-852 | the tag loop accepts exactly the specified vectors |
| WireMessages.LoginRoundTrip | emule_test_harness/ed2k_wire.py:238-285 | a login is encodable exactly within its field limits and decodes to its fields and tags in order |
| WireMessages.OfferRoundTrip | emule_test_harness/ed2k_wire.py:661-681 | an offer is encodable exactly for 64-bit sizes and names that fit, and decodes as a search result with the same hash, name and size |
| WireRows.RowRoundTrip | emule_test_harness/ed2k_wire.py:855-882 | a search result with any tags reads exactly when its numbers are numbers, and then its hash, address, name, size, sources and complete sources are those of the last tag of each name, the size put together bit by bit |
| WireRows.ResultsRoundTrip | emule_test_harness/ed2k_wire.py:855-882 | any such results read back in order, with at most one byte behind them |
| WireRows.LookupExactly | emule_test_harness/ed2k_wire.py:855-882 | the value of a tag name is that of its last tag |
| UdpSources.V1Inverse | emule_test_harness/ed2k_wire.py:402-429 | version 1 encoding and decoding are mutually inverse between accepted datagrams and the lists that can be encoded, the non-empty ones of 16-byte hashes |
| UdpSources.ReadHashes | emule_test_harness/ed2k_wire.py:425-429 | the offset loop yields the hashes in order |
| UdpSources.V2Inverse | emule_test_harness/ed2k_wire.py:432-500 | the same of version 2, small sizes as u32 and large ones behind a zero, for every 64-bit size but zero |
| UdpSources.ReadAllTargets | emule_test_harness/ed2k_wire.py:471-500 | the offset loop accepts exactly the specified payloads |
| UdpSources.ReplyRoundTrip | emule_test_harness/ed2k_wire.py:503-553 | a reply is encoded if and only if its hash has 16 bytes, it has at most 255 sources, and each client ID and non-zero port fits; it then decodes back if and only if no client ID is the IPv6 sentinel |
| UdpSources.FoundInverse | emule_test_harness/ed2k_wire.py:885-930 | a list of found sources, obfuscated or not, with crypt options, user hashes and IPv6 addresses, reads back from its bytes, and nothing else is accepted |
| Bytes.LastByteWeighs | emule_test_harness/ed2k_wire.py:161-180 | integers are little-endian: each byte weighs 256 times the one before it |
| Frames.FrameRoundTrip | emule_test_harness/ed2k_wire.py:183-213 | a frame decodes back if and only if its payload is within the limit |
| Frames.FramePrinted | emule_test_harness/ed2k_wire.py:196-213 | an accepted clear frame is the one encoding of its fields |
| Frames.Socket.RecvExact | emule_test_harness/ed2k_wire.py:1090-1099 | exactly the next bytes however they are cut up, failing if and only if fewer arrive |
| Frames.Socket.Receive | emule_test_harness/ed2k_wire.py:971-988 | takes exactly the first frame off the stream and leaves the rest |
| Frames.Socket.ReceiveAll | emule_test_harness/ed2k_wire.py:971-988 | frames within the limit are received in order from any chunking of their concatenation |

## Left out

- Event: REST calls, sockets, threads, launchers and stop files appear only as nondeterministic answers (ready or not, request answered or failed, a page or an error, an exception no handler catches, a checkpoint that fails); which body, identifier or connection raises which of them is not modelled, except the total of a page and the white-space identifier; a write of the summary during a drive that fails and a launcher that ends the process are `Crash`, not raises; GET requests are not logged, since the code does not promise how often they are repeated after a crash.
- ReportFor: the report builder and its validation are not modelled, nor is evidence capture; they give a report or raise (`FailReport`), at any time; a report is any value with the campaign, sequence, action, cycle, time, method and kind that `observer_action_report` and `soak_run_layout` require, and the three-way gate classification is a field of it.
- Commit: the number of retained reports is any number up to the reports stored; pruning of report files is not modelled.
- Reconcile: a persisted state is replaced atomically; the bytes of the summary, digests and JSON are not modelled.
- CyclePayload: the search identifiers, counts and per-client records of the cycle payload are left out; its errors and verdict are kept.
- Budget: a search timeout below one microsecond is not modelled.
- Stamp: ISO-8601 text is an instant, other text, or blank; timestamps other than a report's own are always instants.
- Labelled: bucketed text is missing, exactly a label, a label in other case or with white space around it, or other text, instead of lower-casing and trimming strings.
- SummaryIsHistory: the observed interval is not included, because checkpoints move it too; `CheckpointsAreRead` has it.
- Accepts: the configuration is fixed during a run; a changed configuration digest is not modelled.
- NewIndex: writer-health field lists, interesting-record reasons and segment pinning are left out; a health sample the index refuses is one flag.
- FinalizeStoppedRun: file names, hashes, symbolic links and changes during a read are left out; a file is readable with its records or it is not, and all files are those of the one run.
- LoadExactRun: incomplete active tails and the choice of the latest run are left out.
- AdvanceOne: an index half updated before an integrity error is not described, because the caller drops it.
- Audit: violation details, outcome histograms and coverage lists are left out, and so are outcome or state fields that are lists or objects, on which the audits raise.
- DiffEvents: identities are compared with an equality that is reflexive, so not-a-number values are outside the model.
- DiffPackets: `SequenceMatcher` is any edit script that covers both sequences with truly equal equal-blocks; a family that passes has equal keys, but equal keys passing depends on the matcher.
- RotatingBinaryLog: generations left by earlier runs and their pruning at start-up are left out; short writes are not modelled.
- DecodeFrame: packed frames are not modelled.
- ReadTag: text is kept as its bytes, without UTF-8 decoding and replacement; floats as their four bytes.
- IntegerOf: a size or source count sent as text, bytes or a float is refused here, where the source tries to convert it.
- DecodeRequest: the hexadecimal text of a datagram is its bytes.
- EncodeLogin: other message pairs (server status, description, identity, callbacks, search expressions) only add easy members.
- Large evidence gates, the scheduling diff, schema audits and report builders elsewhere in the repository are conjunctions of field checks and are not part of this model.
