# Verified model of the Taskfleet run store

Taskfleet keeps each run in a directory: an append-only log of JSON lines (`events.jsonl`), a
manifest file and one file per node. A writer holds the run's lock, plans an event against the
current projections, appends it, carries out the planned projection writes one by one, and
then moves the manifest's `applied_seq` watermark. A crash may fall between any two of those
writes, or inside the log write; the next writer catches up by folding the logged events above
the watermark again. This project models that store in Dafny and proves what the protocol
keeps, over every log and every history of lock holds and crashes.

`dafny verify dfyconfig.toml` checks the whole project.

## How the files fit together

| file | what it holds |
|---|---|
| `Prelude.dfy`, `Schema.dfy` | shared vocabulary; run, node and event shapes; the status roll-up |
| `EventFile.dfy`, `Quarantine.dfy` | the log as bytes: lines, torn tails, the readers, the backward scan, excision of corrupt lines |
| `Report.dfy`, `ReportSchema.dfy`, `ReportGate.dfy` | merge authority of a report; strict validation and the lenient sanitiser; what the reducer asks beside them |
| `NodeStatusFold.dfy`, `StatusAccumulator.dfy` | node status read off the log alone, as a function and as the streaming accumulator |
| `Reducer.dfy`, `ReducerLaws.dfy`, `Refold.dfy`, `Provenance.dfy` | the plan from state and event to writes; what every step keeps; folding an event twice; where facts come from |
| `Effects.dfy`, `LogReading.dfy` | what each event does once accepted and exactly when it is; every fact of the projections read off the log |
| `Recovery.dfy`, `CrashSafety.dfy` | catch-up; lock holds and crashes; full equality with the fold of the log |
| `CrashAgreement.dfy`, `CrashInvariants.dfy` | outcomes after every crash; the safety invariants, and the log behind every fact, on every disk of every history |
| `CrashWindows.dfy`, `CleanHistory.dfy` | exactly what one crash loses; histories that lose nothing, open requests included |
| `SourceErasure.dfy`, `LostSource.dfy` | recovery with the source branch set aside; what its loss costs a caller-owned run |
| `ByteDisk.dfy` | the same theorems down to the bytes of the log write |
| `LogFold.dfy`, `LegacyMigration.dfy` | the log-derived status agrees with the reducer; failed-run recovery; migration of a manifest without watermark |
| `Keyed.dfy`, `KeyScan.dfy`, `RunStore.dfy` | idempotency keys; the scan for one; the run directory as an object with the append and catch-up code |
| `Cancel.dfy`, `CancelReady.dfy`, `CancelProtocol.dfy`, `CancelKeeps.dfy`, `CancelNodeCrash.dfy`, `CancelCode.dfy`, `CancelHistory.dfy` | the events of a cancel; `cancel_run` and `cancel_node` from any disk; what they keep; a cut `cancel_node`; their code; whole histories of the log |
| `Reservation.dfy` | keyed run reservations under a lock, and the hard-link race without one |

Functions are the reference meaning of the code that only computes (plans, folds, validators).
Code that updates files or objects in place is a class or a method with loops, proved equal to
such a function; the laws are then lemmas about the function. Each node event kind has a typed
payload; an outer `None` stands for a payload whose required fields are missing or ill-typed.
JSON syntax is an uninterpreted parse and render pair with the assumptions of
`EventFile.Lawful`.

## What came out

- The projections say what the log says. Over every log, a node has a status, place, attempt, report,
  exit, death, pending merge, open request, session or lifecycle exactly when some event set it and
  no later one ended it, and likewise the manifest its owner, source branch and settlement intent
  (`LogReading.FactsAreRead`, `LogReading.RunFactsAreRead`); `Effects` gives the condition under
  which each kind of event is accepted and what it leaves.
- Outcomes survive every crash. Over every history of lock holds, cut at any byte or between any
  two writes, catch-up shows the node set, the live/terminal split, the terminal statuses and
  the run status of the log (`CrashAgreement.CrashAgreementHolds`, `ByteDisk.ByteCrashAgreement`).
- So does safety. On every disk of every such history, and after its catch-up, merges are linked to
  the one settlement intent, at most one is pending in a caller-owned run, open requests and Pi
  facts are in order, and a logged event addressed to the node says each of its facts; between any
  two disks terminal statuses, the intent, sessions and generations move only as the reducer allows
  (`CrashInvariants.CrashInvariantsHold`, `ByteDisk.ByteCrashInvariants`).
- The rest of the projections survives except in four windows.
  `CrashWindows.CrashLosesExactly` proves, from any caught-up store, that a crash between
  logging an event and acknowledging it is healed by the next catch-up if and only if it hit none
  of them: between the two writes of a `node.created` that reveals the source branch; after the
  write of a `node.retry` without `attempt` whose counter is not saturated; after the write of a
  `node.awaiting_input` whose items fit twice; and after the write of a `node.input_resolved` or
  `node.resumed` that closes a request while another request of that node, refused earlier for
  want of room, is still above the watermark. In the last window an answered question comes back
  (`CrashWindows.AnsweredQuestionReopens`). Histories whose crashes miss all four equal the fold of
  the log, open requests included (`CleanHistory.CleanHistoryIsExact`).
- A caller-owned run that loses its source branch in the first of these windows can never start a
  merge that names it (`LostSource.NeverMergesAgain`). In a Taskfleet-owned run no
  reducer reads the field, and everything else in the projections is recovered
  (`SourceErasure.TaskfleetRecovery`); the merge and cleanup commands outside this model do read it.
- Re-folding a whole log over its own result is not always the identity on statuses, although the
  source calls it safe: `node.resumed` is skipped the second time, so a resident node that was set
  running and then resumed reads running again. `LegacyMigration.LegacyMigrationExactly` gives the
  exact condition, `LegacyMigration.ResidentMigrationChangesStatus` a four-event log. Resident runs
  are younger than the watermark, so no earlier version wrote such a directory; it is one that the
  manifest reader accepts with the watermark defaulting to zero.
- The comment at `crates/taskfleet-core/src/events.rs:91-95` says the backward scan accepts a
  last line exactly when the strict reader does. `EventFile.TreatedAlike` and
  `EventFile.LastLineAlike` give the exact condition. A line of spaces breaks one half of it, a
  line with a valid envelope and an ill-typed `idempotency_key` the other (`EventFile.TheyPart`).
- The comment at `crates/taskfleet-core/src/cancel.rs:511-515` says the reducer rejects a
  cancellation without reason. It accepts a report on a live node exactly when the report
  expresses one outcome, whatever `reason` is; only the report validator looks at it
  (`ReportGate.LiveReportAccepted`, `ReportGate.ValidatorIsStricter`). The model follows the code.
- Catching up twice equals catching up once for every log and store, even though refused events
  stay above the watermark (`CrashSafety.CatchUpIsIdempotent`).

## Model

| member | source | states |
|---|---|---|
| `Schema.AggregateTerminalStatus` | crates/taskfleet-core/src/schema.rs:437-464 | the one-pass roll-up: none exactly while a node is live or there is none; else Failed exactly if any failed, Cancelled exactly if none failed and any was cancelled, Done exactly if all are done |
| `EventFile.SplitJoins` | crates/taskfleet-core/src/events.rs:823-865 | complete lines and torn tail put together again are the file, and none of them contains a newline |
| `Quarantine.JoinSplits` | crates/taskfleet-core/src/events.rs:823-865 | the inverse: newline-free lines and tail, joined, split back into themselves |
| `EventFile.StrictIsTolerant` | crates/taskfleet-core/src/events.rs:887-919 | the strict reader accepts exactly when no complete line is corrupt, and then reads what the tolerant catch-up reader reads |
| `EventFile.ContentSays` | crates/taskfleet-core/src/events.rs:1221-1233 | a line's content is the line without one trailing carriage return |
| `EventFile.FindPrevNewline` | crates/taskfleet-core/src/events.rs:126-151 | for every chunk size, the last newline strictly before an offset, or none exists |
| `EventFile.RecoverLastSeq` | crates/taskfleet-core/src/events.rs:31-89 | the chunked backward scan computes the last-sequence function over the complete lines, for any content |
| `EventFile.BackReadsLastSolid` | crates/taskfleet-core/src/events.rs:31-89 | the scan answers with the envelope of the last line that is not blank, and with zero if every line is |
| `EventFile.BackwardRefinesForward` | crates/taskfleet-core/src/events.rs:31-89 | wherever the strict forward reader accepts, the backward scan yields its last event's sequence, zero if none |
| `EventFile.BackwardAcceptsMore` | crates/taskfleet-core/src/events.rs:68-80 | the converse fails: a file of one line of spaces is scanned to zero and refused by the reader |
| `EventFile.TreatedAlike` | crates/taskfleet-core/src/events.rs:91-122 | for every record syntax, scan and strict reader treat a line alike (skip, refuse, or take with the same number) if and only if it is empty or not blank, and its envelope is valid exactly when the record is |
| `EventFile.LastLineAlike` | crates/taskfleet-core/src/events.rs:91-122 | for the last line of a file whose other lines the reader takes: the scan answers as the strict reading does, number or refusal, exactly under that condition |
| `EventFile.TheyPart` | crates/taskfleet-core/src/events.rs:97-106 | the two inputs: a line of spaces for every record syntax, and an ill-typed field beside a valid envelope for a lawful one |
| `EventFile.ForEachEvent` | crates/taskfleet-core/src/events.rs:887-940 | the streaming reader returns the strict reading of the file, failing on the first corrupt complete line and dropping a torn tail |
| `EventFile.ForEachTolerant` | crates/taskfleet-core/src/events.rs:709-727 | the reader of catch-up returns the tolerant reading, passing over corrupt complete lines |
| `EventFile.KeepLength` | crates/taskfleet-core/src/events.rs:167-194 | the bytes kept by truncation are the file without its torn tail |
| `EventFile.TruncationKeepsLines` | crates/taskfleet-core/src/events.rs:167-208 | truncating keeps every complete line, leaves no tail, and does nothing the second time |
| `EventFile.AppendIsAtomic` | crates/taskfleet-core/src/events.rs:445-475 | after truncation, every prefix of the appended line reads back as the old events, or those and the new one once the newline is there, for both readers |
| `Quarantine.ExciseCorruptLines` | crates/taskfleet-core/src/events.rs:1024-1046 | the excision loop computes the recovered bytes and the offsets of the removed lines |
| `Quarantine.QuarantineIsCorrect` | crates/taskfleet-core/src/events.rs:1006-1062 | recovered bytes pass the strict reader and give exactly the parsable events in order; removed lines reinserted at their increasing offsets give the original; nothing is removed exactly when the log was clean; a second call finds nothing |
| `Report.OriginRoundTrip` | crates/taskfleet-core/src/report.rs:100-135 | decoding an encoded origin gives it back |
| `Report.StampDecidesMerge` | crates/taskfleet-core/src/report.rs:146-192 | a stamped report is a confirmed merge exactly when the stamp is the merge path and the payload is a plain success, whatever origin or `via` it carried |
| `Report.StampSays` | crates/taskfleet-core/src/report.rs:175-192 | a stamp sets the origin, whatever was there, and touches nothing else |
| `Report.OutcomeSays` | crates/taskfleet-core/src/reducer.rs:1971-1996 | what a report says by its two flags: Done, Failed and Cancelled each exactly characterised |
| `Report.OriginReads` | crates/taskfleet-core/src/report.rs:100-135 | which origin an encoded value is: the tag decides, and a run merge is one only if each of its ids is a string, null or absent |
| `Report.MergeSays` | crates/taskfleet-core/src/report.rs:146-172 | merge authority by the report's own fields, the legacy `via` counting only where there is no origin at all |
| `Report.SkimIsFaithful` | crates/taskfleet-core/src/cancel.rs:593-625 | the fields the status fold skims decide merge authority and outcome as the whole report does |
| `ReportSchema.RequiredMeansOutcome` | crates/taskfleet-core/src/report.rs:388-433 | required fields in order mean exactly one terminal outcome, with a non-blank reason if it is cancellation |
| `ReportSchema.KeptIsTheValidSubsequence` | crates/taskfleet-core/src/report.rs:708-777 | kept elements are the valid ones in order, warnings name the original positions of the others in order, also in the error they carry, and together they account for every element |
| `ReportSchema.ValidMeansGood` | crates/taskfleet-core/src/report.rs:450-565 | which elements are in order, apart from the errors: strings; objects with a topic that is not blank, a string severity and all-string options if present; objects with a title that is not blank, one of the four run kinds and a rationale that is a string, null or absent |
| `ReportSchema.ErrorNamesPosition` | crates/taskfleet-core/src/report.rs:450-565 | an element's error names its own position |
| `ReportSchema.CleanIsCleaned` | crates/taskfleet-core/src/report.rs:660-701 | each advisory array of the cleaned report is the good elements of the input array in order, a non-array is gone, a summary stays exactly if it is a string or null, and every other field is untouched |
| `ReportSchema.RequiredErrorSays` | crates/taskfleet-core/src/report.rs:388-433 | which fault of the required fields is reported, and that there is none where they are in order |
| `ReportSchema.SanitiseReportAdvisory` | crates/taskfleet-core/src/report.rs:660-701 | rejects exactly on a non-object root or bad required fields, with that error; else returns one warning per drop and the report whose advisory arrays keep exactly the good elements, in order, everything else as it was |
| `ReportSchema.Draft.SanitiseArray` | crates/taskfleet-core/src/report.rs:708-777 | in place: a non-array field is dropped whole, else bad elements are dropped and warned about |
| `ReportSchema.SanitisingRefinesValidation` | crates/taskfleet-core/src/report.rs:364-383 | output passes strict validation and is a fixed point without warnings; the input is strictly valid exactly when there are no warnings and is then unchanged; outcome and merge authority are kept |
| `ReportGate.LiveReportAccepted` | crates/taskfleet-core/src/reducer.rs:1971-1996 | on a live node a report is accepted exactly when it expresses one outcome |
| `ReportGate.ReasonIsIgnored` | crates/taskfleet-core/src/reducer.rs:1971-1996 | the outcome does not depend on the reason, present, absent or replaced |
| `ReportGate.ValidatorIsStricter` | crates/taskfleet-core/src/report.rs:388-433 | required fields pass exactly when there is one outcome, `success` is a boolean and the reason is in order |
| `ReportGate.ReasonlessCancelAccepted` | crates/taskfleet-core/src/cancel.rs:511-520 | a cancellation with an empty reason cancels a live node, and the validator refuses it |
| `ReportGate.CancelReportIsValid` | crates/taskfleet-core/src/cancel.rs:213-222 | the report a cancel synthesizes passes the strict validator, whatever the note was |
| `NodeStatusFold.FoldIsCoherent` | crates/taskfleet-core/src/cancel.rs:795-865 | over every log the accumulator lists each node once, and exactly the listed nodes have a status |
| `NodeStatusFold.SortIsStable` | crates/taskfleet-core/src/cancel.rs:880-894 | the listing is ascending by numeric suffix and keeps the order of equal suffixes |
| `NodeStatusFold.SuffixIsTheNumber` | crates/taskfleet-core/src/cancel.rs:866-894 | the suffix the listing is sorted by is the number the digits write |
| `LogFold.OrderIsCreation` | crates/taskfleet-core/src/cancel.rs:795-865 | the order before sorting is the order of first creation |
| `LogFold.LiveStatusIsLast` | crates/taskfleet-core/src/cancel.rs:810-865 | a node that is live in the status fold has the status last given to it by its creation or a `node.status` |
| `StatusAccumulator.NodeStatusAcc.ObserveLine` | crates/taskfleet-core/src/cancel.rs:810-865 | one line updates order, status and adopted merges as the fold function does |
| `StatusAccumulator.ReadNodeStatusFacts` | crates/taskfleet-core/src/cancel.rs:747-768 | the streaming read gives the sorted facts of the events strictly below the bound |
| `ReducerLaws.PlanShape` | crates/taskfleet-core/src/reducer.rs:278-384 | every accepted plan is empty, one manifest write, one write of the addressed node, or node then manifest for a creation |
| `ReducerLaws.CutEvolves` | crates/taskfleet-core/src/reducer.rs:253-261 | any crash-cut prefix of an event's writes moves only the addressed node by its own rule and the manifest within its rules |
| `ReducerLaws.NodeTerminalFinality` | crates/taskfleet-core/src/reducer.rs:1234-1344 | over any log, Done and Cancelled nodes keep their status and a Failed one changes only to Done, by a confirmed-merge report addressed to it |
| `ReducerLaws.AgentReportsNeverRevive` | crates/taskfleet-core/src/report.rs:175-192 | reports stamped by the agent path never change a terminal node's status |
| `ReducerLaws.RunTerminalFinality` | crates/taskfleet-core/src/reducer.rs:577-622 | the same for the run: it leaves Failed only for Done, by an event whose recovery verdict holds over the log before it |
| `ReducerLaws.PiLifecycleSafety` | crates/taskfleet-core/src/reducer.rs:1000-1135 | the session id never changes once reserved or bound; generations start at 1 and rise by one only out of Exited or LaunchFailed; ControlUncertain and an unbound LaunchFailed absorb |
| `ReducerLaws.ReachableInvariants` | crates/taskfleet-core/src/reducer.rs:942-996 | in the fold of every log, and in every crash cut of a next event: the intent is write-once, a caller's pending merge links to it and to the current branch, at most one is pending in a caller-owned run, terminal Taskfleet nodes hold none, an open request means a live node without worker exit and 1 to 8 items |
| `ReducerLaws.OneCallerMerge` | crates/taskfleet-core/src/reducer.rs:1816-1900 | in every store with those invariants, on disk after any crash as well as folded, at most one node of a caller-owned run holds a pending merge; that one is recorded at all is `Effects.MergeLands` |
| `Provenance.MoveIsSaid` | crates/taskfleet-core/src/reducer.rs:1155-1938 | whatever a node event changes is what that event's payload says, and an exit is recorded only for the current attempt; that each event has its effect is stated in `Effects` |
| `Provenance.EveryFactIsLogged` | crates/taskfleet-core/src/reducer.rs:852-1938 | over every log, each node's status, place, report, exit, merge, death time, session and open request comes from a logged event addressed to it, and the settlement intent from a logged one; the exit belongs to the current attempt; an open request keeps the clock and sequence of the event that opened it |
| `Provenance.EvolvesKeepsFacts` | crates/taskfleet-core/src/reducer.rs:253-261 | folding a logged event again at any later time, cut after any write, keeps every fact of every node and the intent backed by the log |
| `Effects.RunCreatedLands` | crates/taskfleet-core/src/reducer.rs:466-575 | the first creation is accepted exactly with a well-formed payload and fixes owner, residency and source branch; a later one does nothing |
| `Effects.RunStatusLands` | crates/taskfleet-core/src/reducer.rs:577-622 | accepted exactly with a status; only the status moves, and a run that is not settled takes the one asked for |
| `Effects.NodeCreatedLands` | crates/taskfleet-core/src/reducer.rs:852-936 | makes a pending node at the place named with nothing else on it, and the default node reveals the source branch, once |
| `Effects.IntentLands` | crates/taskfleet-core/src/reducer.rs:942-996 | the exact condition of acceptance; an accepted intent is the manifest's intent under the event's sequence, and nothing else moves |
| `Effects.BindingLands` | crates/taskfleet-core/src/reducer.rs:1000-1052 | the exact condition of acceptance; the binding is the node's session and fills its path into a reserved launch |
| `Effects.LifecycleLands` | crates/taskfleet-core/src/reducer.rs:1054-1135 | the exact condition of acceptance, as a transition table; an accepted fact is the node's lifecycle |
| `Effects.RetryLands` | crates/taskfleet-core/src/reducer.rs:1155-1232 | an accepted retry of a live node moves it to the event's branch and worktree, pending, with no report, exit, death, merge or request, as its next attempt |
| `Effects.StatusLands` | crates/taskfleet-core/src/reducer.rs:1234-1263 | sets the status of a live node, and a terminal one closes its merge and request |
| `Effects.ReportLands` | crates/taskfleet-core/src/reducer.rs:1265-1344 | accepted exactly on a settled node or with one outcome; settles a live node, or repairs it by a late confirmed merge, and is a no-op otherwise |
| `Effects.ExitLands` | crates/taskfleet-core/src/reducer.rs:1382-1445 | the first exit fact of the current attempt is recorded with its code, signal and time and closes the open request; any other changes nothing |
| `Effects.DeathLands` | crates/taskfleet-core/src/reducer.rs:1633-1664 | the first death of a live node without exit, report or merge is recorded |
| `Effects.RequestLands` | crates/taskfleet-core/src/reducer.rs:1666-1759 | accepted exactly if every item can be answered and there is room; opens a request or joins the open one in order, which keeps its clock and sequence |
| `Effects.ResolvedLands` | crates/taskfleet-core/src/reducer.rs:1761-1789 | closes exactly the request the answer names |
| `Effects.MergeLands` | crates/taskfleet-core/src/reducer.rs:1816-1900 | the exact condition of acceptance; leaves a merge under its operation id pending, its own transaction unless that operation was pending already |
| `Effects.AbortLands` | crates/taskfleet-core/src/reducer.rs:1911-1938 | ends exactly the pending merge of that operation |
| `Effects.RoundReportedLands` | crates/taskfleet-core/src/reducer.rs:2151-2209 | accepted in resident runs only; closes the request of the current attempt |
| `Effects.ResumedLands` | crates/taskfleet-core/src/reducer.rs:2211-2268 | accepted in resident runs only; a later attempt starts pending with nothing of the last one left but place, report and session |
| `Effects.RoundLandedLands` | crates/taskfleet-core/src/reducer.rs:2270-2313 | accepted in resident runs only; ends exactly the landing merge of that operation |
| `LogReading.EveryFactMoves` | crates/taskfleet-core/src/reducer.rs:278-384 | for every event and every fact of a node: it holds afterwards exactly if the event set it, or it held and the event did not end it |
| `LogReading.FactsAreRead` | crates/taskfleet-core/src/reducer.rs:852-2313 | over every log, a node has a fact exactly when some event set it and no later one ended it: its place is that of the last creation or retry that took effect, its merge stands until aborted, landed, replaced, retried, resumed or settled, its exit until a new attempt, its lifecycle is the last accepted |
| `LogReading.RequestIsAll` | crates/taskfleet-core/src/reducer.rs:1666-1759 | over every log, an open request holds exactly the items of the event that opened it and of every request the node took since, in order |
| `LogReading.RunFactsAreRead` | crates/taskfleet-core/src/reducer.rs:466-996 | over every log, owner, residency, source branch and settlement intent are what the event that first set them says, for good |
| `LogReading.FactsAfterCrashes` | crates/taskfleet-core/src/events.rs:694-755 | the same of the caught-up disk, over every history whose crashes miss the lossy windows, open requests aside |
| `Refold.RefoldLanded` | crates/taskfleet-core/src/reducer.rs:278-384 | folding an accepted event again right after it landed changes nothing, exactly unless it is an open request with room left or a retry without attempt below saturation; a refusal is a skip and happens only in two named cases |
| `Refold.AwaitingRefoldDuplicates` | crates/taskfleet-core/src/reducer.rs:1734-1746 | counterexample: the same request folded twice lists its item twice |
| `Refold.RetryRefoldCountsTwice` | crates/taskfleet-core/src/reducer.rs:1227-1230 | counterexample: a retry without attempt counts up on every fold |
| `Recovery.PlanIsStable` | crates/taskfleet-core/src/cancel.rs:741-768 | a plan made before the append equals the plan made by any later replay over a longer log |
| `Recovery.CutSame` | crates/taskfleet-core/src/reducer.rs:278-384 | stores that differ only in open requests and derived counters accept the same events and look the same after every cut |
| `CrashSafety.FlightLands` | crates/taskfleet-core/src/events.rs:694-755 | folding the one unacknowledged event again, whatever had landed of it, shows the fold of the log |
| `CrashSafety.CatchUpSettles` | crates/taskfleet-core/src/events.rs:694-755 | catch-up from any disk a crash can leave shows exactly the fold of the log, with only inert events above the watermark |
| `CrashSafety.HoldKeeps` | crates/taskfleet-core/src/events.rs:434-491 | every lock hold, complete or cut outside a lossy window, keeps full equality recoverable and only extends the log |
| `CrashSafety.CrashRecoveryRefinement` | crates/taskfleet-core/src/events.rs:434-491 | over every history from a caught-up state whose crashes miss the lossy windows, catch-up makes nodes and manifest equal the pure fold of the log, open requests aside, with node count right and watermark at most the last sequence |
| `CrashSafety.CatchUpIsIdempotent` | crates/taskfleet-core/src/events.rs:694-755 | catching up twice is catching up once, for every numbered log and every store |
| `CrashAgreement.HoldKeepsAny` | crates/taskfleet-core/src/events.rs:434-491 | every lock hold, cut anywhere at all, keeps the invariant that the store shows the log or the log before its last event, and that whatever stays unacknowledged is inert |
| `CrashAgreement.SoundFoldShows` | crates/taskfleet-core/src/reducer.rs:278-384 | on every log whose status events passed the gate, the pure fold shows the log-derived node statuses and run status |
| `CrashAgreement.CrashAgreementHolds` | crates/taskfleet-core/src/events.rs:694-788 | over every history of lock holds and crashes whatever, catch-up gives the node set, live/terminal split, terminal statuses and run status of the log and of its pure fold, the right node count, and a watermark at most the last sequence |
| `CrashAgreement.RecoveryAfterCrashes` | crates/taskfleet-core/src/reducer.rs:577-622 | after every history of lock holds and crashes whatever, an admitted event takes the failed run to Done exactly when it asks for it, attests its children, every node of the caught-up store is Done and it names the last merge adopted by one of them; disk and pure fold come out alike |
| `CrashInvariants.HoldMoves` | crates/taskfleet-core/src/events.rs:434-491 | every lock hold, cut anywhere, keeps the store in order and backed by the log, and the store it leaves descends from the one it found |
| `CrashInvariants.CrashInvariantsHold` | crates/taskfleet-core/src/events.rs:694-755 | over every history of lock holds and crashes whatever, at every disk and after its catch-up: linked merges, one pending caller merge, open requests and Pi facts in order, every fact and the intent said by the log; from any disk to any later one the owner, residency, source branch, intent, session ids, absorbing Pi states and terminal statuses stay and generations never fall, but that Failed becomes Done by a logged confirmed merge of the node, or for the run by a logged status whose verdict holds |
| `CrashInvariants.FoldIsSane` | crates/taskfleet-core/src/reducer.rs:278-384 | the fold of every log is a store in that order, so histories may start from it |
| `SourceErasure.TaskfleetRecovery` | crates/taskfleet-core/src/reducer.rs:852-936 | in a Taskfleet-owned run, over every history whose crashes miss the retry window, those between the two writes of a creation included, catch-up equals the pure fold but for the source branch |
| `LostSource.SourceLostExactly` | crates/taskfleet-core/src/reducer.rs:923-929 | a crash leaves a caller-owned run without source branch exactly when the complete event would have or when it fell between the two writes of the creation |
| `LostSource.NeverMergesAgain` | crates/taskfleet-core/src/reducer.rs:1816-1900 | from then on, over every history, no merge naming a source branch is admitted |
| `CrashWindows.CatchUpCatchesUp` | crates/taskfleet-core/src/events.rs:694-755 | catching up any disk any crash can leave gives a caught-up store: a further catch-up changes nothing and only inert events are above the watermark |
| `CrashWindows.CrashLosesExactly` | crates/taskfleet-core/src/events.rs:736-755 | from every caught-up store, refused events above the watermark included, a crash after logging an event and `k` of its writes is healed to the complete store, open requests included, if and only if it hit none of the four windows |
| `CleanHistory.CutExactly` | crates/taskfleet-core/src/events.rs:736-755 | from a caught-up disk equal to the fold of its log, an append cut after `k` writes and then caught up is equal to the fold of the longer log, open requests included, if and only if the crash missed the four windows |
| `CleanHistory.CleanHistoryIsExact` | crates/taskfleet-core/src/events.rs:694-755 | over every history whose holds are complete or cut outside the four windows, each followed by a complete catch-up, the projections equal the pure fold of the log, open requests and node count included, the watermark aside |
| `CleanHistory.CleanFactsAreRead` | crates/taskfleet-core/src/events.rs:694-755 | over every such history each fact on disk, open requests included, is read off the log |
| `CleanHistory.CleanItemsAreRead` | crates/taskfleet-core/src/reducer.rs:1666-1759 | and so are the items of an open request |
| `CrashWindows.RequestStaysAbove` | crates/taskfleet-core/src/reducer.rs:1734-1746 | first half of a counterexample, from a caught-up store that is the fold of its log: a request cut after its write is refused by catch-up and stays above the watermark, outside every window |
| `CrashWindows.AnsweredQuestionReopens` | crates/taskfleet-core/src/reducer.rs:1761-1789 | second half, from that caught-up store: the answer cut after its write leaves the question closed if complete, and open again after catch-up |
| `ByteDisk.RawRefines` | crates/taskfleet-core/src/events.rs:434-475 | one byte-level lock hold is one event-level lock hold with the same crashes left out, none if none are, and keeps the file strictly readable and numbered 1 to n |
| `ByteDisk.AdmissibleKeeps` | crates/taskfleet-core/src/events.rs:446-470 | what the gate lets through against caught-up projections, the pure fold accepts too |
| `ByteDisk.CreationStarts` | crates/taskfleet-core/src/reducer.rs:466-575 | a freshly created run is a caught-up start, in order and equal to its fold, for every theorem over histories |
| `ByteDisk.ByteCrashAgreement` | crates/taskfleet-core/src/events.rs:167-208 | the joined theorem for every crash, at any byte or between any writes: the file reads strictly, sequences are exactly 1 to n, nothing readable is lost, and catch-up shows the outcomes of the log and of its fold with node count and watermark right |
| `ByteDisk.ByteCrashInvariants` | crates/taskfleet-core/src/events.rs:167-208 | the safety invariants at every disk and between any two disks of every history, each hold cut at any byte or between any writes |
| `ByteDisk.ByteCrashRecovery` | crates/taskfleet-core/src/events.rs:434-491 | the same with full equality to the pure fold, where no crash falls in a lossy window |
| `ByteDisk.ByteTaskfleetRecovery` | crates/taskfleet-core/src/reducer.rs:852-936 | the same for a Taskfleet-owned run but for the source branch, where no crash falls in the retry window |
| `LogFold.LogFoldRefinesReducer` | crates/taskfleet-core/src/cancel.rs:808-865 | on every log accepted event by event, accumulator and reducer have the same nodes, the same live/terminal split and the same terminal status |
| `LogFold.MergedIsLastAdopted` | crates/taskfleet-core/src/cancel.rs:835-860 | over every numbered log, for a node not cancelled, the recorded sequence is exactly that of the last confirmed-merge report after the node's creation |
| `LogFold.VerdictMeaning` | crates/taskfleet-core/src/reducer.rs:590-612 | for any projections that agree with the log, folded or caught up after crashes, the recovery verdict holds exactly when every node is Done and the named sequence is the last adopted merge of one of them |
| `LogFold.FailedRunRecovery` | crates/taskfleet-core/src/reducer.rs:577-622 | for any such projections, a run leaves Failed exactly when the event asks for Done, attests its children, every node is Done and it names such a merge; the plan is the same over any longer log |
| `LegacyMigration.LegacyMigrationExactly` | crates/taskfleet-core/src/events.rs:650-656 | re-folding the whole log over its own result changes a node's status exactly when the live node drifts (no numbered retry, and the last status set differs); run status, last reports and terminal statuses never change |
| `LegacyMigration.LegacyMigrationIsIdentity` | crates/taskfleet-core/src/events.rs:694-755 | in every run that is not resident the migration is the identity on outcomes |
| `LegacyMigration.ResidentMigrationChangesStatus` | crates/taskfleet-core/src/reducer.rs:2211-2266 | a resident log of four events, accepted and ordered as the exact theorem asks, whose migration changes the node from pending to running |
| `Keyed.FirstIsCarrier` | crates/taskfleet-core/src/events.rs:1156-1219 | the scan finds an event exactly when one carries the kind and key |
| `Keyed.KindsApart` | crates/taskfleet-core/src/reducer.rs:278-384 | events of different kinds never share a kind name |
| `KeyScan.ScanForKey` | crates/taskfleet-core/src/events.rs:1156-1219 | the streaming scan over any file: the kind and key of each line decide, a line without them is corrupt, a match must be an event, and the first of either ends it |
| `KeyScan.LookUpIsFirst` | crates/taskfleet-core/src/events.rs:1156-1219 | on a readable log that is the first event carrying kind and key, or none |
| `KeyScan.LookUpExactly` | crates/taskfleet-core/src/events.rs:1156-1219 | over any lines, the answer is that of the first line that is corrupt or matches, and absence exactly if every line is passed over |
| `Keyed.KeyedAtMostOnce` | crates/taskfleet-core/src/events.rs:340-379 | under any interleaving of lock holds and crashes, none left out, at most one event per kind and key comes through the scanning entry points |
| `Keyed.ReplyNamesTheOnlyOne` | crates/taskfleet-core/src/events.rs:590-632 | every replay or conflict reply names the only event with that kind and key |
| `Keyed.ReplyIsKeyedHold` | crates/taskfleet-core/src/events.rs:590-632 | what a scanning entry point does is one such lock hold |
| `RunStore.LastSeqIsLength` | crates/taskfleet-core/src/events.rs:445-447 | on a log the protocol wrote, the scanned last sequence is the number of events |
| `RunStore.RawCatchUpIsCatchUp` | crates/taskfleet-core/src/events.rs:694-755 | on a log the protocol wrote, catch-up over the bytes with its fast path is the catch-up function |
| `RunStore.RawAppendKeepsRecords` | crates/taskfleet-core/src/events.rs:434-491 | over any file, corrupt lines included, an append loses no readable record and adds exactly the accepted event |
| `RunStore.RawAppendIsAppend` | crates/taskfleet-core/src/events.rs:434-491 | on a log the protocol wrote, the append over the bytes is the append of the reference model |
| `RunStore.KeyedKeepsRecords` | crates/taskfleet-core/src/events.rs:340-379 | over any file, a keyed append loses no readable record and adds exactly the event it says it appended |
| `RunStore.KeyedReadsTheLog` | crates/taskfleet-core/src/events.rs:590-632 | over any file, a keyed append fails for the log exactly when a corrupt line comes before any match, and appends only where every line is passed over |
| `RunStore.CatchUpFailsExactly` | crates/taskfleet-core/src/events.rs:694-755 | over any file, catch-up fails exactly when the last line that is not blank has no envelope |
| `RunStore.Run.constructor` | crates/taskfleet-core/src/events.rs:31-39 | a run directory before its first event: empty log, no projections |
| `RunStore.Run.TruncateTornTail` | crates/taskfleet-core/src/events.rs:167-208 | the file becomes its complete lines |
| `RunStore.Run.QuarantineCorruptLines` | crates/taskfleet-core/src/events.rs:1006-1062 | for any content: unchanged and no report if clean, else the recovered bytes, the removed offsets, and the original kept aside |
| `RunStore.Run.CommitOps` | crates/taskfleet-core/src/reducer.rs:253-261 | planned writes are carried out in order |
| `RunStore.Run.CountNodeFiles` | crates/taskfleet-core/src/projections.rs:285-300 | the saturating count of node files |
| `RunStore.Run.AdvanceAppliedSeq` | crates/taskfleet-core/src/events.rs:778-788 | the watermark only rises, and the node count is derived in the same write |
| `RunStore.Run.ApplyEvent` | crates/taskfleet-core/src/reducer.rs:439-442 | folds one event without moving the watermark; a refusal changes nothing |
| `RunStore.Run.ReplayUnapplied` | crates/taskfleet-core/src/events.rs:694-755 | for any file: fails untouched on a last line without valid envelope, else folds the readable events above the watermark, passing over corrupt lines; on a protocol log it is the catch-up function |
| `RunStore.Run.ReplayUnappliedUnlocked` | crates/taskfleet-core/src/events.rs:384-388 | for any file: truncates, then does the same |
| `RunStore.Run.AppendAndApply` | crates/taskfleet-core/src/events.rs:434-491 | for any file: what the append function over the bytes says; on a protocol log a refused event leaves log and caught-up store alone, an accepted one is the next line with the next number, folded in |
| `RunStore.Run.FindPriorWithKey` | crates/taskfleet-core/src/events.rs:1156-1219 | for any file: the first match, absence, or the corrupt line that comes first; on a protocol log the first carrier |
| `RunStore.Run.AppendAndApplyEvent` | crates/taskfleet-core/src/events.rs:340-379 | for any file: an error that writes no event where the last line or a line before any match is corrupt, else replays the logged event under the key or appends; on a protocol log exactly one of the two, as the key is logged or not |
| `RunStore.Run.AppendAndApplyIdempotent` | crates/taskfleet-core/src/events.rs:590-632 | for any file: refuses an empty key untouched, reports a corrupt log, builds the payload from the number the event would get; a true retry replays, a reused key conflicts, a fresh key appends |
| `Cancel.CancelReason` | crates/taskfleet-core/src/cancel.rs:516-520 | a note that is not blank is trimmed at both ends, any other gives the default; never blank |
| `Cancel.NoteSays` | crates/taskfleet-core/src/cancel.rs:226-243 | the run status carries the trimmed note, and none for a blank one |
| `Cancel.NodeKeyInjective` | crates/taskfleet-core/src/cancel.rs:933-942 | different nodes of a run have different cancel keys |
| `Cancel.CancelReportCancels` | crates/taskfleet-core/src/cancel.rs:213-222 | the synthesized report means Cancelled to both readers, is never a merge, and carries the reason and the summary |
| `Cancel.CancelledForGood` | crates/taskfleet-core/src/cancel.rs:181-192 | once a cancel report is logged its node is Cancelled in the log fold for good |
| `Cancel.StragglersAreLive` | crates/taskfleet-core/src/cancel.rs:193-211 | the nodes a call reports are exactly those the log says are live |
| `Cancel.ForeignPlaced` | crates/taskfleet-core/src/cancel.rs:644-655 | an event outside the cancel key namespace cannot break the discipline of cancel keys |
| `Cancel.CancelSettles` | crates/taskfleet-core/src/cancel.rs:171-244 | the log of a complete call: every node terminal, live ones Cancelled and settled ones unchanged, each cancel key once, and a run status unless the run was already cancelled |
| `Cancel.CallIsLogged` | crates/taskfleet-core/src/cancel.rs:213-249 | a complete call logs a report with its reason for each node the log says is live, and a Cancelled run status with its note unless the run was cancelled or has one |
| `Cancel.CancelConverges` | crates/taskfleet-core/src/cancel.rs:134-261 | on logs: a call cut after any append, then a complete one, settles every node with one event per key, and a further call appends nothing |
| `CancelCode.ReadCancelLedger` | crates/taskfleet-core/src/cancel.rs:641-677 | one pass gives the node facts and exactly the first event of each kind and key in the cancel namespace |
| `CancelReady.StatusRefold` | crates/taskfleet-core/src/cancel.rs:226-232 | on every disk a crash can leave, folding a logged cancel run status again is a lock hold of its own and makes the manifest read terminal |
| `CancelReady.ReportRefold` | crates/taskfleet-core/src/cancel.rs:181-192 | on every disk a crash can leave, a logged cancel report whose node file reads live is the one event in flight, and folding it again is a lock hold of its own |
| `CancelProtocol.SettleAdvances` | crates/taskfleet-core/src/cancel.rs:171-223 | whatever the projections hold, settling one node is never refused, adds its report exactly if the log says it is live, and answers cancelled exactly if it reported the node or folded a logged cancel its file did not show |
| `CancelProtocol.TurnAnswers` | crates/taskfleet-core/src/cancel.rs:171-223 | in the node loop, a node is listed as cancelled exactly when its turn did something about it, and as settled otherwise |
| `CancelCode.SettleNode` | crates/taskfleet-core/src/cancel.rs:171-223 | the code of one turn, equal to its function of the disk |
| `CancelCode.RecordStatus` | crates/taskfleet-core/src/cancel.rs:224-249 | the run status is folded again if logged, else appended |
| `CancelCode.SettleNodes` | crates/taskfleet-core/src/cancel.rs:171-223 | the node loop, stopping at the first refusal |
| `CancelCode.CancelRun` | crates/taskfleet-core/src/cancel.rs:134-261 | refuses a done or failed run untouched, and a log with a corrupt line untouched; else does what `CancelOn` says, and fails only where cancel keys were misused or the log has no run creation |
| `CancelProtocol.CancelCompletes` | crates/taskfleet-core/src/cancel.rs:134-261 | from every disk with a numbered log of a created run, a manifest and disciplined cancel keys, whatever the projections hold, the call completes: the manifest reads terminal, every logged node is terminal, and the two lists partition the logged nodes into settled on entry and Cancelled now |
| `CancelProtocol.CancelCutStartable` | crates/taskfleet-core/src/cancel.rs:12-18 | however the call is cut, lossy windows included, a call may start from what it left, and its log is a part of the complete call's log |
| `CancelProtocol.CancelConvergesOnDisk` | crates/taskfleet-core/src/cancel.rs:12-18 | on disk: cut anywhere, then complete, leaves every node and the manifest terminal with one event per cancel key; a further call is refused or appends nothing |
| `CancelKeeps.CancelKeepsReady` | crates/taskfleet-core/src/cancel.rs:134-261 | a complete call from a disk any crash can leave leaves one that agrees with its log, one fully recoverable if it was, and one in order and backed by its log if it was |
| `CancelKeeps.CancelCutKeepsReady` | crates/taskfleet-core/src/cancel.rs:12-18 | so does a call cut anywhere, as far as agreement and order go |
| `CancelKeeps.CancelNodeKeepsReady` | crates/taskfleet-core/src/cancel.rs:336-445 | the same for a complete `cancel_node` |
| `CancelReady.HoldKeepsReady` | crates/taskfleet-core/src/events.rs:434-491 | every lock hold, cut anywhere, keeps the disk one that agrees with its log and keeps the discipline of cancel keys |
| `CancelProtocol.RollUpMeansSettled` | crates/taskfleet-core/src/cancel.rs:470-488 | a run rolls up exactly when it has nodes and none is live, and then to a terminal status |
| `CancelProtocol.RollUpExactly` | crates/taskfleet-core/src/cancel.rs:470-488 | to Failed exactly if some node failed, to Cancelled exactly if none failed and some was cancelled, to Done exactly if all are done |
| `CancelCode.MaybeRollUpRun` | crates/taskfleet-core/src/cancel.rs:460-509 | rolls up the ledger's statuses with the target's replaced, failure over cancellation over success, unless the run was terminal |
| `CancelCode.CancelNode` | crates/taskfleet-core/src/cancel.rs:336-445 | refuses a done or failed run, an unknown node or a log with a corrupt line untouched; else does what `CancelNodeOn` says |
| `CancelProtocol.CancelNodeCompletes` | crates/taskfleet-core/src/cancel.rs:336-445 | from every such disk: siblings keep their status, the target is settled, and one run status follows exactly when the run was live and no node is left live: Failed exactly if some node failed, Cancelled exactly if none failed and some was cancelled; the manifest then reads terminal |
| `CancelNodeCrash.NodeCutStartable` | crates/taskfleet-core/src/cancel.rs:336-445 | however a `cancel_node` is cut, while settling the target or rolling up, lossy windows included, a call may start from what it left, and only the target may have changed in its log, from live to Cancelled |
| `CancelNodeCrash.CancelNodeConverges` | crates/taskfleet-core/src/cancel.rs:336-445 | cut anywhere, then complete on the same target: the target is settled, siblings are as the first call found them, one event per cancel key, the manifest reads terminal if no node is left live, and a further call appends nothing |
| `CancelNodeCrash.RunAfterNodeCut` | crates/taskfleet-core/src/cancel.rs:134-261 | a complete `cancel_run` after a cut `cancel_node` settles every node, the live ones Cancelled, and the manifest reads terminal |
| `CancelNodeCrash.NodeCutKeepsReady` | crates/taskfleet-core/src/cancel.rs:336-445 | a cut `cancel_node` from a disk any crash can leave leaves such a disk, in order and backed by its log if it was |
| `CancelHistory.NoEarlyTerminalisation` | crates/taskfleet-core/src/cancel.rs:460-509 | at every point of every history of appends and cut or complete cancels, a cancel or roll-up run status is in the log at most once and every node created before it was and is terminal in the log fold |
| `Reservation.KeyFile.WriteRecordExclusive` | crates/taskfleet/src/idempotency.rs:466-500 | the hard link claims the name only if it is free |
| `Reservation.KeyFile.ReserveKey` | crates/taskfleet/src/idempotency.rs:306-336 | wins an absent key, else reports the stored record and changes nothing |
| `Reservation.KeyFile.ReclaimKey` | crates/taskfleet/src/idempotency.rs:359-401 | replaces exactly the observed record of an unpublished run or claims an absent key, answering reclaimed; otherwise changes nothing and says why |
| `Reservation.KeyFile.ReleaseKey` | crates/taskfleet/src/idempotency.rs:588-617 | removes the caller's own record and nothing else |
| `Reservation.KeyFile.FinishStaleCleanup` | crates/taskfleet/src/idempotency.rs:540-568 | clears the cleanup obligations of the caller's own record and nothing else |
| `Reservation.OwnershipMoves` | crates/taskfleet/src/idempotency.rs:306-401 | over every interleaving, a key leaves its run only by that run's release or by a reclaim that saw exactly the stored record |
| `Reservation.TakenExactly` | crates/taskfleet/src/idempotency.rs:359-401 | one request takes the key away exactly when it is the owner's release, which frees it, or a matching reclaim, which hands it over |
| `Reservation.FreeUntilClaimed` | crates/taskfleet/src/idempotency.rs:306-336 | a free key stays free until the next reservation or reclaim, and that one wins it |
| `Reservation.ReleaseFreesTheKey` | crates/taskfleet/src/idempotency.rs:588-617 | once the owner has released it, the next reserver gets the key |
| `Reservation.LostForGood` | crates/taskfleet/src/idempotency.rs:569-577 | with fresh run ids a run that lost the key never owns it again, and its late release, cleanup or a reclaim of its old record changes nothing |
| `Reservation.OthersSeeTheOwner` | crates/taskfleet/src/idempotency.rs:306-336 | until it is taken away, every other reserver is told the owner |
| `Reservation.RaceHasOneWinner` | crates/taskfleet/src/idempotency.rs:466-500 | with no lock, every interleaving of racing reservers has at most one winner, everybody else is told its record, nobody sees it vanish, and once anyone finished there is a winner |

## Left out

- CrashSafety.CrashRecoveryRefinement: full equality is false inside the lossy windows, so histories that crash there are excluded, and open requests are not compared; `CrashAgreement.CrashAgreementHolds` covers those histories for outcomes, `CrashInvariants.CrashInvariantsHold` for safety, `SourceErasure.TaskfleetRecovery` for all but the source branch, and `CleanHistory.CleanHistoryIsExact` compares open requests.
- CleanHistory.CleanHistoryIsExact: every crash after a log write is followed by a complete catch-up; a second crash inside that catch-up is covered for outcomes and safety only.
- LegacyMigration.LegacyMigrationIsIdentity: false for resident runs; `LegacyMigration.LegacyMigrationExactly` gives the exact condition.
- Reservation.RaceHasOneWinner: starts from a free key; racing reclaims and releases without a lock are not covered, and the source does not promise them.
- Reservation.KeyFile.WriteRecordExclusive: writing and removing the claim file belong to the race model only, and failures of the file system are not modelled.
- RunStore.Run.AppendAndApplyIdempotent: a retry is compared on its typed payload; fields the typed payload drops are not compared.
- CancelCode.ReadCancelLedger: one parse decides whether a line is corrupt; the source's ledger skims a laxer envelope until a cancel key matches.
- Keyed.KeyedAtMostOnce: kinds are typed, one constructor per wire name; the catch-all kind is taken not to use a reserved wire name.
- The lock, file system failures, symbolic links, temporary files, renames and fsync: each projection write is one atomic step, the lock excludes other writers, and the clock is a function from event numbers to times.
- The window of the quarantine between setting the old log aside and writing the new one.
- The run id, UUID and hash shape checks, tmux identity, evidence and display fields, start identity, retention and timestamps other than the ones facts carry: shallow fields that no proved property reads.
- Child references, supervisor attachment and cursors, dormant and attention marks of resident nodes, and report bookkeeping of rounds beyond clearing the open request and the landing merge: guarded single-field updates.
- Reports whose payload is not a JSON object, and a tagged origin encoded as a JSON array, which the source's decoder would also take.
- Lengths of reasons and topics are counted in characters; the source counts bytes for reasons.
- Absence of collisions of the key hash: the record file is named by the key itself.
- Liveness of a reservation's creator and the decision to reclaim: an input of `Reservation.Reclaim`.
- Git merging, the supervisor loop, run creation, telemetry, hooks, command line and configuration.
