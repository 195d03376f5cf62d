# DotCraft: what its state machines and kernels guarantee

A Dafny model of the parts of DotCraft whose correctness spans many steps or every input, with proofs.
`dafny verify dfyconfig.toml` checks the whole project. Nothing here runs the original program.

| Area | Modules |
|---|---|
| Dynamic workflows: canonical JSON, call recording and replay, completion notice, run listing, source masking | `JsonTree`, `CanonicalJson`, `WorkflowReplay`, `WorkflowNotification`, `WorkflowListing`, `SourceMask` |
| Automations: due times, queueing and recovery | `AutomationSchedule`, `AutomationScheduler` |
| Code Mode: schema printing, program store, program output, name suggestions | `TypeText`, `TypeScriptPrinter`, `SchemaReader`, `CellStore`, `CellOutput`, `EditDistance` |
| Remote tools: file transfer, draining operations, background terminals, prepared plugins | `FileTransfer`, `FileTransferLoop`, `OperationScope`, `TerminalEvents`, `TerminalPublishing`, `PluginWorkspace` |
| Image resampling and conversation search | `ResampleKernel`, `ImageResampler`, `ContextSearch` |

## How the code is modelled

Code that computes a value by expressions and recursion is a function here. Code that changes fields is a
class, and code with loops is a method with a loop, proved against a function on values. Protocols whose
steps interleave or may be cut off by a crash are state machines: a `Step` per critical section or per write,
`Enabled` for what the code checks first, `Apply`/`Next` for what it does, and lemmas over every sequence of
steps. The methods of the classes are proved to do exactly such steps, so the lemmas are about them.

Conventions shared by the modules:

- Hashes are parameters (`digest`), injective where a lemma says so. Text sizes in bytes are a parameter too.
- Instants are whole milliseconds, local times whole minutes. A time zone is any `Regular` zone: gaps end
  within a day, and a local minute has been reached by an instant exactly when that minute's first instant
  has come. Fixed offsets, a clock put forward and a clock put back are shown to be such zones.
- The resampler's floats are exact reals.
- A workflow script is any function from the results seen so far to the next call or the end. An agent call,
  live or answered from replay, may be cut off between any two of its awaits, throw at any of them, have its
  failure cut off in turn, or deliver its result.
- A crash keeps what was written and loses the rest. A write is atomic.

## Where the code does less than one might expect

Each of these has a lemma that gives the exact condition, most of them also a run that shows it. The model
follows the code.

- Resuming a run that was itself answered from replay replays nothing, because the journal reader ignores
  `agent.replayed` entries; `specs/features/dynamic-workflows.md` section 7, step 5, promises that such a run
  may become a later replay source (`UnchangedScriptReplaysAllOrNothing`).
- A call that fails after its usage was added to the run leaves no usage in the journal, so a replay of it
  costs nothing (`ReplayedPrefixUsage`, `LostUsageExample`).
- A call cut off after its completion or its failure was journaled, by a pause, a stop or a result frame that
  is too large, is replayed by a resumed run although the source's script never saw its result
  (`UnseenCallIsReplayedIff`, `CutOffCallIsCompleteIff`, `UnseenCallExample`).
- An exception while a run notifies its parent loses the notice for good exactly when the run was completing on
  its terminal frame, no notice was queued yet, and the second completion does not leave the run paused
  (`ExceptionLosesTheNoticeIff`); after an exception in a handler the next restart delivers the notice
  (`RestartMakesUpForHandlerException`). If the final state cannot be written the notice is lost on both paths,
  again unless a second completion leaves the run paused (`FailedFinalWriteLosesTheNotice`).
- Two overlapping stops of one paused run can leave two notices (`TwoStopsNotifyTwice`): exactly when a stop that
  notifies the parent reads the status while another such stop has still to write and no notice is there yet, and
  in no other run (`TwoNoticesIffNotifyingStopsOverlap`, `FurtherStopCanDoubleIff`).
- An occurrence can be claimed twice: exactly when a poll is taken while the due time is still on a claim whose
  second write was lost (`ClaimedTwiceIffLeftOver`). That comes about by a failed save in a host that lives on
  (`FailedSaveClaimsTwice`), and across versions by an edit that carries the due time over before recovery has
  moved it (`EditBeforeRecoveryClaimsAgain`). Only the later claim is started: no occurrence starts twice
  (`NoOccurrenceStartsTwice`).
- A frame of a Code Mode program with a field that is not text makes the event loop throw (`RunLoop`). No caller is
  then told the end, and nothing but that and the end of the turn keeps it from them (`EndCanBeToldIff`).
- A schema whose `type` is an empty array prints as nothing, and an array of it as the empty tuple
  (`EmptyTypeArrayPrintsNothing`); an identifier followed by a line feed is printed unquoted as a property
  name (`PropertyNameIsKey`).
- A terminal that the host has reported completed, but not announced, is never announced when the connection
  is lost (`LossAnnouncesOnlyTheRunning`), and a host notice for a terminal already announced locally is
  passed on as a second one (`HostNoticeIsNotSuppressed`).
- Notices are published after the lock under which they are recorded. Observers get each of them once, but two
  threads can publish out of order, exactly when two critical sections have different notices under way at the
  same time (`OrderBreaksIffSectionsOverlap`): a local end recorded first can be seen after the host's own
  completion notice (`LocalEndCanBeSeenLast`).
- Checking a file's digest resets it, so a second commit after a mismatch compares with the digest of no bytes
  (`DigestIsCheckedIffNoEmptyDigests`).
- A plugin generation announced again after another one makes an older binding resolve while the host still
  holds the generation in between, and only that does (`StaleCallIffGenerationReturns`,
  `ReturningGenerationResolvesTooEarly`). The shipped client cannot send this: its generation id is made of a
  counter and a fresh GUID (src/DotCraft.Runtime/Plugins/DotNetPluginRuntimeGenerations.cs:35-36), so only a
  client of another make can.
- An empty search term makes the occurrence counter fail (`CountOccurrences`), and an empty value is selected
  by the database, but not by the in-memory filter, when every term is empty
  (`SqlAgreesWithContainsAllTerms`).

## Model

| member | source | states |
|---|---|---|
| `CanonicalJson.AcceptsExactlyFinite` | src/DotCraft.DynamicWorkflows/CanonicalJson.cs:27-32 | normalising fails exactly on trees that hold a non-finite number at any depth |
| `CanonicalJson.NormalizeKeepsTree` | src/DotCraft.DynamicWorkflows/CanonicalJson.cs:7-25 | the normal form is well formed, finite, sorted in every object at any depth, and the same tree up to member order |
| `CanonicalJson.NormalFormsAreTheSortedTrees` | src/DotCraft.DynamicWorkflows/CanonicalJson.cs:7-32 | a tree is its own normal form if and only if it is finite and every object in it is sorted |
| `CanonicalJson.CanonicalFormDecidesSameness` | src/DotCraft.DynamicWorkflows/CanonicalJson.cs:7-32 | two finite trees have one normal form if and only if they differ only in object member order, at any depth |
| `CanonicalJson.SameTreesNormalizeAlike` | src/DotCraft.DynamicWorkflows/CanonicalJson.cs:19-25 | trees equal up to member order have equal normal forms |
| `CanonicalJson.NormalizeIsIdempotent` | src/DotCraft.DynamicWorkflows/CanonicalJson.cs:7-32 | normalising a normal form changes nothing |
| `CanonicalJson.FingerprintDecidesSameCall` | src/DotCraft.DynamicWorkflows/DynamicWorkflowService.Execution.cs:366-376 | under an injective hash two calls have one fingerprint if and only if arguments, input and options each agree up to member order |
| `CanonicalJson.NormalizeObject` | src/DotCraft.DynamicWorkflows/CanonicalJson.cs:19-25 | filling a fresh object in key order gives the normal form of the object |
| `JsonTree.SortByKeySorts` | src/DotCraft.DynamicWorkflows/CanonicalJson.cs:22-22 | ordering members by key is a sorted permutation of them |
| `JsonTree.SortedListIsUnique` | src/DotCraft.DynamicWorkflows/CanonicalJson.cs:22-22 | members with distinct keys have one ordinal order |
| `WorkflowReplay.ReadReplayCalls` | src/DotCraft.DynamicWorkflows/DynamicWorkflowService.cs:289-328 | the loop over list and index dictionary builds the fold of the journal entries |
| `WorkflowReplay.ActiveRun.TakeReplay` | src/DotCraft.DynamicWorkflows/DynamicWorkflowService.Execution.cs:215-230 | the cursor step: what is taken from the replay list, the new cursor, and when the run diverges |
| `WorkflowReplay.ActiveRun.ExecuteLive` | src/DotCraft.DynamicWorkflows/DynamicWorkflowService.Execution.cs:260-364 | journal entries, usage and result of a call that is not replayed, for each point it can reach |
| `WorkflowReplay.ActiveRun.ExecuteReplayed` | src/DotCraft.DynamicWorkflows/DynamicWorkflowService.Execution.cs:243-259 | usage and journal entry of a call answered from the list, for each point it can reach |
| `WorkflowReplay.ActiveRun.Deliver` | src/DotCraft.DynamicWorkflows/DynamicWorkflowService.Execution.cs:176-198 | a result is delivered, an exception is journaled as a failure and answered with null, and a call that is cut off gets no answer |
| `WorkflowReplay.ActiveRun.ExecuteAgent` | src/DotCraft.DynamicWorkflows/DynamicWorkflowService.Execution.cs:201-259 | one agent call changes count, cursor, divergence, usage and journal as the call step says, and answers the same |
| `WorkflowReplay.RunIsJournaled` | src/DotCraft.DynamicWorkflows/DynamicWorkflowService.Execution.cs:201-364 | wherever a run ends or is cut off, its journal rebuilds to exactly the calls the script saw, each as it was seen or as the failure a replayed one ended in, plus at most one call that was cut off; usage is the sum charged, the cut call included |
| `WorkflowReplay.CutOffCallIsCompleteIff` | src/DotCraft.DynamicWorkflows/DynamicWorkflowService.Execution.cs:171-198 | a call that was cut off is complete in the journal if and only if it was live and its completion had been journaled, or its failure had |
| `WorkflowReplay.ResumeReplaysLongestPrefix` | src/DotCraft.DynamicWorkflows/DynamicWorkflowService.Execution.cs:215-259 | for any source run, script and environment: a resumed run replays exactly the longest prefix of the rebuilt list that its script issues again, as far as the results are delivered, is charged the recorded usage, and replays nothing afterwards |
| `WorkflowReplay.ReplayIsGreedy` | src/DotCraft.DynamicWorkflows/DynamicWorkflowService.Execution.cs:215-230 | in every run, whatever disturbs it, a call is answered from the list if and only if it and all calls before it match the list entry by entry; it is charged the recorded usage and seen as recorded or, if not delivered, as null |
| `WorkflowReplay.UnseenCallIsReplayedIff` | src/DotCraft.DynamicWorkflows/DynamicWorkflowService.Execution.cs:171-198 | a resumed run replays a call the source script never saw the result of if and only if it replayed all the others and that call was cut off complete and is issued again; no later call is replayed |
| `WorkflowReplay.UnseenCallExample` | src/DotCraft.DynamicWorkflows/DynamicWorkflowService.Execution.cs:345-357 | a run cut off after its first completion was journaled: its script saw nothing, its resumption gets the result and pays for it |
| `WorkflowReplay.ReplayedCallsComeFirst` | src/DotCraft.DynamicWorkflows/DynamicWorkflowService.Execution.cs:216-230 | in every run all replayed calls precede all live ones |
| `WorkflowReplay.DivergedRunStaysLive` | src/DotCraft.DynamicWorkflows/DynamicWorkflowService.Execution.cs:218-229 | after the first mismatch no call is replayed |
| `WorkflowReplay.UnchangedScriptReplaysAllOrNothing` | src/DotCraft.DynamicWorkflows/DynamicWorkflowService.cs:300-326 | an unchanged script replays every call it had seen answered, as far as results are delivered, if the source answered its first call live, and nothing if the source got that result from replay |
| `WorkflowReplay.ReplayedPrefixUsage` | src/DotCraft.DynamicWorkflows/DynamicWorkflowService.Execution.cs:245-245 | any replayed prefix is charged what the source paid if and only if none of its calls failed after its usage was added, and otherwise less |
| `WorkflowReplay.RecordedUsageIsExactUnlessLost` | src/DotCraft.DynamicWorkflows/DynamicWorkflowService.Execution.cs:334-356 | recorded usage never exceeds charged usage and equals it exactly when no call lost its record |
| `WorkflowReplay.LostUsageExample` | src/DotCraft.DynamicWorkflows/DynamicWorkflowService.Execution.cs:190-198 | for any script, a first call whose clean-up fails after its usage was added is replayed at no charge |
| `WorkflowReplay.MemberOrderDoesNotBreakReplay` | src/DotCraft.DynamicWorkflows/DynamicWorkflowService.Execution.cs:366-376 | a script that only reorders object members in its requests replays the same calls, as far as results are delivered |
| `WorkflowNotification.WasDeliveredToParent` | src/DotCraft.DynamicWorkflows/DynamicWorkflowService.Execution.cs:464-482 | the loop from the newest turn back to the parent turn computes the delivery walk |
| `WorkflowNotification.WalkFindsEveryNotice` | src/DotCraft.DynamicWorkflows/DynamicWorkflowService.Execution.cs:464-482 | stopping the walk at the parent turn misses no notice: it answers yes if and only if some turn holds one |
| `WorkflowNotification.AtMostOneNotice` | src/DotCraft.DynamicWorkflows/DynamicWorkflowService.Execution.cs:449-508 | over every interleaving of state writes and their failures, queue and turn reads, enqueue, exceptions on the terminal frame and in the handlers, parent turns, crashes and restarts the parent holds at most one notice of a run, as long as no two stops of a paused run that both notify overlap; stops that do not notify may overlap with anything |
| `WorkflowNotification.QueuedMeansDelivered` | src/DotCraft.DynamicWorkflows/DynamicWorkflowService.Execution.cs:493-507 | a state file that says queued means exactly one notice in queue and turns, unless a queued input was removed |
| `WorkflowNotification.RestartDeliversExactlyOne` | src/DotCraft.DynamicWorkflows/DynamicWorkflowService.cs:60-94 | a restart that finds a finished run with its notice pending leaves exactly one notice and "queued", wherever the crash fell |
| `WorkflowNotification.CarrierAdvances` | src/DotCraft.DynamicWorkflows/DynamicWorkflowService.Execution.cs:484-508 | the notifying code always has an enabled step, and each brings it nearer its end while nothing else holds it up |
| `WorkflowNotification.DrivenDelivers` | src/DotCraft.DynamicWorkflows/DynamicWorkflowService.Execution.cs:484-508 | uninterrupted notification adds a notice exactly to a parent that has none and records "queued" |
| `WorkflowNotification.RunNotifier.NotifyParent` | src/DotCraft.DynamicWorkflows/DynamicWorkflowService.Execution.cs:484-508 | the method is the machine's notification steps in order; a run already queued is left alone |
| `WorkflowNotification.RunNotifier.Finish` | src/DotCraft.DynamicWorkflows/DynamicWorkflowService.Execution.cs:449-462 | completion claims the latch, writes the final state and notifies, as the machine's steps on either path |
| `WorkflowNotification.RunNotifier.Recover` | src/DotCraft.DynamicWorkflows/DynamicWorkflowService.cs:62-92 | start-up interrupts a running run and notifies for a finished one that is pending |
| `WorkflowNotification.TwoNoticesIffNotifyingStopsOverlap` | src/DotCraft.DynamicWorkflows/DynamicWorkflowService.cs:209-235 | over every run in which no queued input is removed: what has begun can come to two notices if and only if somewhere a notifying stop read the status while another one had still to write and no notice was there; otherwise there is at most one |
| `WorkflowNotification.FurtherStopCanDoubleIff` | src/DotCraft.DynamicWorkflows/DynamicWorkflowService.cs:209-235 | once a further stop has read the status, two notices can be reached without yet another such stop if and only if it notifies, another notifying stop has still to write, and no notice is there |
| `WorkflowNotification.TwoStopsNotifyTwice` | src/DotCraft.DynamicWorkflows/DynamicWorkflowService.cs:209-235 | every newly created run can come to two notices: it is paused and stopped twice at once |
| `WorkflowNotification.ExceptionLosesTheNoticeIff` | src/DotCraft.DynamicWorkflows/DynamicWorkflowService.Execution.cs:80-130 | an exception in notification loses the notice for good if and only if the run was completing on its terminal frame, none was queued yet, and the second completion does not leave the run paused |
| `WorkflowNotification.RestartMakesUpForHandlerException` | src/DotCraft.DynamicWorkflows/DynamicWorkflowService.Execution.cs:109-130 | after an exception in a handler's notification the next restart leaves exactly one notice and "queued", whatever came between |
| `WorkflowNotification.FailedFinalWriteLosesTheNotice` | src/DotCraft.DynamicWorkflows/DynamicWorkflowService.Execution.cs:449-462 | when the final state cannot be written no notice is ever sent, on the frame path unless the second completion leaves the run paused |
| `WorkflowListing.CursorRoundTrip` | src/DotCraft.DynamicWorkflows/DynamicWorkflowProjectionService.cs:62-77 | a cursor decodes to the creation time and id of the run it was made from, line feeds in the id included |
| `WorkflowListing.PageIsNextStretch` | src/DotCraft.DynamicWorkflows/DynamicWorkflowProjectionService.cs:44-52 | a page is ordered, lies behind its cursor, and either holds every wanted run or is full and ends before each one it leaves out |
| `WorkflowListing.NoRunIsListedTwice` | src/DotCraft.DynamicWorkflows/DynamicWorkflowProjectionService.cs:31-53 | however the store changes between pages, the listing goes strictly from newer to older, without a repetition |
| `WorkflowListing.NoRunIsMissed` | src/DotCraft.DynamicWorkflows/DynamicWorkflowProjectionService.cs:31-53 | a run that is there all the while is listed by the time a page comes back short |
| `WorkflowListing.PagesPartitionTheRuns` | src/DotCraft.DynamicWorkflows/DynamicWorkflowProjectionService.cs:31-53 | on an unchanged store a short page comes within one page more than there are runs, and the pages up to it hold exactly the thread's runs, in order |
| `WorkflowListing.ListRuns` | src/DotCraft.DynamicWorkflows/DynamicWorkflowProjectionService.cs:31-53 | collecting, ordering, cutting off at the cursor, ordering again and taking give the page; an unreadable cursor starts from the top |
| `SourceMask.MaskStringsAndComments` | src/DotCraft.DynamicWorkflows/DynamicWorkflowParser.cs:56-90 | the in-place loop over the characters leaves the masked text |
| `SourceMask.MaskKeepsPositions` | src/DotCraft.DynamicWorkflows/DynamicWorkflowParser.cs:56-90 | every character stays or becomes a blank, and none moves |
| `SourceMask.MaskHasNoOpeners` | src/DotCraft.DynamicWorkflows/DynamicWorkflowParser.cs:85-87 | no quote and no comment opener is left |
| `SourceMask.MaskChangesExactlyOpeners` | src/DotCraft.DynamicWorkflows/DynamicWorkflowParser.cs:56-90 | a script is unchanged if and only if it has no quote and no comment opener |
| `SourceMask.MaskIsIdempotent` | src/DotCraft.DynamicWorkflows/DynamicWorkflowParser.cs:56-90 | masking a masked script changes nothing |
| `SourceMask.LiteralIsBlanked` | src/DotCraft.DynamicWorkflows/DynamicWorkflowParser.cs:78-85 | a string literal, escapes and quotes included, is blanked and the code before and after it is not affected |
| `SourceMask.BlockCommentIsBlanked` | src/DotCraft.DynamicWorkflows/DynamicWorkflowParser.cs:72-87 | a block comment is blanked with its delimiters and nothing around it |
| `SourceMask.LineCommentIsBlanked` | src/DotCraft.DynamicWorkflows/DynamicWorkflowParser.cs:66-86 | a line comment is blanked up to the line end, which stays, or the end of the script |
| `AutomationSchedule.EveryNextIsLeast` | src/DotCraft.Automations/AutomationSchedule.cs:58-64 | the interval branch gives the least grid point basis + k*interval, k at least 1, past the instant |
| `AutomationSchedule.SearchIsEarliest` | src/DotCraft.Automations/AutomationSchedule.cs:65-79 | the 370-day search never falls through and finds the earliest matching wall-clock instant past the given one among all days, past and beyond the search included |
| `AutomationSchedule.HitWithinNineDays` | src/DotCraft.Automations/AutomationSchedule.cs:67-78 | every valid calendar schedule has an occurrence within eight days after the day shown |
| `AutomationSchedule.SearchCalendar` | src/DotCraft.Automations/AutomationSchedule.cs:65-79 | the day loop with its inner minute loop out of a gap computes the search |
| `AutomationSchedule.ComputeNext` | src/DotCraft.Automations/AutomationSchedule.cs:54-80 | all branches together compute the next occurrence |
| `AutomationSchedule.NextIsLater` | src/DotCraft.Automations/AutomationSchedule.cs:39-80 | it faults if and only if the schedule is invalid, never answers an instant not past the given one, and answers none only for a spent one-shot |
| `AutomationSchedule.SameOccurrencesAgree` | src/DotCraft.Automations/AutomationSchedule.cs:24-36 | schedules that compare as the same have the same next occurrence at every instant, whatever the order and repetition of their days; for one-shots and intervals also conversely |
| `AutomationSchedule.FixedZoneIsRegular` | src/DotCraft.Automations/AutomationSchedule.cs:72-76 | the zone axioms hold of every fixed offset |
| `AutomationSchedule.SkippingZoneIsRegular` | src/DotCraft.Automations/AutomationSchedule.cs:72-76 | the zone axioms hold of every zone whose clock is put forward by up to a day |
| `AutomationSchedule.RepeatingZoneIsRegular` | src/DotCraft.Automations/AutomationSchedule.cs:72-76 | the zone axioms hold of every zone whose clock is put back by up to a day |
| `AutomationScheduler.ClaimedTwiceIffLeftOver` | src/DotCraft.Automations/AutomationService.Scheduler.cs:8-123 | over every run of polls, failed saves, crashes in dispatch and in recovery, edits and manual runs, per version as per era: an occurrence is claimed twice at some moment if and only if a poll is taken while a claim is left over, and otherwise claims are in order at every moment. A lost second write leaves its claim; recovery clears a claim of the current version only; any change of the due time clears it; an edit that carries the due time keeps it within the era |
| `AutomationScheduler.OrderlyRunsDoNotClaimAgain` | src/DotCraft.Automations/AutomationService.Scheduler.cs:95-123 | no poll is taken over a claim left over when saves fail only with the host and, across versions, edits wait for recovery |
| `AutomationScheduler.DispatchIsAtMostOnce` | src/DotCraft.Automations/AutomationService.Scheduler.cs:95-123 | in every run without such a poll: planned times of one definition version strictly increase, and each lies after the moment the previous run was claimed |
| `AutomationScheduler.EditsDoNotDispatchTwice` | src/DotCraft.Automations/AutomationService.cs:50-70 | the same across versions whose edits carry the due time over |
| `AutomationScheduler.NoOccurrenceStartsTwice` | src/DotCraft.Automations/AutomationService.Scheduler.cs:95-123 | in every run, with failed saves, crashes, and edits at any time: two started runs of one version, or of one era, are planned for different instants, the later after the moment the earlier was claimed |
| `AutomationScheduler.NothingMissedRemains` | src/DotCraft.Automations/AutomationService.Scheduler.cs:15-34 | after a dispatch, and after recovery of a claim whose second write was lost, nothing is due: missed occurrences collapsed into one run |
| `AutomationScheduler.RecoveryCatchesUp` | src/DotCraft.Automations/AutomationService.Scheduler.cs:15-34 | the pass over the run files leaves the due time past every claim of the version; a claim left by an earlier version of the era is not seen and the due time stays on it |
| `AutomationScheduler.RestartSettlesEveryRun` | src/DotCraft.Automations/AutomationService.Scheduler.cs:22-26 | no run is left waiting or running by a restart, and finished ones are kept |
| `AutomationScheduler.RecoveryIsIdempotent` | src/DotCraft.Automations/AutomationService.Scheduler.cs:8-40 | wherever a crash falls inside recovery, between two run files or after the definition, the next recovery leaves what the first would have left |
| `AutomationScheduler.IntervalKeepsPhase` | src/DotCraft.Automations/AutomationSchedule.cs:58-64 | an interval advances from its planned time: the next time is a whole number of intervals away however late the dispatch |
| `AutomationScheduler.PlannedTimesShareAPhase` | src/DotCraft.Automations/AutomationService.Scheduler.cs:8-123 | in every run all instants planned under an unchanged interval, the next one included, lie whole intervals apart |
| `AutomationScheduler.FailedSaveClaimsTwice` | src/DotCraft.Automations/AutomationService.Scheduler.cs:110-118 | in every state with something due, a failed second write lets the next poll claim the same occurrence again; only the second claim is started |
| `AutomationScheduler.EditBeforeRecoveryClaimsAgain` | src/DotCraft.Automations/AutomationService.Scheduler.cs:20-21 | in every reachable state with something due, a crash and then an edit before recovery lead to the claimed occurrence, never started, being claimed again under the new version |
| `AutomationScheduler.Service.Queue` | src/DotCraft.Automations/AutomationService.Scheduler.cs:95-123 | claims exactly when started, idle and, unless manual, due; state and result in each case |
| `AutomationScheduler.Service.Start` | src/DotCraft.Automations/AutomationService.Scheduler.cs:8-40 | the recovery loop, newest run first, does what recovery is specified to do |
| `AutomationScheduler.Service.Update` | src/DotCraft.Automations/AutomationService.cs:50-70 | succeeds exactly on the expected version of a definition that is not completed, and carries or resets the due time |
| `AutomationScheduler.Service.Create` | src/DotCraft.Automations/AutomationService.cs:33-49 | the first version and its due time |
| `AutomationScheduler.Service.CloseOut` | src/DotCraft.Automations/AutomationService.Execution.cs:150-168 | a spent one-shot is completed under a new version and the attempt leaves the running set |
| `TypeText.HasTopLevelOperator` | src/DotCraft.CodeMode/CodeModeTypeScript.cs:226-257 | the scanning loop computes the recursive scan |
| `TypeText.OperatorScanIsExact` | src/DotCraft.CodeMode/CodeModeTypeScript.cs:224-257 | on every printed type the scan finds an operator if and only if the root is a union or an intersection |
| `TypeText.PrintedTypeReadsBack` | src/DotCraft.CodeMode/CodeModeTypeScript.cs:216-224 | a printed type parses back to its own tree if and only if the tree is readable |
| `TypeText.TextDecidesType` | src/DotCraft.CodeMode/CodeModeTypeScript.cs:216-222 | readable types have equal texts if and only if they are equal, so removing duplicate texts removes duplicate types |
| `TypeScriptPrinter.TypeIsPrint` | src/DotCraft.CodeMode/CodeModeTypeScript.cs:30-257 | the text rendered for any schema, with references and depth limit, is the print of its type tree |
| `TypeScriptPrinter.RenderedScanIsExact` | src/DotCraft.CodeMode/CodeModeTypeScript.cs:224-257 | on every rendered text the operator scan answers for the root of the type tree |
| `TypeScriptPrinter.RenderedTypeReadsBack` | src/DotCraft.CodeMode/CodeModeTypeScript.cs:27-61 | the rendered text parses back to the type tree if and only if the tree is readable |
| `TypeScriptPrinter.CleanSchemaReadsBack` | src/DotCraft.CodeMode/CodeModeTypeScript.cs:27-61 | every schema without an empty type array and without line-feed identifiers reads back |
| `TypeScriptPrinter.EmptyTypeArrayPrintsNothing` | src/DotCraft.CodeMode/CodeModeTypeScript.cs:106-112 | a core prints as nothing exactly when the type is an array without names, and an array of it prints as the empty tuple |
| `TypeScriptPrinter.PropertyNameIsKey` | src/DotCraft.CodeMode/CodeModeTypeScript.cs:259-263 | a property name is printed as a name or a quoted string unless it is an identifier followed by a line feed |
| `TypeScriptPrinter.QuoteIsQuoted` | src/DotCraft.CodeMode/CodeModeTypeScript.cs:206-214 | a serialised string of ASCII characters is one quoted token: every inner quote, backslash and control character is escaped |
| `SchemaReader.RenderedDocument` | src/DotCraft.CodeMode/CodeModeTypeScript.cs:27-28 | the two results hold of the schema read from any JSON document with its own references |
| `SchemaReader.CleanDocumentReadsBack` | src/DotCraft.CodeMode/CodeModeTypeScript.cs:27-61 | a document that nowhere has a type array without a string, nor a property that is an identifier and a line feed, renders to text that reads back, whatever references it holds |
| `SchemaReader.ViewIsClean` | src/DotCraft.CodeMode/CodeModeTypeScript.cs:30-180 | what is looked up in such a document is a clean schema |
| `SchemaReader.ReferenceFindsItsPlace` | src/DotCraft.CodeMode/CodeModeTypeScript.cs:78-95 | a reference made from a path of names leads where the path leads, whatever characters the names hold |
| `SchemaReader.EscapedNameReadsBack` | src/DotCraft.CodeMode/CodeModeTypeScript.cs:83-83 | putting back slashes before tildes undoes the escapes of RFC 6901 |
| `SchemaReader.Get` | src/DotCraft.CodeMode/CodeModeTypeScript.cs:37-37 | looking up a repeated member gives its last definition |
| `CellStore.StoresStayWithinLimit` | src/DotCraft.CodeMode/CodeModeWorkerRunner.cs:340-359 | however many programs edit and save: each copy is its snapshot with its log replayed, its running size is the sum of entry sizes, and neither copy nor host exceeds the limit |
| `CellStore.SaveOnUnchangedHost` | src/DotCraft.CodeMode/CodeModeStore.cs:26-44 | saving on the store the program started from always succeeds and leaves exactly its copy |
| `CellStore.SaveOnChangedHost` | src/DotCraft.CodeMode/CodeModeStore.cs:26-44 | on a changed store a save writes the keys of its log and no others, or nothing when the result is too large |
| `CellStore.DisjointSavesCommute` | src/DotCraft.CodeMode/CodeModeStore.cs:26-44 | programs that touched different keys leave one store in either order when all their saves fit |
| `CellStore.SetIsRefusedOnlyForSize` | src/DotCraft.CodeMode/CodeModeWorkerRunner.cs:340-352 | a set is refused if and only if the value or the resulting store would be too large |
| `CellStore.Worker.constructor` | src/DotCraft.CodeMode/CodeModeWorkerRunner.cs:275-283 | copying the snapshot gives its entries and their summed size |
| `CellStore.Worker.Set` | src/DotCraft.CodeMode/CodeModeWorkerRunner.cs:340-352 | store, log and size after a set, and when it is refused |
| `CellStore.Worker.Delete` | src/DotCraft.CodeMode/CodeModeWorkerRunner.cs:354-359 | store, log and size after a delete |
| `CellStore.Worker.StoreWrites` | src/DotCraft.CodeMode/CodeModeWorkerRunner.cs:363-375 | the log split in two merges into any store as the log replays on it |
| `CellStore.Host.TryApply` | src/DotCraft.CodeMode/CodeModeStore.cs:26-44 | succeeds if and only if the merged store fits, and then becomes it; otherwise unchanged |
| `CellOutput.OutputIsConserved` | src/DotCraft.CodeMode/CodeModeCell.cs:56-76 | over any interleaving of output, waits, terminations and turn ends: what was handed out, in order, followed by the buffer is everything emitted |
| `CellOutput.EndIsToldOnce` | src/DotCraft.CodeMode/CodeModeCellResponse.cs:47-58 | at most one response is final, none once the turn closed the cell, and after it everything has been handed out for good |
| `CellOutput.WaiterGetsTheEnd` | src/DotCraft.CodeMode/CodeModeCellResponse.cs:47-58 | the call that closes a cell nobody closed tells the outcome and the rest of the output, whatever other calls take or emit in between |
| `CellOutput.EndCanBeToldIff` | src/DotCraft.CodeMode/CodeModeCellResponse.cs:47-58 | at every moment of every interleaving some caller has been told the end or can still be, if and only if the loop has not thrown and the turn has not closed the cell |
| `CellOutput.RunLoop` | src/DotCraft.CodeMode/CodeModeCellRun.cs:35-98 | for any events: output is that of the valid frames read, at most the limit of calls starts, and store edits survive only a completed program that was never stopped, timed out or terminated; the loop throws if and only if the last frame it read has a field that is not text where it looks for one |
| `CellOutput.ReadItem` | src/DotCraft.CodeMode/CodeModeCellRun.cs:226-240 | an output frame gives its item, nothing, or an exception, by the fields of its own kind only |
| `CellOutput.Finish` | src/DotCraft.CodeMode/CodeModeCellRun.cs:120-127 | termination wins over timeout, and both drop the store edits |
| `CellOutput.Cell.TakeOutput` | src/DotCraft.CodeMode/CodeModeCell.cs:68-76 | hands out and empties the buffer, conserving what was emitted |
| `CellOutput.Cell.AddOutput` | src/DotCraft.CodeMode/CodeModeCell.cs:56-60 | appends to the buffer, conserving what was emitted |
| `CellOutput.Registry.Close` | src/DotCraft.CodeMode/CodeModeCell.cs:113-114 | true exactly when the very cell is registered, which it then no longer is |
| `EditDistance.Compute` | src/DotCraft.CodeMode/CodeModeWorkerBootstrap.cs:37-49 | the one-row loops return the recursive distance |
| `EditDistance.FillRow` | src/DotCraft.CodeMode/CodeModeWorkerBootstrap.cs:40-46 | the inner loop turns one table row into the next in place |
| `EditDistance.DistanceIsLeastNumberOfEdits` | src/DotCraft.CodeMode/CodeModeWorkerBootstrap.cs:37-49 | a number is the distance if and only if some list of that many insertions, deletions and replacements does it and none shorter does |
| `EditDistance.Symmetric` | src/DotCraft.CodeMode/CodeModeWorkerBootstrap.cs:37-49 | the distance is symmetric |
| `EditDistance.Triangle` | src/DotCraft.CodeMode/CodeModeWorkerBootstrap.cs:37-49 | the distance obeys the triangle inequality |
| `EditDistance.ZeroIffEqual` | src/DotCraft.CodeMode/CodeModeWorkerBootstrap.cs:37-49 | the distance is zero if and only if the texts are equal |
| `FileTransfer.Prepare` | src/DotCraft.RemoteTools/FileTransferSession.cs:16-39 | accepts exactly manifests with distinct, permitted and link-free destinations, well-formed entries, nothing in the way, a total within the limit and their root entry first |
| `FileTransfer.NothingAppearsUnchecked` | src/DotCraft.RemoteTools/FileTransferSession.cs:56-103 | for any calls in any order a changed destination belongs to a committed entry and has its kind, its full length and its digest as far as that is checked |
| `FileTransfer.DigestIsCheckedIffNoEmptyDigests` | src/DotCraft.RemoteTools/FileTransferSession.cs:86-91 | for any destinations a manifest may be sent to: every file that appears has its digest in all runs if and only if no non-empty entry carries the digest of no bytes |
| `FileTransfer.TransferIsExact` | src/DotCraft.RemoteTools/RemoteExecutionSession.Files.cs:139-189 | the sender's calls leave every destination equal to its source for every length, zero included, and every other path as it was |
| `FileTransfer.FeedFills` | src/DotCraft.RemoteTools/RemoteExecutionSession.Files.cs:151-177 | the chunks of a file add up to it at the receiver |
| `FileTransferLoop.Receiver.Write` | src/DotCraft.RemoteTools/FileTransferSession.cs:56-76 | accepts exactly the next chunk of the one pending file and appends it |
| `FileTransferLoop.Receiver.Commit` | src/DotCraft.RemoteTools/FileTransferSession.cs:78-103 | places the pending bytes under their name exactly when complete, matching, permitted and not in the way |
| `FileTransferLoop.Receiver.Dispose` | src/DotCraft.RemoteTools/FileTransferSession.cs:113-127 | nothing pending is left and no later call is accepted |
| `FileTransferLoop.SendFile` | src/DotCraft.RemoteTools/RemoteExecutionSession.Files.cs:151-177 | the do-while loop delivers the whole file or fails, and cannot fail on a faithful source |
| `FileTransferLoop.Transfer` | src/DotCraft.RemoteTools/RemoteExecutionSession.Files.cs:126-193 | counters are the sums over the counted entries, on success over the manifest; the entries in place are the counted ones, or one more if the answer to a commit was lost; they are checked and all else untouched; a truthful source always succeeds with the exact files |
| `OperationScope.CounterCountsCalls` | src/DotCraft.RemoteTools/RemoteOperationScope.cs:15-30 | in every interleaving the counter is the number of calls not yet left |
| `OperationScope.NothingEntersAfterClosing` | src/DotCraft.RemoteTools/RemoteOperationScope.cs:15-24 | once closing is asked for the calls in flight only become fewer |
| `OperationScope.DrainedMeansEmptyForGood` | src/DotCraft.RemoteTools/RemoteOperationScope.cs:26-30 | the drained signal fires only with no call in flight, and there is none ever after |
| `OperationScope.NoLostWakeup` | src/DotCraft.RemoteTools/RemoteOperationScope.cs:26-45 | once the closer has passed its check the signal has fired if and only if no call is left |
| `OperationScope.ClosingMakesProgress` | src/DotCraft.RemoteTools/RemoteOperationScope.cs:37-57 | until closing is done some enabled step of the calls in flight or of the closer brings it nearer |
| `OperationScope.OwedNeverGrowsWhileClosing` | src/DotCraft.RemoteTools/RemoteOperationScope.cs:15-57 | no other step sets closing back |
| `OperationScope.Scope.TryEnter` | src/DotCraft.RemoteTools/RemoteOperationScope.cs:15-24 | enters exactly when not closing and not cancelled |
| `OperationScope.Scope.Leave` | src/DotCraft.RemoteTools/RemoteOperationScope.cs:26-30 | the leaving section |
| `OperationScope.Scope.CheckCount` | src/DotCraft.RemoteTools/RemoteOperationScope.cs:41-42 | the closer's check |
| `OperationScope.Call.Dispose` | src/DotCraft.RemoteTools/RemoteOperationScope.cs:51-56 | leaves the scope once, however often it is called |
| `TerminalEvents.EarlyReportsCommute` | src/DotCraft.RemoteTools/RemoteExecutionSession.Terminals.cs:43-94 | wherever the Exec result falls among the host's reports, the terminal's snapshot, notified flag and recorded notices are those of being registered first |
| `TerminalEvents.InterleavingDoesNotMatter` | src/DotCraft.RemoteTools/RemoteExecutionSession.Terminals.cs:43-94 | two interleavings of the same reports leave the same terminal and the same record |
| `TerminalEvents.UnarmedReportsAreDropped` | src/DotCraft.RemoteTools/RemoteExecutionSession.Terminals.cs:76-77 | a terminal that is not armed records nothing, drops early reports and holds later ones for good |
| `TerminalEvents.LocalEndIsRecordedOnce` | src/DotCraft.RemoteTools/RemoteExecutionSession.Terminals.cs:141-148 | over any interleaving a local end is recorded at most once and never after a recorded completion notice |
| `TerminalEvents.ReleaseAnnouncesWhatWasRunning` | src/DotCraft.RemoteTools/RemoteExecutionSession.cs:81-111 | for every terminal running when its thread's release began a completion notice is recorded by its end, and it is then forgotten |
| `TerminalEvents.StartOvertakenByReleaseEnds` | src/DotCraft.RemoteTools/RemoteExecutionSession.Terminals.cs:71-89 | for a terminal whose Exec was overtaken by a release the end is recorded, and it is never listed |
| `TerminalEvents.HostNoticeIsNotSuppressed` | src/DotCraft.RemoteTools/RemoteExecutionSession.Terminals.cs:96-110 | for an announced terminal a report adds a completion notice if and only if it is one |
| `TerminalEvents.LossAnnouncesOnlyTheRunning` | src/DotCraft.RemoteTools/RemoteExecutionSession.Terminals.cs:130-139 | losing the connection announces an unannounced terminal if and only if it is still running as far as known |
| `TerminalEvents.CompletionLostWithTheConnection` | src/DotCraft.RemoteTools/RemoteExecutionSession.Terminals.cs:99-103 | a terminal reported completed and not announced stays unannounced after a loss |
| `TerminalEvents.Session.OnTerminalEvent` | src/DotCraft.RemoteTools/RemoteExecutionSession.Terminals.cs:43-60 | for every id the session changes as the report step says, and then publishes what that recorded |
| `TerminalEvents.Session.ReportStartedTerminals` | src/DotCraft.RemoteTools/RemoteExecutionSession.Terminals.cs:68-94 | for every id the loops over started terminals and held reports do the start step, a session that is unavailable ends the running ones as lost, and what was recorded is published |
| `TerminalEvents.Session.BeginThreadRelease` | src/DotCraft.RemoteTools/RemoteExecutionSession.Terminals.cs:112-120 | counts the release and returns exactly the thread's running terminals |
| `TerminalEvents.Session.ForgetThreadTerminals` | src/DotCraft.RemoteTools/RemoteExecutionSession.Terminals.cs:122-128 | removes exactly the thread's terminals |
| `TerminalEvents.Session.EndTerminals` | src/DotCraft.RemoteTools/RemoteExecutionSession.Terminals.cs:130-139 | ends exactly the terminals concerned, in whatever order the dictionary yields them, and publishes what that recorded |
| `TerminalPublishing.EveryNoticeIsPublishedOnce` | src/DotCraft.RemoteTools/RemoteExecutionSession.Terminals.cs:43-154 | however sections and publications interleave, observers get every recorded notice at most once, and exactly once when nothing is under way |
| `TerminalPublishing.InterleavingsPublishTheSame` | src/DotCraft.RemoteTools/RemoteExecutionSession.Terminals.cs:43-94 | two interleavings of the same reports around an Exec result publish the same notices, up to order |
| `TerminalPublishing.LocalEndIsPublishedOnce` | src/DotCraft.RemoteTools/RemoteExecutionSession.Terminals.cs:130-154 | a local end is published at most once |
| `TerminalPublishing.OrderCanBreakIff` | src/DotCraft.RemoteTools/RemoteExecutionSession.Terminals.cs:58-58 | the next publication can break the recorded order if and only if two sections have notices under way that differ at their heads |
| `TerminalPublishing.OrderBreaksIffSectionsOverlap` | src/DotCraft.RemoteTools/RemoteExecutionSession.Terminals.cs:43-154 | over every run of sections and publications: the order seen can differ from the record's if and only if at some moment two sections have different notices under way; without that the record is what is seen |
| `TerminalPublishing.NonOverlappingSectionsKeepOrder` | src/DotCraft.RemoteTools/RemoteExecutionSession.Terminals.cs:43-154 | when no section records while notices are under way, they are published in the recorded order |
| `TerminalPublishing.LocalEndCanBeSeenLast` | src/DotCraft.RemoteTools/RemoteExecutionSession.Terminals.cs:130-154 | a run in which a local end recorded first is published after the host's completion notice |
| `PluginWorkspace.ResolvedBindingRuns` | src/DotCraft.RemoteTools/PluginExecutionWorkspace.cs:95-109 | after any preparations, failed half-way, refused or abandoned, a call that resolves names the plugin generation the host holds, if every generation has a revision of its own |
| `PluginWorkspace.StaleCallIffGenerationReturns` | src/DotCraft.RemoteTools/PluginExecutionWorkspace.cs:38-109 | for requests the sources accept: some run comes to a call that resolves to a generation the host does not hold if and only if a request brings a generation back after another one while a thread prepared with it has not been prepared again |
| `PluginWorkspace.CurrentRevisionIsHeld` | src/DotCraft.RemoteTools/PluginExecutionWorkspace.cs:95-112 | in every run a call whose tool was prepared from the revision announced last names the generation the host holds |
| `PluginWorkspace.ReturningGenerationResolvesTooEarly` | src/DotCraft.RemoteTools/PluginExecutionWorkspace.cs:43-57 | three requests that bring a generation back and make a stale binding resolve |
| `PluginWorkspace.Workspace.Begin` | src/DotCraft.RemoteTools/PluginExecutionWorkspace.cs:38-57 | all files are checked against the announced sources before any changes, and the thread's catalog is dropped |
| `PluginWorkspace.Workspace.ResolveCall` | src/DotCraft.RemoteTools/PluginExecutionWorkspace.cs:95-109 | a call resolves exactly with the thread's catalog revision, definition, binding and a current source |
| `ResampleKernel.WindowInBounds` | src/DotCraft.Imaging/ImageResampler.cs:50-52 | window ends are indices and the window holds the sample under the centre |
| `ResampleKernel.WeightSupport` | src/DotCraft.Imaging/ImageResampler.cs:98-98 | the weight is positive exactly inside the support |
| `ResampleKernel.WindowLosesNothing` | src/DotCraft.Imaging/ImageResampler.cs:50-66 | the clamped window sum equals the kernel sum over the whole axis, for samples and for weights |
| `ResampleKernel.TotalIsPositive` | src/DotCraft.Imaging/ImageResampler.cs:53-55 | the weight total is positive at every size |
| `ResampleKernel.ValueIsAverage` | src/DotCraft.Imaging/ImageResampler.cs:60-67 | a resampled value lies between the bounds of its samples |
| `ResampleKernel.PassOrderDoesNotMatter` | src/DotCraft.Imaging/ImageResampler.cs:10-25 | vertical first and horizontal first give one value before rounding |
| `ResampleKernel.SumSwap` | src/DotCraft.Imaging/ImageResampler.cs:44-150 | a double sum does not depend on which index is summed first |
| `ResampleKernel.UnchangedAxisIsCopied` | src/DotCraft.Imaging/ImageResampler.cs:7-8 | an axis that keeps its size is copied |
| `ImageResampler.Vertical` | src/DotCraft.Imaging/ImageResampler.cs:44-71 | the loops write the vertical resampling at every index of the buffer |
| `ImageResampler.Horizontal` | src/DotCraft.Imaging/ImageResampler.cs:73-96 | the loops write the rounded horizontal resampling at every index |
| `ImageResampler.HorizontalFirst` | src/DotCraft.Imaging/ImageResampler.cs:100-126 | the loops write the horizontal resampling at every index |
| `ImageResampler.VerticalLast` | src/DotCraft.Imaging/ImageResampler.cs:128-150 | the loops write the rounded vertical resampling at every index |
| `ImageResampler.Resize` | src/DotCraft.Imaging/ImageResampler.cs:5-32 | whichever branch runs, every output byte is the rounded exact value |
| `ImageResampler.ToRgba8` | src/DotCraft.Imaging/ImageResampler.cs:34-42 | sixteen-bit samples become the nearest byte |
| `ImageResampler.NearestByte` | src/DotCraft.Imaging/ImageResampler.cs:40-40 | adding 128 and dividing by 257 rounds to nearest |
| `ImageResampler.SameSizeIsExact` | src/DotCraft.Imaging/ImageResampler.cs:7-8 | the same-size shortcut gives what the two passes would |
| `ImageResampler.ExactIsAverage` | src/DotCraft.Imaging/ImageResampler.cs:44-150 | every output sample lies between the least and greatest source sample of its channel |
| `ImageResampler.ClampNeverBites` | src/DotCraft.Imaging/ImageResampler.cs:92-92 | the final clamp never changes a value |
| `ImageResampler.ConstantChannelStaysConstant` | src/DotCraft.Imaging/ImageResampler.cs:5-32 | a channel of one value keeps it at every size |
| `ContextSearch.ChainIsOnePass` | src/DotCraft.ContextExport/ContextSearchService.cs:617-620 | the three chained replacements equal escaping in one pass |
| `ContextSearch.EscapedMatchesItself` | src/DotCraft.ContextExport/ContextSearchService.cs:596-604 | under LIKE with backslash escape an escaped term matches itself literally and nothing else |
| `ContextSearch.LikeIsContains` | src/DotCraft.ContextExport/ContextSearchService.cs:596-615 | the pattern selects a value if and only if the value contains the term |
| `ContextSearch.SqlAgreesWithContainsAllTerms` | src/DotCraft.ContextExport/ContextSearchService.cs:587-615 | the SQL conjunction and the in-memory filter agree on a value if and only if it is not empty or some term is not |
| `ContextSearch.AddTermParameters` | src/DotCraft.ContextExport/ContextSearchService.cs:596-604 | one pattern a term, in order |
| `ContextSearch.CountOccurrences` | src/DotCraft.ContextExport/ContextSearchService.cs:574-585 | counts greedily for a non-empty term, and fails for an empty one |
| `ContextSearch.GreedyIsOptimal` | src/DotCraft.ContextExport/ContextSearchService.cs:574-585 | a number is the greedy count if and only if that many non-overlapping occurrences exist and no more |
| `ContextSearch.ScoreText` | src/DotCraft.ContextExport/ContextSearchService.cs:555-572 | the sum of the weights if the value is not blank and contains all terms; zero if a term is missing; a failure if an empty term is reached before one that is missing |
| `ContextSearch.SplitGivesTerms` | src/DotCraft.ContextExport/ContextSearchService.cs:546-553 | the terms of a query are non-empty, lower case, trimmed, free of separators and distinct |
| `ContextSearch.SearchesAgree` | src/DotCraft.ContextExport/ContextSearchService.cs:546-615 | for the terms of any query that has some, scoring never fails, and a value is selected by the database if and only if the filter keeps it and if and only if its score is positive |

## Left out

- Agent calls in flight at the same time; replay is stated for scripts that await each call.
- WorkflowReplay.ReadReplayCalls: labels, phases and child threads of entries, which do not decide what is replayed, and entries without an operation id or fingerprint, which the reader skips. The specification counts the effective phase and label among what the fingerprint covers; the code hashes the options as written.
- A request whose label or phase is not text is answered with null before anything is recorded or looked up. The model takes such requests as part of the script's own computation; that they count toward the call limit is not modelled.
- Journal writes that fail, and numbers in requests that are not finite, which cannot come through the frames of the script.
- Parent threads that are deleted, forked or rolled back while a notice is on its way.
- Turn history read while it grows: the walk over a parent's turns is one step.
- Rounding of floats in the resampler and of doubles in interval arithmetic.
- Image budget accounting, EXIF and colour profiles, and the shared pixel buffer that an eight-bit same-size resize returns.
- Real time-zone data, and zones whose clock skips or repeats more than a day.
- Automation worktree retention, delivery of results, execution slots and the prompt of an attempt.
- Several automations at once: the model follows one, which is how the code keeps its files.
- Type printing on several lines with comments, whose text is unconstrained; percent-decoding and the parsing of array indices in references, which are parameters.
- TypeScriptPrinter.QuoteIsQuoted: the serialiser's escapes of characters outside ASCII, which it chooses by Unicode category.
- Sorting, filtering and cutting of name suggestions around the edit distance.
- The script engine, worker processes, frames and memory watch of Code Mode: the worker is a source of events.
- Closing all cells of a thread at once; one cell's closing by the end of its turn is a step of the model.
- Re-serialising a stored value: a value is its JSON text and keeps its size.
- File-system links and permissions that change during a transfer, parent directories and case-insensitive names, and the remote session's error codes other than the unknown outcome.
- TerminalPublishing: publication is followed for one terminal at a time; how notices of different terminals interleave is not, nor is an observer that throws, which drops the rest of the list being published.
- ContextSearch.Like: letter case and white space beyond ASCII, where the database and the host differ.
- Relevance constants of a search hit, its previews and its time filter.
- Plugin contracts, registrations, and what preparing a bundle does beyond which generation the host holds of each plugin; one that was stopped or did not start is still held.
- Progress, phases and agents of a listed run, which are read from its journal.
- Providers, transports, generators, and the desktop and mobile clients.
