# Metaclaude: a verified model of its in-memory algorithms and its run kernel

The repository is a self-hosted operating environment for coding agents. This project
models the parts of it that decide something by computation rather than by plumbing, in
the form the code has them, and proves what their comments, documentation and tests
promise.

- **Diffs** (`Text`, `EditScripts`, `UnifiedDiff`, `DiffReader`, `PatchApplication`).
  The edit script with its trimmed table, the hunk writer with its line budget, and the
  reader. An independent applier of patches ties the two together: for any two texts, an
  uncut patch whose lines do not look like metadata, once printed and read back, turns
  one text into the other.
- **The run kernel** (`SlotQueue`, `DelegationDesk`, `RunLifecycle`, `StepEffects`,
  `SlotCap`, `Kernel`). A state machine whose steps are the stretches of code between two
  `await`s, the class whose fields and methods carry those steps out, what each step does
  to a session, a run and the queue, and theorems about every reachable state: one run
  per session, no lost wake-up, exactly one release, an awaited answer delivered once,
  and no stranded run.
- **The chunker** (`Whitespace`, `Splitter`, `Chunker`). Text is cut into overlapping
  chunks whose offsets are true, whose spans partition what is not white space or
  heading, and whose sizes are bounded.
- **The policy learner** (`PolicyLearner`, `RewardOrder`). Posteriors over real
  arithmetic, for every history of observations and corrections, what the kernel must do
  to keep them so, and what the reward and the opening beliefs favour.
- **The loop check for automations** (`WatchPath`). A depth-first walk over graphs that
  may already contain loops.
- **The replay bus** (`EventBus`), a refinement of the full publish history.
- **Permissions** (`PermissionBroker`, `RunCeilings`). Prompts settled once, decisions
  remembered for exactly the scope they were made for, and ceilings that travel.
- **Retrieval metrics, identifiers, prompt blocks** (`RetrievalMetrics`, `SortableIds`,
  `PromptBlocks`). `Sets`, `Options` and `UnitInterval` are small helpers.

Objects that update their fields are classes whose methods are proved against functions
on values; theorems over whole runs are lemmas about those functions. Six results are
negative, each with its exact condition and its inputs: a removed line that starts with
`-- ` is lost to the reader (`DiffReader.ReadsWhatWasWritten`,
`PatchApplication.RemovedDashesAreLost`); equal texts past 2000 lines print as replaced
(`UnifiedDiff.PatchIsEmptyIffEqual`); a submission that is awaited and fails once its row
exists leaves its awaited mark behind (`RunLifecycle.AwaitedMarkLeaks`, `MarkStaysBehind`;
no caller in the repository passes attachments together with `awaited`, so for them it
takes another failure after `kernel.ts:398`); and ratings passed on to the learner skew it
exactly when the run's row does not hold the reward last passed on and not reset since,
which is what switching a workspace's learning setting on, or off and on again, or
resetting the learner between a run and its rating brings about
(`PolicyLearner.FeedbackIsExact`, `SwitchingOnSkews`, `SwitchingBackSkews`,
`ResettingSkews`). The fifth is about reconnecting: a client cut off between the replays of
two topics can lose frames, and does so exactly when they are not in publication order
(`EventBus.CutsLoseNothingIffRising`). The sixth is that more runs can be active than
`maxConcurrentRuns` allows (`SlotCap.CapIsExceeded`): a trace keeps the runs that hold a
slot under the cap exactly when no run is admitted while the slots are all held and some
holder is not counted as active (`SlotCap.CapHoldsIffGrantsCount`).

Check everything with `dafny verify dfyconfig.toml`.

The comment at `packages/shared/src/diff.ts:259` says the patch is empty when the texts
agree; the code, and so the model, compares line lists and gives up past 2000 lines.

## Model

| member | source | states |
|---|---|---|
| `EditScripts.EditScript` | packages/shared/src/diff.ts:109-170 | dropping `+` ops gives the old lines and dropping `-` ops the new ones, for every input; up to 2000 lines a side, what is kept is a longest common subsequence |
| `EditScripts.FillTable` | packages/shared/src/diff.ts:135-146 | the table, filled from its last cell backwards, holds the length of the longest common subsequence of every pair of suffixes |
| `EditScripts.WalkTable` | packages/shared/src/diff.ts:148-164 | walking that table greedily, ties towards removal, gives the script the recursive definition gives |
| `EditScripts.Trim` | packages/shared/src/diff.ts:120-130 | the two loops find the longest shared head and then the longest shared tail of what is left, without overlap |
| `EditScripts.LcsIsUpperBound` | packages/shared/src/diff.ts:138-146 | no list of lines common to both sides is longer than the number in the table |
| `EditScripts.LcsIsAttained` | packages/shared/src/diff.ts:109-170 | and some common list is that long |
| `EditScripts.WalkIsOptimal` | packages/shared/src/diff.ts:148-164 | the walk transforms one list into the other and keeps as many lines as any common subsequence has |
| `EditScripts.LcsSharedHead` | packages/shared/src/diff.ts:120-121 | a shared head adds exactly its own length to the longest common subsequence, so cutting it off loses nothing |
| `EditScripts.LcsSharedTail` | packages/shared/src/diff.ts:122-130 | the same for a shared tail |
| `EditScripts.LcsIsSymmetric` | packages/shared/src/diff.ts:138-146 | the length does not depend on which side comes first |
| `EditScripts.ScriptIsOptimal` | packages/shared/src/diff.ts:109-170 | trimming and walking together lose nothing: the script keeps exactly the length of the longest common subsequence of the whole lists, or nothing past the size limit |
| `EditScripts.ScriptKeepsLongest` | packages/shared/src/diff.ts:109-170 | what is kept is common to both sides and nothing common is longer |
| `EditScripts.ScriptIsMinimal` | packages/shared/src/diff.ts:109-170 | no other script between the two lists has fewer additions and removals |
| `EditScripts.NoChangesIffEqual` | packages/shared/src/diff.ts:109-170 | the script changes nothing exactly for equal lists within the limit (or two empty ones); equal lists past the limit are replaced line for line |
| `EditScripts.ScriptRemovesFirst` | packages/shared/src/diff.ts:148-169 | no insertion stands directly before a removal: between two kept lines the old ones come first, and past the limit all of one side does |
| `UnifiedDiff.GroupChanges` | packages/shared/src/diff.ts:185-193 | the grouping loop computes the groups `GroupsShape` describes |
| `UnifiedDiff.GroupsShape` | packages/shared/src/diff.ts:185-193 | groups are more than six ops apart, start and end at changes, together hold every change, and hold no op that is not near one |
| `UnifiedDiff.CountSides` | packages/shared/src/diff.ts:200-207 | the running line numbers are the true 1-based ones of each side |
| `UnifiedDiff.PrintGroup` | packages/shared/src/diff.ts:197-246 | one round of the loop: a hunk printed whole, a hunk cut to the room left, or no room; in each case what was printed is what the plan says |
| `UnifiedDiff.ToHunks` | packages/shared/src/diff.ts:179-257 | the loops print exactly the plan: the headers, the ops of each window in order, and the notice when something was cut |
| `UnifiedDiff.PlanIsSound` | packages/shared/src/diff.ts:194-246 | windows lie inside the script, disjoint and increasing; they hold only ops within three of a change; uncut they hold all of those, cut they hold the first of them |
| `UnifiedDiff.ShowsThreeLinesAround` | packages/shared/src/diff.ts:194-246 | an uncut patch shows exactly the ops at most three away from a change, the change included |
| `UnifiedDiff.SizeIsBounded` | packages/shared/src/diff.ts:224-255 | the output, notice included, is at most `maxLines` lines exactly when `maxLines` is at least 1 (or 0 with nothing to print) |
| `UnifiedDiff.CutOnlyWhenItMust` | packages/shared/src/diff.ts:211-255 | a patch is cut exactly when the whole one has at least `maxLines` lines, so none is left for a notice; and a cut one fills the budget but for at most one line |
| `UnifiedDiff.SomeBudgetIsEnough` | packages/shared/src/diff.ts:211-255 | every script has a budget that cuts nothing |
| `UnifiedDiff.Unified` | packages/shared/src/diff.ts:266-272 | the patch; within the size limit it is empty exactly for equal line lists |
| `UnifiedDiff.PatchIsEmptyIffEqual` | packages/shared/src/diff.ts:259-272 | for all texts, the patch is empty if and only if the line lists are equal and at most 2000 long |
| `UnifiedDiff.ChangedLineRatio` | packages/shared/src/diff.ts:284-299 | computed from the ops the script keeps, the ratio is the share of the longer side outside the longest common subsequence |
| `UnifiedDiff.RatioIsBounded` | packages/shared/src/diff.ts:274-299 | the ratio is in [0,1] before any clamp, symmetric, and 0 exactly for equal line lists of at most 2000 lines |
| `UnifiedDiff.RatioCountsTheUncommon` | packages/shared/src/diff.ts:284-299 | times the longer side it is the number of lines any longest common subsequence leaves out; past 2000 lines it is 1 |
| `UnifiedDiff.LinesAreSingle` | packages/shared/src/diff.ts:87-97 | no line contains a line break, whatever the text |
| `UnifiedDiff.LinesAreTheText` | packages/shared/src/diff.ts:87-97 | a text is its lines joined by line breaks, and one more at the end if it ends in one: the final line is dropped only when it is empty |
| `UnifiedDiff.FoldsEachBreak` | packages/shared/src/diff.ts:89-89 | a carriage return and line feed become one line feed, wherever they stand |
| `UnifiedDiff.FoldsNothingElse` | packages/shared/src/diff.ts:89-89 | a text without such a pair is left as it is |
| `DiffReader.ParseDiff` | packages/shared/src/diff.ts:27-74 | the loop with its two counters reads each line as the reading function does |
| `DiffReader.ReadsHeader` | packages/shared/src/diff.ts:33-37 | the header pattern recovers the four numbers the writer printed |
| `DiffReader.ReadsEveryHeader` | packages/shared/src/diff.ts:33-37 | every text of the form `@@ -digits[,digits] +digits[,digits] @@...` reads as the numbers it denotes, the counts present or not, whatever follows |
| `DiffReader.ReadsOnlyHeaders` | packages/shared/src/diff.ts:33-37 | and nothing else reads as a header |
| `DiffReader.ReadsMetadata` | packages/shared/src/diff.ts:42-63 | each of the eight prefixes of file metadata, and a backslash, makes a line metadata, shown whole, and moves neither number |
| `DiffReader.ReadsTheRest` | packages/shared/src/diff.ts:32-71 | any other line is a header, an addition, a removal or context by its first character; a header that cannot be read starts both numbers at 0 |
| `DiffReader.ReadsWhatWasWritten` | packages/shared/src/diff.ts:27-74 | reading a printed patch gives back the emitted ops in order, each under its own numbers, if and only if no printed line looks like file metadata |
| `DiffReader.NumbersAreTrue` | packages/shared/src/diff.ts:201-207 | each number names the line of its side with exactly that text |
| `DiffReader.HeaderCountsWhatFollows` | packages/shared/src/diff.ts:230-241 | the header, read back, has the true starting numbers and counts exactly the lines of each side that follow, whether or not the hunk was cut |
| `DiffReader.NoticeIsContext` | packages/shared/src/diff.ts:248-255 | the truncation notice is read as a line of context, the only one that is no op |
| `PatchApplication.PatchReproducesAfter` | packages/shared/src/diff.ts:27-272 | for any two texts and any budget: an uncut, readable patch, printed, parsed and applied to the old lines, yields the new lines |
| `PatchApplication.ApplyHunks` | packages/shared/src/diff.ts:179-257 | hunks that cover every change, applied in turn from wherever the old side stands, finish the new side |
| `PatchApplication.CutShowsAtTheEnd` | packages/shared/src/diff.ts:248-255 | the patch was cut exactly when its last line is the notice; no line of content can be mistaken for it |
| `PatchApplication.PlainTextsAreReadable` | packages/shared/src/diff.ts:42-51 | texts in which no old line starts with `-- ` and no new line with `++ ` always give readable patches |
| `PatchApplication.RemovedDashesAreLost` | packages/shared/src/diff.ts:42-51 | for every line that starts with `-- `: the patch that removes it, printed and read back, is a hunk without a removed line, and the line is metadata |
| `RunLifecycle.ReachableIsSound` | apps/api/src/kernel/kernel.ts:356-432 | every state that any interleaving of the steps reaches satisfies the whole invariant |
| `RunLifecycle.TracesStaySound` | apps/api/src/kernel/kernel.ts:991-1041 | the same from any sound state, over any legal trace |
| `RunLifecycle.OneRunPerSession` | apps/api/src/kernel/kernel.ts:365-375 | a session never has two live runs (classifying, queued, granted or active), nor a live run beside a submission |
| `RunLifecycle.ReservedIsExact` | apps/api/src/kernel/kernel.ts:1618-1625 | `reserved` is exactly the sessions with a submission under way or a live run, across failure, cancellation, throws and shutdown; so `hasActiveRunForSession` answers what its name says |
| `StepEffects.BusyExactly` | apps/api/src/kernel/kernel.ts:356-432 | after any step a session is busy exactly when the step claimed it, or it was busy and the step was not the failure of its submission or the end of its run: sessions are given back, and only then |
| `StepEffects.RowsStay` | apps/api/src/kernel/kernel.ts:385-400 | a run belongs to the session it was submitted in, for good |
| `StepEffects.RunsMoveForward` | apps/api/src/kernel/kernel.ts:991-1085 | for each run and each step, where the run stands next: it leaves the queue only as its head, woken by a release, or rejected by a shutdown or an interruption of its own session; from then on only its own steps move it |
| `StepEffects.NewRunStands` | apps/api/src/kernel/kernel.ts:1043-1049 | an admitted run is queued, last, exactly when all slots are taken, and else granted; a refused one is over |
| `StepEffects.NoOtherRunAppears` | apps/api/src/kernel/kernel.ts:385-425 | no other step brings a run into being |
| `StepEffects.QueueMovesOnlyBy` | apps/api/src/kernel/kernel.ts:1043-1054 | the queue after each step: a release takes its head, a shutdown all of it, an admission adds one at the end, and interruptions aside nothing else touches it |
| `StepEffects.InterruptTakesTheFirst` | apps/api/src/kernel/kernel.ts:1528-1564 | an interruption takes exactly the session's first queued run out and rejects it; the others keep their order, none of the session is left, and nothing changes when none of it is queued |
| `StepEffects.ReleaseWakesTheHead` | apps/api/src/kernel/kernel.ts:1035-1054 | a release completes its run, frees the session, and grants the head of the queue, if there is one |
| `StepEffects.ShutDownEmptiesTheQueue` | apps/api/src/kernel/kernel.ts:1635-1641 | a shutdown leaves the queue empty and every run that was in it rejected |
| `StepEffects.ShutDownIsFinal` | apps/api/src/kernel/kernel.ts:1635-1641 | over any continuation submission stays closed and no further session is claimed |
| `StepEffects.ClosedStep` | apps/api/src/kernel/kernel.ts:356-364 | only a shutdown closes submission |
| `StepEffects.TextIsTheStash` | apps/api/src/kernel/kernel.ts:1371-1377 | what a waiting caller is owed is what the run stashed while it was awaited, and no other step changes it |
| `SlotCap.HoldersCount` | apps/api/src/kernel/kernel.ts:1043-1054 | one more run holds a slot only after an admission that found one free, and one fewer only after a release that found nobody waiting |
| `SlotCap.CapHoldsIffGrantsCount` | apps/api/src/kernel/kernel.ts:1043-1049 | over any trace at most the cap hold a slot if and only if every admission that finds fewer runs active than the cap also finds fewer runs holding a slot |
| `SlotCap.ActiveHold` | apps/api/src/kernel/kernel.ts:1060-1073 | every active run holds a slot, so such a trace never has more active runs than the cap |
| `SlotCap.CapIsExceeded` | apps/api/src/kernel/kernel.ts:1043-1073 | not every trace is of that kind: two runs admitted before the first has started are both active under a cap of 1 |
| `RunLifecycle.NoWakeUpIsLost` | apps/api/src/kernel/kernel.ts:1043-1054 | while a run is queued some run still owes a release that will wake the queue |
| `RunLifecycle.ReleasesAreExact` | apps/api/src/kernel/kernel.ts:1006-1041 | a run releases its slot exactly when it has completed, and never twice |
| `RunLifecycle.DroppedStaysOut` | apps/api/src/kernel/kernel.ts:1551-1562 | a run rejected from the queue never holds a slot, never executes and never releases, in any continuation |
| `RunLifecycle.QueueIsFifo` | apps/api/src/kernel/kernel.ts:1043-1054 | among runs that queued, one is woken only after every earlier arrival was woken or dropped |
| `RunLifecycle.AwaitedAnswerArrives` | apps/api/src/kernel/kernel.ts:697-718 | a run that ended and was asked about once handed over its own text exactly once, or discarded it exactly because the wait ran out; none of the four maps and sets mentions it any more |
| `RunLifecycle.NobodyWaitsForAnEndedRun` | apps/api/src/kernel/kernel.ts:1074-1111 | however often a run is waited on, at most one answer is ever delivered; and a settled run that was asked about at most once has no waiter |
| `RunLifecycle.AwaitedMarkLeaks` | apps/api/src/kernel/kernel.ts:398-431 | the awaited mark of a run that is no longer live stays behind if and only if its submission failed after the mark was set |
| `RunLifecycle.MarkStaysBehind` | apps/api/src/kernel/kernel.ts:398-431 | and such a state is reached: a submission that is awaited and fails once its row exists leaves the mark and nothing else |
| `RunLifecycle.InternalStepProgresses` | apps/api/src/kernel/kernel.ts:991-1041 | every step the kernel takes by itself uses up some of the remaining work |
| `RunLifecycle.NoRunIsStranded` | apps/api/src/kernel/kernel.ts:991-1054 | while any run is live some internal step is possible, so every run ends once its awaits do |
| `RunLifecycle.InternalTracesAreBounded` | apps/api/src/kernel/kernel.ts:991-1041 | no sequence of internal steps is longer than the work there is |
| `RunLifecycle.QueueForms` | apps/api/src/kernel/kernel.ts:1043-1054 | such states are reached: under a cap of one a second run queues behind the first, the first one's waiting caller gets its text, and its release wakes the second |
| `SlotQueue.BeginKeeps` | apps/api/src/kernel/kernel.ts:365-375 | claiming a session keeps the invariant of the slots |
| `SlotQueue.RefuseKeeps` | apps/api/src/kernel/kernel.ts:400-431 | so does a submission that fails after its row exists |
| `SlotQueue.AdmitKeeps` | apps/api/src/kernel/kernel.ts:1043-1049 | so does admission, granted at once or queued |
| `SlotQueue.ReleaseKeeps` | apps/api/src/kernel/kernel.ts:1035-1054 | so does a release, which wakes the head of the queue |
| `SlotQueue.ClearKeeps` | apps/api/src/kernel/kernel.ts:1009-1034 | so does a run rejected from the queue |
| `SlotQueue.InterruptKeeps` | apps/api/src/kernel/kernel.ts:1528-1564 | so does an interruption, of an active or of a queued run |
| `SlotQueue.ShutdownKeeps` | apps/api/src/kernel/kernel.ts:1635-1641 | so does shutdown, which rejects the whole queue |
| `DelegationDesk.ExchangeIsComplete` | apps/api/src/kernel/kernel.ts:697-718 | settled and asked for, a run has delivered its final text once or, timed out, discarded it; nothing of the exchange is kept |
| `DelegationDesk.AnswerIsNeverLost` | apps/api/src/kernel/kernel.ts:1087-1111 | no run is answered twice; and while a run is asked about at most once its answer is stashed, still to come, or awaited by a registered waiter |
| `DelegationDesk.SecondWaitHangs` | apps/api/src/kernel/kernel.ts:697-718 | a second wait on a finished exchange registers a waiter that settling never answers |
| `DelegationDesk.ReplacedClockStillRuns` | apps/api/src/kernel/kernel.ts:706-716 | a second wait before the run settles is the one answered; the clock of the first still runs afterwards and, when it runs out, marks the run abandoned for good |
| `KernelObject.Kernel.HasActiveRunForSession` | apps/api/src/kernel/kernel.ts:1618-1625 | the three tests agree with the reservation set alone |
| `KernelObject.Kernel.FindQueued` | apps/api/src/kernel/kernel.ts:1551-1552 | the search finds the first queued run of the session |
| `KernelObject.Kernel.BeginSubmit` | apps/api/src/kernel/kernel.ts:356-375 | the first half of `submit`: the session is claimed exactly when it was free and the kernel is not shutting down |
| `KernelObject.Kernel.FailSubmit` | apps/api/src/kernel/kernel.ts:426-430 | a submission that fails before its row exists gives the session back |
| `KernelObject.Kernel.RefuseSubmit` | apps/api/src/kernel/kernel.ts:385-430 | a submission that fails once its row exists, as when its attachments do not bind: the session is given back, the awaited mark is not |
| `KernelObject.Kernel.AdmitRun` | apps/api/src/kernel/kernel.ts:385-425 | the rest of `submit` up to the slot: granted exactly when fewer runs are active than the cap, otherwise last in the queue |
| `KernelObject.Kernel.StartRun` | apps/api/src/kernel/kernel.ts:1060-1073 | a granted run becomes active |
| `KernelObject.Kernel.StashRun` | apps/api/src/kernel/kernel.ts:1371-1377 | the final text of a run still marked awaited is stashed, not yet ready to be taken |
| `KernelObject.Kernel.SettleDelegation` | apps/api/src/kernel/kernel.ts:1087-1111 | a waiter is answered or the stash becomes ready; the returned answer is the one delivery the log records |
| `KernelObject.Kernel.FinishRun` | apps/api/src/kernel/kernel.ts:1074-1084 | the run leaves `active` and is settled |
| `KernelObject.Kernel.ReleaseRun` | apps/api/src/kernel/kernel.ts:1035-1054 | the session is freed and the head of the queue is woken |
| `KernelObject.Kernel.ClearRun` | apps/api/src/kernel/kernel.ts:1009-1034 | a run rejected from the queue frees its session and is settled |
| `KernelObject.Kernel.Interrupt` | apps/api/src/kernel/kernel.ts:1528-1564 | stops the active run or takes exactly the first queued run of the session out of the queue, and reports whether there was either |
| `KernelObject.Kernel.ShutDownNow` | apps/api/src/kernel/kernel.ts:1635-1641 | no further submissions; every queued run is rejected |
| `KernelObject.Kernel.WaitForDelegation` | apps/api/src/kernel/kernel.ts:697-718 | takes a ready stash or registers a waiter, for any run and any number of times |
| `KernelObject.Kernel.TimeOutDelegation` | apps/api/src/kernel/kernel.ts:706-710 | a clock that runs out, whether or not its waiter was replaced, removes whatever waiter there is and marks the run abandoned |
| `Splitter.SplitLong` | apps/api/src/learning/chunker.ts:98-147 | the pieces of a paragraph hold its words at their true offsets, in order, and are at most 1600 characters; a short paragraph is one piece; a longer one is cut after sentences alone, each piece taking in as many as fit, and only a sentence over the ceiling is cut further |
| `Splitter.SentencesEndThere` | apps/api/src/learning/chunker.ts:106-106 | the cuts are exactly the white space after `.`, `!`, `?`, an ellipsis or a closing guillemet: a sentence ends at one and holds none |
| `Splitter.UnitsAreWhole` | apps/api/src/learning/chunker.ts:106-125 | every unit runs from its start to the next separator |
| `Splitter.Locate` | apps/api/src/learning/chunker.ts:82-90 | the loop computes what `LocateIsTrue` is about |
| `Splitter.LocateIsTrue` | apps/api/src/learning/chunker.ts:73-90 | for units cut from the source in order, every search succeeds and every offset is the true one, repeated units included; the fallback is never taken |
| `Splitter.FirstMeeting` | apps/api/src/learning/chunker.ts:85-86 | a search from a cursor behind which only white space lies meets the unit where it was cut |
| `Splitter.UnitsCover` | apps/api/src/learning/chunker.ts:106-125 | cutting a trimmed text at sentence ends or at white space loses only white space |
| `Splitter.MergedHasWords` | apps/api/src/learning/chunker.ts:110-118 | two units joined by a space have the words of the stretch from the first to the second, none run together |
| `Splitter.PackSentences` | apps/api/src/learning/chunker.ts:106-119 | sentences packed under the ceiling still cover the paragraph, cut only at sentence ends, and no piece had room for the sentence its successor starts with; only a single sentence may exceed the ceiling |
| `Splitter.PackWords` | apps/api/src/learning/chunker.ts:123-146 | an oversized piece cut by words, and an oversized word cut raw, is covered by pieces under the ceiling, none of which had room for the word its successor starts with |
| `Splitter.SliceRaw` | apps/api/src/learning/chunker.ts:139-142 | the raw slicing loop leaves nothing out and ends with a remainder that fits |
| `Chunker.TailIsTheEnd` | apps/api/src/learning/chunker.ts:65-71 | what is carried over is the end of the chunk: all of it up to 150 characters, and of a longer one the last 150 from behind the first white space in them, or all 150 if they hold none |
| `Chunker.TailIsNotEmpty` | apps/api/src/learning/chunker.ts:65-71 | and never empty for a chunk |
| `Chunker.SeamIsTheTail` | apps/api/src/learning/chunker.ts:173-173 | a chunk opens with an ellipsis, its predecessor's tail and a blank line, unless it is the first or a heading lies between the two |
| `Chunker.FoldsEachReturn` | apps/api/src/learning/chunker.ts:153-153 | each carriage return becomes a line feed, together with the line feed behind it |
| `Chunker.FoldsReturnsOnly` | apps/api/src/learning/chunker.ts:153-153 | nothing else changes, and no carriage return is left |
| `Chunker.TitleIsTheRest` | apps/api/src/learning/chunker.ts:63-63 | one to six hashes, white space and the rest of one line read as a heading whose title is the trimmed rest |
| `Chunker.OnlyThatIsAHeading` | apps/api/src/learning/chunker.ts:63-63 | and no other line reads as a heading |
| `Chunker.TitleIsNearest` | apps/api/src/learning/chunker.ts:196-199 | a chunk is labelled with the last heading that starts before it |
| `Chunker.NoTitleAbove` | apps/api/src/learning/chunker.ts:157-158 | and with none where there is no heading above |
| `Chunker.HeadsAscend` | apps/api/src/learning/chunker.ts:183-200 | headings are met in the order they stand in |
| `Chunker.ChunkDocument` | apps/api/src/learning/chunker.ts:149-237 | spans are ordered, disjoint and inside the normalised text; every character that is not white space or heading is in exactly one of them; each chunk, its seam (the previous chunk's tail, never across a heading) taken off, says what its span says up to white space, is at most 1754 characters, is numbered in order and labelled with the nearest heading above; and a chunk that is not the first below a heading was started only because its first piece had no room in the chunk before it |
| `Chunker.HeadsAreReal` | apps/api/src/learning/chunker.ts:194-200 | each heading left out is a whole line, the first of a block, and reads as a heading of that title |
| `Chunker.NoHeadIsMissed` | apps/api/src/learning/chunker.ts:183-200 | every block whose first line reads as a heading has its heading left out |
| `Chunker.ChunkPacker.Flush` | apps/api/src/learning/chunker.ts:164-178 | `flush` on the six mutable variables equals the value-level step |
| `Chunker.ChunkPacker.Pack` | apps/api/src/learning/chunker.ts:218-236 | `pack` equals the value-level step |
| `Chunker.ChunkPacker.PackAll` | apps/api/src/learning/chunker.ts:205-208 | packing all pieces of a paragraph carries the invariant to its end |
| `Chunker.ChunkPacker.AddParagraph` | apps/api/src/learning/chunker.ts:191-210 | a paragraph, heading or not, carries the invariant past itself |
| `Chunker.ChunkPacker.AddRest` | apps/api/src/learning/chunker.ts:200-206 | so does the text below a heading line |
| `Chunker.ChunkPacker.AddNext` | apps/api/src/learning/chunker.ts:185-214 | so does one round of the loop |
| `Chunker.FlushKeeps` | apps/api/src/learning/chunker.ts:164-178 | closing a chunk keeps coverage, order, seams, labels and sizes |
| `Chunker.PackKeeps` | apps/api/src/learning/chunker.ts:218-236 | so does packing a piece, whether it extends the chunk or opens the next behind a seam |
| `Chunker.TitleKeeps` | apps/api/src/learning/chunker.ts:196-199 | so does starting a section |
| `Chunker.PackFills` | apps/api/src/learning/chunker.ts:219-219 | the length of the chunk that was closed, the first piece of the next and the 4 characters the count adds exceed the target |
| `WatchPath.Watch` | packages/shared/src/domain.ts:932-948 | the walk ends on every finite graph and returns a path along real edges from a start to the target if and only if there is one; the path is that of the recursive walk |
| `WatchPath.WalkPassesTargetBy` | packages/shared/src/domain.ts:932-948 | at every point of the walk: with any other sources of the target it goes on the same way to the same path |
| `WatchPath.TargetsOwnSourcesDoNotMatter` | packages/shared/src/domain.ts:932-948 | whatever the target's own sources, the same path is returned, or none |
| `WatchPath.NewSourcesStayAcyclic` | apps/api/src/services/scheduler.ts:630-648 | in a graph without loops, giving a node new sources leaves it without loops if and only if the walk finds nothing |
| `PolicyLearner.HistoriesAreExact` | apps/api/src/learning/bandit.ts:266-455 | after any history of updates, revisions that name the reward last applied, resets and openings of rows, every stored row is its prior plus the rewards now in force, with exact means |
| `PolicyLearner.ForgettingIsExact` | apps/api/src/learning/bandit.ts:391-398 | a reset by itself keeps that: the rows it deletes open anew at their priors, and the others are untouched |
| `PolicyLearner.UpdateIsExact` | apps/api/src/learning/bandit.ts:266-303 | a first observation keeps that |
| `PolicyLearner.RevisionIsExact` | apps/api/src/learning/bandit.ts:309-345 | so does such a revision, and the clamps of `revise` change no value |
| `PolicyLearner.OnlyHonestRevisionsAreExact` | apps/api/src/learning/bandit.ts:309-345 | a revision is exact if and only if it names the reward in force |
| `PolicyLearner.BeliefIsWorthItsTrials` | apps/api/src/learning/bandit.ts:266-303 | `alpha + beta` is six plus the number of trials, both stay proper, and the stored means are the averages |
| `PolicyLearner.OrderDoesNotMatter` | apps/api/src/learning/bandit.ts:266-345 | two histories that leave the same runs with the same rewards leave the same posterior |
| `PolicyLearner.PriorIsProper` | apps/api/src/learning/bandit.ts:162-189 | every arm, listed or not, opens with a proper belief worth exactly six |
| `RewardOrder.OpeningPrices` | apps/api/src/learning/bandit.ts:105-190 | what the prior takes an ordinary success to cost and to last, for each arm of the frontier |
| `RewardOrder.CheaperOpensHigher` | apps/api/src/learning/bandit.ts:136-190 | an arm whose ordinary success is cheaper or faster, and in neither worse, opens higher |
| `RewardOrder.ModelsAreOrdered` | apps/api/src/learning/bandit.ts:105-112 | at each effort level Haiku opens above Sonnet, Sonnet above Opus and Opus above Fable |
| `RewardOrder.EffortsAreOrdered` | apps/api/src/learning/bandit.ts:125-131 | on each model a lower effort opens higher |
| `RewardOrder.OpenEffortIsHigh` | apps/api/src/learning/bandit.ts:164-167 | an effort left open is priced as high, and on Haiku as what it is |
| `RewardOrder.UnlistedIsOpus` | apps/api/src/learning/bandit.ts:105-112 | a model the table does not name opens as Opus does |
| `PolicyLearner.CorrectionStopsAtThePrior` | apps/api/src/learning/bandit.ts:325-345 | a correction moves the row by the difference of the two rewards, as far as the prior of its arm and no further |
| `PolicyLearner.BeliefsStayAbovePrior` | apps/api/src/learning/bandit.ts:266-345 | whatever is reported and in whatever order, no row falls below the prior of its arm, so a belief can always be drawn from |
| `PolicyLearner.RewardIsUnclamped` | apps/api/src/learning/bandit.ts:480-509 | for non-negative cost and duration the outer clamp never cuts, the reward is in (0,1], and a rating overrides status, limits and tool errors |
| `RewardOrder.RatingsPay` | apps/api/src/learning/bandit.ts:483-486 | a better rating scores higher, in proportion; from worst to best the reward rises by 0.72 |
| `RewardOrder.UnratedScores` | apps/api/src/learning/bandit.ts:486-500 | without a rating a failed run scores as one rated -0.9, an interrupted one as -0.2, and a clean success as 0.6 |
| `RewardOrder.StatusesAreOrdered` | apps/api/src/learning/bandit.ts:486-500 | other things equal, failed scores below interrupted and that below any success that hit no limit |
| `RewardOrder.SuccessesLose` | apps/api/src/learning/bandit.ts:492-500 | a limit takes 0.18 from a success and each of the first five tool errors 0.0288 |
| `RewardOrder.QualityDecides` | apps/api/src/learning/bandit.ts:472-477 | no saving in money or time lifts a failed or interrupted run above a clean success |
| `RewardOrder.ThriftPays` | apps/api/src/learning/bandit.ts:503-508 | of two runs of the same quality one that is cheaper or faster, and in neither worse, scores higher |
| `RewardOrder.NothingSpent` | apps/api/src/learning/bandit.ts:503-510 | a free and instant run scores 1 when rated best and 0.28 when rated worst |
| `RewardOrder.TwoMinutesAreHalf` | apps/api/src/learning/bandit.ts:507-508 | two minutes cost half of what time can |
| `PolicyLearner.FeedbackIsExact` | apps/api/src/kernel/kernel.ts:1481-1516 | over every history of reports, ratings, switched settings, resets and openings: the stored rows are exact at every moment if and only if each run is learned from once and each rating that is passed on finds on the run's row the reward last passed on and not reset since (or none on either side) |
| `PolicyLearner.FeedbackStepIsExact` | apps/api/src/kernel/kernel.ts:1481-1516 | from exact rows one report keeps them exact if and only if it is a first observation of a run the learner does not hold or a correction that names what it holds |
| `PolicyLearner.InStepFollowsTold` | apps/api/src/kernel/kernel.ts:1413-1516 | reports that meet the condition leave exactly the rows and rewards of the events the learner should see |
| `PolicyLearner.SteadyFeedbackIsExact` | apps/api/src/kernel/kernel.ts:1481-1516 | in particular, while a workspace's learning setting does not change between a run and its ratings and what the run taught is not reset before the last of them |
| `PolicyLearner.SwitchingOnSkews` | apps/api/src/kernel/kernel.ts:1413-1430 | switched on between a run and its rating, the setting has a row revised for a reward it never held, which no history explains |
| `PolicyLearner.SwitchingBackSkews` | apps/api/src/kernel/kernel.ts:1503-1516 | switched off for one rating and on for the next, it leaves the row exact if and only if the rating in between changed nothing |
| `PolicyLearner.ResettingSkews` | apps/api/src/learning/bandit.ts:309-345 | a reset between a run and its rating, the setting on all along, has the rating folded into a row without trials, which no history explains; and a better rating leaves the row worth more than six, because the floor of the correction takes effect |
| `PolicyLearner.Learner.FindOrCreate` | apps/api/src/learning/bandit.ts:420-455 | a missing row is created at its prior, an existing one is returned as it is |
| `PolicyLearner.Learner.Update` | apps/api/src/learning/bandit.ts:266-303 | the stored row after `update` |
| `PolicyLearner.Learner.Revise` | apps/api/src/learning/bandit.ts:309-345 | the stored row after `revise` |
| `PolicyLearner.Learner.Reset` | apps/api/src/learning/bandit.ts:391-398 | exactly the rows of the workspace, or of its category if one is named, are gone, and the answer is how many |
| `PolicyLearner.ResetIsScoped` | apps/api/src/learning/bandit.ts:391-398 | a reset touches one workspace, and within it one category if a non-empty one is named |
| `EventBus.Bus.Replay` | apps/api/src/kernel/bus.ts:91-99 | whatever was swept or evicted, a replay returns exactly the topic's newest 256 non-delta frames of the whole history that lie past the cursor and are at most 60 seconds old, in order |
| `EventBus.Bus.Publish` | apps/api/src/kernel/bus.ts:56-70 | numbers count publications, the frame goes to the listeners of its topic, and the buffers stay faithful to the history |
| `EventBus.Bus.Remember` | apps/api/src/kernel/bus.ts:72-83 | deltas are not kept; of the rest the newest 256 are |
| `EventBus.Bus.Sweep` | apps/api/src/kernel/bus.ts:106-116 | a sweep drops exactly the frames that are too old and the empty buffers without listeners |
| `EventBus.Bus.Subscribe` | apps/api/src/kernel/bus.ts:35-42 | adds the listener to its topic alone |
| `EventBus.Bus.Unsubscribe` | apps/api/src/kernel/bus.ts:44-49 | removes it, and the topic with its last listener |
| `EventBus.RefinedReplay` | apps/api/src/kernel/bus.ts:91-99 | a buffer that lacks only frames already too old answers every replay as the full history would |
| `EventBus.FramesAreTheTopics` | apps/api/src/kernel/bus.ts:72-83 | the frames a topic may replay are the entries published on it that are no deltas, and no others |
| `EventBus.NewestAreTheLast` | apps/api/src/kernel/bus.ts:82-82 | of them the last 256, or all when there are fewer |
| `EventBus.LiveAreTheTopics` | apps/api/src/kernel/bus.ts:56-70 | a listener of some topics is handed the entries published on them, deltas included, and no others |
| `EventBus.PublishKeeps` | apps/api/src/kernel/bus.ts:56-83 | publishing keeps every buffer faithful |
| `EventBus.SweepKeeps` | apps/api/src/kernel/bus.ts:106-116 | so does sweeping |
| `EventBus.KeptIsSuffix` | apps/api/src/kernel/bus.ts:109-109 | with a clock that does not go back, filtering by age drops a prefix |
| `EventBus.ReconnectIsSeamless` | apps/api/src/kernel/bus.ts:56-99 | a client that has a replay and then listens sees strictly increasing numbers: of its topic every later frame, deltas included, and of the earlier ones exactly those in the window and past its cursor |
| `EventBus.Subscriptions` | apps/api/src/routes/ws.ts:168-197 | for each topic a socket does not hold yet, up to 64: the replay the history owes, then its listener |
| `EventBus.NewTopicsAreServed` | apps/api/src/routes/ws.ts:175-191 | a socket takes up the topics it does not hold, each once and in the order asked for, and leaves one out only when it holds 64 |
| `EventBus.Reconnect` | apps/api/src/routes/ws.ts:168-197 | the replays of all topics of a client that reconnects, and then every frame published on any of them, in publication order |
| `EventBus.ReplaysRiseIffInTurn` | apps/api/src/routes/ws.ts:168-197 | the replays of several topics under one cursor come in publication order if and only if the frames owed on each topic precede those owed on the later ones |
| `EventBus.CutsLoseNothingIffRising` | apps/web/src/lib/socket.ts:97-113 | a client that keeps the highest number it saw and is cut off anywhere in the replays is still owed all the rest if and only if the replays are in publication order |
| `EventBus.CutBetweenTopicsLoses` | apps/web/src/lib/socket.ts:97-113 | two topics whose frames alternate: cut off between their replays, the client is never sent the earlier frame |
| `EventBus.Hear` | apps/api/src/kernel/bus.ts:56-70 | a publication reaches a listener exactly when it is of one of the topics it holds, under the next number |
| `PermissionBroker.Broker.Ask` | apps/api/src/kernel/permissions.ts:102-189 | a decision that stands answers at once; otherwise an aborted run is denied and settled, and any other prompt waits |
| `PermissionBroker.Broker.Decline` | apps/api/src/kernel/permissions.ts:143-165 | time-out and abort settle a waiting prompt as denied and leave a settled one alone |
| `PermissionBroker.Broker.Resolve` | apps/api/src/kernel/permissions.ts:192-232 | an answer settles a waiting prompt once; it is remembered only as asked, and never as an approval of a high-risk call |
| `PermissionBroker.Broker.CancelRun` | apps/api/src/kernel/permissions.ts:241-247 | every prompt of the run is denied, none of another run, and nothing is remembered |
| `PermissionBroker.Broker.ClearSessionGrants` | apps/api/src/kernel/permissions.ts:250-254 | exactly the grants under the session's prefix are forgotten |
| `PermissionBroker.SettlingKeepsBalance` | apps/api/src/kernel/permissions.ts:134-142 | every prompt ever raised is waiting or was settled exactly once, under any order of answers, time-outs, aborts and cancellations |
| `PermissionBroker.SettlingKeepsGrants` | apps/api/src/kernel/permissions.ts:201-211 | the map of grants holds, for every scope without colons in its names, the decision last remembered for that very scope |
| `PermissionBroker.ForgettingKeepsGrants` | apps/api/src/kernel/permissions.ts:250-254 | and still does after a session's grants are cleared |
| `PermissionBroker.DecisionsWereMade` | apps/api/src/kernel/permissions.ts:192-211 | a decision that stands was made by an operator on a prompt of the same session, tool, risk and leading word, was not overridden or forgotten since, and allows nothing of high risk |
| `PermissionBroker.KeysAgree` | apps/api/src/kernel/permissions.ts:61-82 | without colons in session ids and tool names, two calls have the same key if and only if they agree in session, tool, risk and leading word |
| `PermissionBroker.KeysKeepSessions` | apps/api/src/kernel/permissions.ts:61-82 | without colons in session ids alone, calls with the same key are of the same session, whatever the tools are called |
| `PermissionBroker.GrantsStayInSession` | apps/api/src/kernel/permissions.ts:192-211 | a remembered answer that is found for a call was given to a prompt of the call's own session |
| `PermissionBroker.SettlingKeepsSources` | apps/api/src/kernel/permissions.ts:201-211 | every grant, whatever its names, was remembered from an answer to a prompt with its key |
| `PermissionBroker.KeysCollide` | apps/api/src/kernel/permissions.ts:61-82 | a colon in a session id can make two sessions share a key, and one in a tool's name two tools and two risks of one session |
| `PermissionBroker.PrefixIsSession` | apps/api/src/kernel/permissions.ts:250-254 | where session ids hold no colon, a session's prefix is found on its own keys and no others |
| `PermissionBroker.VerbsArePlain` | apps/api/src/kernel/permissions.ts:67-79 | neither a leading word nor the mark for none contains a colon |
| `PermissionBroker.VerbIsTheLeadingWord` | apps/api/src/kernel/permissions.ts:78-78 | behind any white space, the whole run of admitted characters is the verb; where there is none it is the mark |
| `PermissionBroker.EveryCommandOpens` | apps/api/src/kernel/permissions.ts:78-78 | every command divides into such white space, word and rest |
| `PermissionBroker.OtherWordsAreOtherScopes` | apps/api/src/kernel/permissions.ts:61-82 | calls with different leading words are in different scopes, and under different keys where session and tool hold no colon |
| `PermissionBroker.SameWordIsSameScope` | apps/api/src/kernel/permissions.ts:61-82 | calls of one session, tool and risk with the same leading word are in one scope, whatever follows it |
| `RunCeilings.CapIsTheMost` | apps/api/src/kernel/permissions.ts:385-395 | the capped mode admits exactly what the ceiling admits and, if the workspace is itself unattended, the workspace too |
| `RunCeilings.CapsCompose` | apps/api/src/kernel/permissions.ts:385-395 | caps can be applied in any order, and twice is as good as once |
| `RunCeilings.UnattendedModesInOrder` | apps/api/src/kernel/permissions.ts:385-395 | plan is the least of the three unattended modes and accepting edits the most; every other mode takes the ceiling |
| `RunCeilings.CeilingTravels` | apps/api/src/kernel/kernel.ts:483-554 | in every forest of runs: what a run under a ceiling causes carries the same ceiling and an unattended mode within it; a delegated run causes nothing |
| `RunCeilings.Admissions.AdmitPeerRun` | apps/api/src/kernel/kernel.ts:506-554 | admitted exactly when the asker exists and was not itself delegated and the target exists and is another workspace; capped by the asker's ceiling if it has one |
| `RunCeilings.Admissions.StartForToken` | apps/api/src/kernel/kernel.ts:640-683 | a token's run carries its ceiling and the widest unattended mode under it |
| `RunCeilings.Admissions.Submit` | apps/api/src/kernel/kernel.ts:974-974 | an override decides the mode, then the session, then the workspace, and no ceiling is recorded |
| `RetrievalMetrics.NdcgAt` | apps/api/src/learning/eval.ts:95-108 | the two accumulating loops compute nDCG |
| `RetrievalMetrics.NdcgIsNormalised` | apps/api/src/learning/eval.ts:88-108 | for distinct results nDCG is in [0,1], and 1 exactly when the first min(k, number relevant) results are all relevant |
| `RetrievalMetrics.DcgIsBounded` | apps/api/src/learning/eval.ts:95-108 | however hits are placed they are worth at most as much as the same number of first places, and that much only there |
| `RetrievalMetrics.PromotionPays` | apps/api/src/learning/eval.ts:88-108 | promoting a relevant id past an irrelevant neighbour inside the top k strictly raises nDCG and leaves recall alone |
| `RetrievalMetrics.RecallIgnoresOrder` | apps/api/src/learning/eval.ts:69-74 | recall does not see the order of the top k nor anything below it |
| `RetrievalMetrics.FiguresVanishTogether` | apps/api/src/learning/eval.ts:69-108 | nDCG and recall are 0 exactly when nothing relevant is in the top k |
| `RetrievalMetrics.BoundHoldsIffHitsFit` | apps/api/src/learning/eval.ts:95-108 | for a ranking that may repeat ids: nDCG is at most 1 under every discount if and only if the hits in the top k number at most min(k, number relevant) |
| `RetrievalMetrics.DuplicatesBreakTheBound` | apps/api/src/learning/eval.ts:95-108 | a ranking that repeats an id can score above 1, whatever the discount |
| `RetrievalMetrics.ReciprocalRank` | apps/api/src/learning/eval.ts:83-87 | the inverse of the 1-based rank of the first relevant id, 0 when there is none |
| `RetrievalMetrics.RecallIsTheShare` | apps/api/src/learning/eval.ts:69-74 | recall is the share of the listed relevant ids that occur among the first k |
| `RetrievalMetrics.HitsAddTheirDiscount` | apps/api/src/learning/eval.ts:99-101 | one more hit adds the discount of its place, whatever the other hits are |
| `RetrievalMetrics.NoHitsNoGain` | apps/api/src/learning/eval.ts:98-101 | without hits the gain is nothing |
| `RetrievalMetrics.NdcgIsTheShare` | apps/api/src/learning/eval.ts:95-108 | nDCG is the gain of the first k over the gain of the best ranking of as many relevant ids |
| `SortableIds.EncodeTime` | packages/shared/src/ids.ts:66-75 | the loop produces the last ten base-32 digits, most significant first |
| `SortableIds.TimeRoundTrips` | packages/shared/src/ids.ts:77-80 | the time read back from a new id is the time it was made with if and only if that is a whole number of milliseconds from 0 up to 32 to the tenth |
| `SortableIds.IdTimestamp` | packages/shared/src/ids.ts:96-107 | the digits after the first underscore are read back, and a malformed id has no time |
| `SortableIds.IsId` | packages/shared/src/ids.ts:83-93 | accepts exactly the prefix followed by 22 characters of the alphabet |
| `SortableIds.IdsKnowTheirKind` | packages/shared/src/ids.ts:77-93 | a new id is accepted under its own prefix and under no other |
| `SortableIds.IdsSortByTime` | packages/shared/src/ids.ts:63-80 | ids of one kind made at different times are in the order of their times, whatever their random parts |
| `SortableIds.DigitsAreTrue` | packages/shared/src/ids.ts:66-75 | read as a number, the digits are the time modulo 32 to the length |
| `SortableIds.BytesShow` | packages/shared/src/ids.ts:52-61 | each random character shows the last five bits of its byte |
| `SortableIds.AlphabetIsPlain` | packages/shared/src/ids.ts:11-11 | the alphabet is the figures and the capitals but I, L, O and U |
| `SortableIds.BodyFollows` | packages/shared/src/ids.ts:96-97 | what follows the first underscore is the body, and all of an id without one |
| `SortableIds.TenDigits` | packages/shared/src/ids.ts:66-75 | ten digits tell 1125899906842624 milliseconds apart |
| `PromptBlocks.Select` | apps/api/src/kernel/context.ts:39-68 | the counted size of a block is its real size and within the budget; the same loop serves recalled notes, conventions and passages |
| `PromptBlocks.FillIsGreedy` | apps/api/src/kernel/context.ts:39-68 | an entry is in exactly when it fitted beside the better ones that are, and nothing left out would still fit |
| `PromptBlocks.BlockIsCounted` | apps/api/src/kernel/context.ts:105-123 | header, entries and the blank lines between them add up to what was counted |
| `PromptBlocks.SelectDirectory` | apps/api/src/kernel/context.ts:373-417 | the directory shows the largest number of names that fits, in order, and stays within the budget with its descriptions |
| `PromptBlocks.DirectoryFits` | apps/api/src/kernel/context.ts:392-416 | the size is exact when descriptions are left out and bounded by the budget when they are not, separators included |
| `PromptBlocks.DescriptionsDoNotMatter` | apps/api/src/kernel/context.ts:384-415 | rewording descriptions changes neither how many peers are shown, nor which names their lines open with, nor the line that counts the others |
| `PromptBlocks.PerEntry` | apps/api/src/kernel/context.ts:404-407 | the room per description is none or 60 to 300 characters, and what all of them may use fits |
| `PromptBlocks.RoomIsTheMost` | apps/api/src/kernel/context.ts:404-407 | and it is the most there is: where it is none, sixty characters each would not fit, and below 300 one more would not |
| `PromptBlocks.ListingDescribes` | apps/api/src/kernel/context.ts:406-410 | where there is room each description stands behind its name, clipped to the room |
| `PromptBlocks.DescribedSplits` | apps/api/src/kernel/context.ts:381-381 | filtering the described peers keeps their order |
| `PromptBlocks.DescribedOne` | apps/api/src/kernel/context.ts:381-381 | and keeps exactly those whose description is not blank |
| `PromptBlocks.Clip` | apps/api/src/kernel/context.ts:336-342 | at most the given length; the whole text if it fits, otherwise a beginning of it that uses more than three fifths of the room, and an ellipsis |
| `PromptBlocks.ClipCutsAtAWord` | apps/api/src/kernel/context.ts:339-341 | a text that does not fit is cut before the last space of its first max - 1 characters if that lies past three fifths of max, and else right there |
| `PromptBlocks.FlatJoins` | apps/api/src/kernel/context.ts:337-337 | white space between two parts becomes one space |
| `PromptBlocks.FlatDropsEnds` | apps/api/src/kernel/context.ts:337-337 | white space at the ends goes |
| `PromptBlocks.FlatOfWord` | apps/api/src/kernel/context.ts:337-337 | a word stays as it is |
| `PromptBlocks.FlatOfBlank` | apps/api/src/kernel/context.ts:337-337 | a blank text becomes empty |

## Left out

- AdmitRun: does not promise that at most `maxConcurrentRuns` runs are active, because the code does not: the cap is read at `kernel.ts:1044` and the run registered at `kernel.ts:1068`, with other steps in between; `SlotCap.CapHoldsIffGrantsCount` says when it holds. Nor is there an order between queued runs and newcomers; only runs that queued are first come, first served.
- AdmitRun: takes a cap of at least 1, which is what `apps/api/src/services/runtime-settings.ts:94-100` lets an operator configure.
- AwaitedAnswerArrives: is about runs whose caller declared that it would wait and then waits once, as `delegate` and the gateway do. Other waits are steps of the model too: they never cause a second answer, and `DelegationDesk.SecondWaitHangs` shows what they may do instead.
- SettleDelegation: hands over the final text only. The run object handed with it may still be unfinished when `runToCompletion` threw, because the row is marked failed after settlement.
- NoRunIsStranded: assumes that what the kernel awaits ends (the classifier, the supervisor); `surviveQuota` and time-outs of the supervisor are outside the steps.
- SplitLong: takes a trimmed paragraph, as its only callers pass (`chunker.ts:188-208`).
- FeedbackIsExact: takes it that a run's row keeps its workspace, category and policy; nothing in the kernel rewrites them. Deleting a workspace deletes its rows and its runs together, which is a reset after which no report follows.
- RevisionIsExact: concerns revisions that name the reward last applied; `OnlyHonestRevisionsAreExact` says this is necessary.
- IdsSortByTime: within one millisecond the order is that of the random parts.
- TimeRoundTrips: whole milliseconds; the rounding down of a fractional clock is not modelled.
- RewardIsUnclamped: the exponential is any function into (0,1] on non-positive inputs, because only its range matters there; where `RewardOrder` compares costs it also grows and is 1 at 0.
- NdcgIsNormalised: the logarithmic discount is any positive, strictly decreasing sequence, and the results are distinct; `BoundHoldsIffHitsFit` says when the bound holds otherwise.
- Admissions.Create: admission is one step; the settings of a workspace may change right after it but not during it.
- Ask: the risk of a call and whether its tool is a shell are inputs; the lists of dangerous patterns and tool names are not modelled.
- SelectDirectory: the two notes shown when nothing is described or nothing fits are not bounded by the budget, in the code as here.
- Clip: what counts as room is the number of characters; ids, names and prose come in as text.
- Failures of the database inside a `catch` or `finally` of the kernel.
- Characters are Dafny characters, where the platform counts UTF-16 code units; the lengths differ for characters outside the basic plane.
- Timers, abort signals and listeners are steps that may happen at any time; a listener that throws, subscribes or unsubscribes while a frame is delivered is not modelled.
- Rows of the database are maps; no SQL, migrations or transactions.
- The supervisor, the Agent SDK, the classifier, choice of policy by sampling (its termination is only almost sure) and the quota logic.
- HTTP routes, schemas, the web application, embeddings, memory decay and the improvement loop.
- Rounding of floating-point numbers in rewards, ratios and metrics: reals are used.
