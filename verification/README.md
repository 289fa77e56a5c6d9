# Ouroboros: a model of its restart, money, handover and receipt cores

Ouroboros is an agent that rewrites itself, pays for model calls, and keeps its own record of what
was checked. This project models the parts whose state is shared or kept incrementally, and proves
what holds of every run or every input. One module stands for one component.

**Restart verification** (`RestartDecisions`, `RestartProtocol`, `RestartInvariants`, `RestartBooks`,
`RestartAuthority`, `RestartRuns`, `RestartEvidence`, `RestartLoss`, `CampaignEdits`). Some ten workers boot at once and race for one
marker file; the winner verifies the evolution transaction, the others reconcile it, once in a server
generation. The marker, the claim files, the campaign, the ledger and the state lock are one shared
state; a rename, a locked read, a write, an append, a release and a crash are steps, and any worker
may die between any two. `RestartDecisions` is what is decided inside the lock, `CampaignEdits` the
same as field-by-field edits, and the rest what every run keeps.

**Paid-answer handover** (`ModelSend`, `ModelSendAsync`, `OffLoopCalls`, `PresendBudget`). A sender
and a receiver, in threads or on one event loop under repeated cancellation, agree on who keeps a
paid answer. The pre-send wait has a budget.

**Reversible money** (`UsageMoney`, `UsageRows`, `UsageBucket`, `UsageReversal`, `UsageInvariants`, `UsageSums`,
`UsageWindows`, `BindingIndex`, `BindingCompaction`). Running summaries are kept by subtracting the old row and
adding the new one; compaction of the ledger keeps the spending-limit bindings, on an exact condition.

**Receipts** (`JsonArrays`, `PathSets`, `ReceiptIdentity`, `Outstanding`, `OutcomeReceipts`, with
`TextOrder`). Which red verifications are still open, and when two of them are about one verification.

**Smaller cores**: the launcher's generations and crash fuse (`LauncherLoop`, `CrashFuse`), the
classifier of failed tool calls (`ToolErrors`), native replay receipts (`NativeCustody`), the walk of
a directory with trees bound below it (`ArtifactOverlay`).

What other components answer is an input: Git reachability and intents, clocks, whether a lock or a
write succeeds, what a process does. What a run learnt from Git is remembered as facts, so that
"absorbed" and "abandoned" can be traced to their evidence.

## Where the code and its own words differ

- A worker that observed no serving SHA reads the commit intent in the task's candidate checkout and
  absorbs what it finds, while the comment beside it asks for proof at the serving SHA
  (`ouroboros/agent_startup_checks.py:1045-1056`, `supervisor/evolution_lifecycle.py:758-765`).
  `RestartEvidence.UnknownShaAbsorbsCandidate` is such a run, and
  `RestartEvidence.AbsorbsOnlyServingWhenObserved` says that the promise holds exactly when the SHA was
  observed.
- An ancestry check that errs or times out counts as "not contained"
  (`ouroboros/agent_startup_checks.py:921-936`), so a commit that the serving SHA contains can be
  abandoned: `RestartEvidence.SilenceAbandonsTheContained` is a run in which one worker had learnt that
  it is contained. `RestartEvidence.AbandonsOnlyDeniedWhenAnswered` says that every abandoned commit is
  one Git denied exactly when Git always answers.
- The repair does not re-derive every row that a crash lost, as
  `ouroboros/evolution_checkpoints.py:82-84` says it does: it reads the newest fifty transactions alone.
  `RestartLoss.RowsCanBeLost` is a run of fifty-one crashes between the campaign write and the row that
  loses one; `RestartRuns.RepairLeavesOnlyLost` says that a row is still missing after a repair exactly
  when it was missing before and more than fifty closures old; `RestartRuns.LostStaysLost` that no later
  step adds it.
- The crash window is the last 120 seconds only for a clock that does not go back:
  `CrashFuse.KeptIsTheWindow` gives the exact condition, `CrashFuse.ClockGoingBackDelaysTheFuse` a
  clock for which the fifth crash in the window does not trip the fuse.
- A cap that reads as no finite amount (infinite, negative, not a number) binds from an original row
  and is refused as a carriage (`BindingCompaction.UnusableCapIsLost`). Compaction is invisible exactly
  when each binding has usable caps, null or a finite amount not below zero, or its member's block rows
  agree on one literal and the first of them spells the very binding
  (`BindingCompaction.CompactionIsInvisibleExactly`); where block rows have no cap of their own, exactly
  when every binding has usable caps (`BindingCompaction.CaplessRestoresUsable`).
- Archive names are emitted once exactly when mount names are distinct
  (`ArtifactOverlay.NamesOnceExactlyForDistinctMounts`); the walk itself does not check that they are.
- A retained native list holding an item that is no object, or tool uses that the canonical calls do
  not mirror, is kept but never replayed (`NativeCustody.RetainThenReplay`).

## Model

| member | source | states |
|---|---|---|
| RestartDecisions.AppendUniqueKeeps | ouroboros/agent_startup_checks.py:909-919 | the history never holds a non-empty id twice; it is the newest fifty of the old entries, and the new one unless its id was there |
| RestartDecisions.ReconcileIsJustified | ouroboros/agent_startup_checks.py:1024-1151 | a markerless closure needs an unstamped generation, a valid receipt when bound, and a commit proven at the serving SHA, or one not seen there and positively not held |
| RestartDecisions.MarkIsJustified | ouroboros/agent_startup_checks.py:1195-1347 | a closure through the marker absorbs exactly the serving commit, never abandons, and needs an unstamped generation and a valid receipt when bound |
| RestartDecisions.ReconcileClosesExactly | ouroboros/agent_startup_checks.py:1024-1151 | without leave nothing is written; with it a settled commit is absorbed exactly when proven at the serving SHA and abandoned exactly when neither seen there nor held; a commit only the candidate has is recorded and stays open; a named generation is stamped |
| RestartDecisions.MarkClosesExactly | ouroboros/agent_startup_checks.py:1234-1330 | the marker closes exactly for the serving SHA with its exact claim, receipt and an unstamped generation (or a legacy one without claim); it is kept exactly when the generation is unchanged |
| RestartDecisions.ReconcileKeepsExactly | ouroboros/agent_startup_checks.py:1040-1116 | what a worker with leave writes when it closes nothing: its stamp alone, or a recovered commit with its valid receipt, or the whole transaction with its verification taken back |
| RestartDecisions.MarkKeepsExactly | ouroboros/agent_startup_checks.py:1208-1325 | when the winner that closes nothing writes, and that it then keeps the whole transaction, stamped, with its verification taken back |
| RestartDecisions.CountsOnce | ouroboros/agent_startup_checks.py:1126-1128 | the counter rises by one with an absorbed transaction not counted before, and stands otherwise, by either path |
| RestartDecisions.ForeignReceiptClosesNothing | ouroboros/agent_startup_checks.py:938-968 | a receipt that is no good or names another campaign, transaction, task or commit closes nothing by either path |
| RestartDecisions.ReconcileWritesCleanly | ouroboros/agent_startup_checks.py:1024-1168 | each write closes the active transaction once, as it was but for the marks of its closure, or keeps it open with commit and receipt; beside the stamp nothing else of the campaign changes |
| RestartDecisions.MarkWritesCleanly | ouroboros/agent_startup_checks.py:1195-1347 | the same for the write of the marker's winner |
| CampaignEdits.CampaignCopy.AppendUniqueTransaction | ouroboros/agent_startup_checks.py:909-919 | the scan and append in place give the history with the transaction once |
| CampaignEdits.CampaignCopy.CloseAbsorbed | ouroboros/agent_startup_checks.py:1122-1132 | the edit of an absorbed transaction: counted once, outcome set before it is copied to the history |
| CampaignEdits.CampaignCopy.ReconcileDangling | ouroboros/agent_startup_checks.py:1024-1168 | the field-by-field edit of the markerless path refines its decision, what is written and what is not |
| CampaignEdits.CampaignCopy.MarkRestartVerified | ouroboros/agent_startup_checks.py:1195-1347 | the edit of the marker path refines its decision, also whether the marker is settled |
| RestartInvariants.LockStep | ouroboros/agent_startup_checks.py:1170-1187 | every step keeps one lock holder whose copy of the campaign is the file: no update is lost |
| RestartInvariants.MarkerStep | ouroboros/agent_startup_checks.py:1356-1426 | every step, failing renames too, keeps the marker in one place, and with each worker that processes it |
| RestartInvariants.BootStep | ouroboros/agent_startup_checks.py:970-973 | live workers carry the generation of the server that spawned them |
| RestartBooks.CampaignStep | ouroboros/agent_startup_checks.py:909-919 | every step keeps: closed ids and tasks distinct, the history the newest fifty closures, the counter the number absorbed |
| RestartBooks.MissingMeans | ouroboros/evolution_checkpoints.py:95-144 | the repair lists each resolved task without a row, once, and no other |
| RestartBooks.TagStep | ouroboros/evolution_checkpoints.py:70-92 | every step keeps: no task has two rows, every row belongs to a resolved transaction |
| RestartBooks.TagWritesTheRow | ouroboros/agent_startup_checks.py:1178-1185 | a worker that does not die appends the row its closure owes |
| RestartBooks.BackfillCompletes | ouroboros/evolution_checkpoints.py:95-144 | an uninterrupted repair leaves each resolved transaction of the history with exactly one row |
| RestartRuns.RepairLeavesOnlyLost | ouroboros/evolution_checkpoints.py:95-144 | after an uninterrupted repair in any run, a resolved closure is without a row exactly when it had none before the repair and more than fifty closures have been made since |
| RestartLoss.ManyRounds | ouroboros/agent_startup_checks.py:1170-1187 | any number of transactions can be resolved, each in a new generation, and none of them have a row, when each worker dies between the campaign write and the row |
| RestartLoss.RowsCanBeLost | ouroboros/evolution_checkpoints.py:82-84 | some run reaches a state whose oldest closure is resolved, without a row, written by no live worker, and more than fifty closures old |
| RestartRuns.LostStaysLost | ouroboros/evolution_checkpoints.py:116-144 | no later step adds such a row |
| RestartAuthority.FactStep | ouroboros/agent_startup_checks.py:938-968 | every step keeps the evidence of every closure |
| RestartAuthority.StampStep | ouroboros/agent_startup_checks.py:1036-1037 | every step keeps: after a closure in a named generation the campaign is stamped, and only a legacy marker closes again in it |
| RestartRuns.RunKeeps | ouroboros/agent_startup_checks.py:886-1426 | all of these hold in every state of every run, with crashes between any two steps |
| RestartRuns.EachTransactionOnce | ouroboros/agent_startup_checks.py:886-919 | no transaction is both absorbed and abandoned, no id is twice in the history, the counter equals the absorbed closures, a task has at most one row |
| RestartRuns.OneStepCountsOne | ouroboros/agent_startup_checks.py:1122-1128 | one step closes at most one transaction and raises the counter by one exactly when it was absorbed |
| RestartRuns.StampBlocks | ouroboros/agent_startup_checks.py:1258-1264 | while the campaign carries the generation's stamp, no worker of it closes a bound transaction by either path |
| RestartRuns.LooksOnce | ouroboros/agent_startup_checks.py:1049-1116 | a worker that looked with leave leaves its named generation's stamp on the campaign |
| RestartRuns.CommitLeavesOnlyByClosure | ouroboros/agent_startup_checks.py:1102-1116 | in every step of every run a recorded commit and its receipt leave the campaign only with their transaction, which is closed with them |
| RestartRuns.OneWorkerHasTheMarker | ouroboros/agent_startup_checks.py:1356-1391 | at most one live worker processes the marker, and its claim file is the only copy |
| RestartRuns.MarkerSurvives | ouroboros/agent_startup_checks.py:1410-1426 | only the unlink after a durable outcome removes the marker |
| RestartRuns.DurableOnlyByDecision | ouroboros/agent_startup_checks.py:1195-1355 | a worker comes to remove its marker only by a write that did not fail, of a decision that settles the marker |
| RestartRuns.SettledMarkerGoes | ouroboros/agent_startup_checks.py:1415-1420 | the unlink of a settled marker leaves no file |
| RestartRuns.UnsettledMarkerReturns | ouroboros/agent_startup_checks.py:1421-1426 | an unsettled marker is renamed back to pending, and no claim stands |
| RestartRuns.HolderCanMove | ouroboros/agent_startup_checks.py:1385-1426 | the holder of the marker always has a step nearer to removing it or putting it back |
| RestartRuns.ListerYields | ouroboros/agent_startup_checks.py:1361-1367 | a worker without the marker goes on to reconcile exactly when no claim stands |
| RestartRuns.ScannerYields | ouroboros/agent_startup_checks.py:1372-1384 | it takes over no claim of a live worker, and the first one of a dead worker it can rename |
| RestartRuns.DeadClaimIsRecovered | ouroboros/agent_startup_checks.py:1361-1384 | the marker of a dead claimant can be taken over by the next worker that boots |
| RestartEvidence.ClosuresHaveEvidence | ouroboros/agent_startup_checks.py:1036-1116 | an abandoned commit was known not to be held and Git had denied, or not answered, that the serving SHA contains it; a bound closure had its valid receipt |
| RestartEvidence.AbandonsOnlyDeniedWhenAnswered | ouroboros/agent_startup_checks.py:921-936 | every commit abandoned in any run is one Git denied exactly when no ancestry check goes unanswered |
| RestartEvidence.SilenceAbandonsTheContained | ouroboros/agent_startup_checks.py:921-936 | a run that abandons a commit which an earlier worker saw contained, because its own check timed out |
| RestartEvidence.UnknownShaAbsorbsCandidate | ouroboros/agent_startup_checks.py:1040-1047 | a run that absorbs a commit only the candidate holds, because no serving SHA was observed |
| RestartEvidence.AbsorbsOnlyServingWhenObserved | ouroboros/agent_startup_checks.py:1040-1116 | an absorbed commit is always proven at the serving SHA exactly when that SHA was observed |
| ModelSend.RunKeepsInv | ouroboros/_usage_wait.py:403-461 | what every interleaving of sender and receiver keeps |
| ModelSend.ExactlyOneDisposition | ouroboros/_usage_wait.py:403-501 | once both are finished, either the receiver got the sender's outcome or it was settled late once; never both, never neither |
| ModelSend.TheLockDecides | ouroboros/_usage_wait.py:420-459 | the sender keeps its outcome exactly when the receiver has left, the receiver leaves exactly when nothing was handed over |
| ModelSend.LateSettlementIsWhole | ouroboros/_usage_wait.py:475-501 | every settlement of a run is accounted unless its accounting failed, and retained when it is an answer and neither write failed |
| ModelSend.AbandonedAnswerIsKept | ouroboros/_usage_wait.py:475-501 | the one late settlement of a run leaves exactly one settlement, of the sender's outcome, as its two writes went |
| ModelSend.LeavingIsFinal | ouroboros/_usage_wait.py:443-461 | a receiver that left returns no answer, and a settlement is not undone |
| ModelSend.SomeoneCanMove | ouroboros/_usage_wait.py:403-461 | no reachable unfinished state is stuck, but for a provider still out |
| ModelSendAsync.RunKeepsInv | ouroboros/_usage_wait.py:523-621 | what every schedule of the event loop keeps |
| ModelSendAsync.EveryResponseMeetsOneEnd | ouroboros/_usage_wait.py:523-621 | each response is exactly one of returned, retained on abandon, or attached to the cancellation and retained |
| ModelSendAsync.UncancelledGetsItsOutcome | ouroboros/_usage_wait.py:574-577 | without a cancellation a receiver that did not leave returned the response or raised the provider's own error |
| ModelSendAsync.CancellationIsDelivered | ouroboros/_usage_wait.py:578-617 | a cancellation that reached the receiver is raised, with the response attached if there is one; it never returns after that |
| ModelSendAsync.CancellationReachesTheSender | ouroboros/_usage_wait.py:578-588 | the first notice cancels a sender that has not ended; one that has not begun never enters the call |
| ModelSendAsync.LeavesOnlyOnPause | ouroboros/_usage_wait.py:562-573 | a receiver leaves exactly when a poll sees the pause before the call has ended |
| ModelSendAsync.UnabandonableStays | ouroboros/_usage_wait.py:562-573 | one that may not leave never does |
| ModelSendAsync.CancellationJoinsTheSender | ouroboros/_usage_wait.py:560-617 | a cancelled receiver raises only when its sender is done |
| ModelSendAsync.SomeoneCanMove | ouroboros/_usage_wait.py:523-621 | no reachable unfinished state is stuck |
| OffLoopCalls.ProducedIsReturnedOrDisposedOnce | ouroboros/_usage_wait.py:269-358 | what the worker thread produced is returned or disposed of once, also when it commits as the cancellation arrives; without `on_cancel` a cancelled caller leaves it as it is |
| OffLoopCalls.UncancelledReturns | ouroboros/_usage_wait.py:283-288 | without a cancellation the caller returns what was produced or raises the failure, and nothing is disposed of |
| OffLoopCalls.CancellationIsNoticed | ouroboros/_usage_wait.py:289-312 | a cancellation that reached the caller is never followed by a return |
| PresendBudget.PresendWait.Delay | ouroboros/_usage_wait.py:48-93 | exactly when the wait goes on, for how long, and when it is interrupted; nothing is charged |
| PresendBudget.PresendWait.Wait | ouroboros/_usage_wait.py:95-112 | when an attempt is waited out and for how long; a publication wait charges its probe and the longer sleep, contention charges nothing |
| PresendBudget.MostIsBudgetOverPoll | ouroboros/_usage_wait.py:48-93 | 600 is the budget over the poll, rounded up |
| PresendBudget.RetryPresend | ouroboros/_usage_wait.py:119-149 | the loop ends at the first failure that is not to be waited out, and however contention alternates with it an episode holds at most 600 publication waits |
| UsageMoney.ContributionIsBalanced | ouroboros/_usage_money.py:93-109 | settled is confirmed plus estimated, no member is negative, and a row's exposure is in one place |
| UsageMoney.MoneyIsWhereItsStateSays | ouroboros/_usage_money.py:93-109 | each member of a contribution, by state and price: a known settled cost is settled spend, confirmed exactly when exact; bounds are reserved or unresolved |
| UsageMoney.RoundHalfEven | ouroboros/_usage_money.py:117-126 | the rounded number is within a half, and even at a tie |
| UsageMoney.RoundHalfEvenIsUnique | ouroboros/_usage_money.py:117-126 | those conditions determine it |
| UsageMoney.RenderingErrorBounds | ouroboros/_usage_money.py:117-131 | each shown amount is within half a micro-dollar of the exact one, the exposure within one and a half |
| UsageMoney.AccountedBoundIsTight | ouroboros/_usage_money.py:117-126 | the exposure's bound is reached |
| UsageMoney.FirstRefused | ouroboros/_usage_money.py:133-144 | the least whole micro-dollar at which a limit refuses |
| UsageMoney.LimitThreshold | ouroboros/_usage_money.py:133-144 | the exact spend at which a positive limit refuses |
| UsageMoney.OvershootBound | ouroboros/_usage_money.py:133-144 | accepted spend passes a positive limit by less than half a micro-dollar; refused spend is short of it by little more |
| UsageMoney.LimitIsMonotone | ouroboros/_usage_money.py:133-144 | more spend never lifts a refusal |
| UsageMoney.NoLimitNoSpend | ouroboros/_usage_money.py:133-144 | a limit of zero or less refuses everything |
| UsageMoney.WholeLimit | ouroboros/_usage_money.py:133-144 | for whole micro-dollars, refusal is rounded spend reaching the limit |
| UsageRows.Weight | ouroboros/_usage_rows.py:405 | every row counts for at least one |
| UsageRows.DeltaIsContribution | ouroboros/_usage_rows.py:363-442 | a row's contribution reports each pair once, each count positive, no label map empty |
| UsageRows.DeltaFlags | ouroboros/_usage_rows.py:381-442 | a row is non-final exactly when it is open; unpriced and tracked rows are open |
| UsageRows.CountersOfRow | ouroboros/_usage_rows.py:392-414 | the state count and session count of a row, in its weight |
| UsageRows.PhysicalCallsOfRow | ouroboros/_usage_rows.py:480-498 | which rows count as physical calls, and for how many |
| UsageRows.FinalityOfRow | ouroboros/_usage_rows.py:415-441 | exactly when a row is unknown, priced, tracked, open and non-final |
| UsageRows.TokensOfRow | ouroboros/_usage_rows.py:397-402 | tokens as reported, never below zero; the cache lifetime with the physical calls |
| UsageRows.WindowsOfRow | ouroboros/_usage_rows.py:406-411 | a row names a reset for a route exactly when it is a session row with both |
| UsageRows.FiguresOfEntries | ouroboros/_usage_rows.py:158-220 | a figure is disclosed exactly when an entry says it, as the sum of what entries say |
| UsageRows.LabelsOfEntries | ouroboros/_usage_rows.py:158-220 | each mode and billing kind is counted once for every entry naming it |
| UsageRows.ImportedDiscloses | ouroboros/_usage_rows.py:158-190 | an imported summary discloses its usable figures and its labels |
| UsageRows.DisclosureOfRow | ouroboros/_usage_rows.py:363-378 | a row discloses each figure and label of its evidence, reported once |
| UsageBucket.Merge | ouroboros/_usage_rows.py:342-360 | the in-place merge of a map is the pointwise step of each of its keys |
| UsageBucket.MergedAt | ouroboros/_usage_rows.py:342-360 | what a merge leaves at a key, present or gone |
| UsageBucket.AddTotals | ouroboros/_usage_rows.py:255-280 | every additive member after a contribution came or went |
| UsageBucket.AddCap | ouroboros/_usage_rows.py:255-280 | the cap literal counted up or down, gone at zero |
| UsageBucket.Bucket.Add | ouroboros/_usage_rows.py:255-280 | the bucket after an addition or a subtraction; a removal takes no window back |
| UsageBucket.Bucket.MinCap | ouroboros/_usage_rows.py:282-284 | the least of the caps held, none when none is |
| UsageReversal.WentUndoesCame | ouroboros/_usage_rows.py:255-280 | subtracting what was added gives the bucket back, entry for entry |
| UsageReversal.CameCommutes | ouroboros/_usage_rows.py:255-280 | the order of two rows does not matter |
| UsageReversal.FoldAsIfLast | ouroboros/_usage_rows.py:445-449 | any row of a fold may be taken to have come last |
| UsageReversal.RunningEqualsFold | ouroboros/usage_store.py:640-648 | after every run of insertions, replacements and removals the bucket equals the fold over the live rows, in any order |
| UsageSums.RunningIsSum | ouroboros/usage_store.py:640-648 | after every run each additive member, down to a label, equals the sum of the live rows' contributions |
| UsageSums.SettledSpendIsKnownCost | ouroboros/_usage_money.py:93-144 | settled spend is the sum of the known costs of the live settled rows, and a whole limit refuses exactly when that sum, rounded, reaches it |
| UsageInvariants.SummaryIsHonest | ouroboros/_usage_money.py:93-126 | in every fold settled is exactly confirmed plus estimated, and the finality flags tell whether a row is open |
| UsageInvariants.RunningIsHonest | ouroboros/usage_store.py:640-648 | the same of every bucket a run of the store reaches, with its caps those of the live rows and its token axes those a live row reported |
| UsageInvariants.CapsAreLiveCaps | ouroboros/_usage_rows.py:255-284 | the cap counts name exactly the caps of the live rows |
| UsageInvariants.TokensArePresentWhileReported | ouroboros/_usage_rows.py:306-323 | a token axis is present exactly while a live row reported it |
| UsageInvariants.WindowsOutliveTheirRow | ouroboros/_usage_rows.py:255-280 | windows are exempt: a removed row's reset stays |
| UsageWindows.ApplyAll | ouroboros/usage_store.py:640-648 | the store's writes on one bucket, subtracting old rows and adding new ones in place, give the running members and windows |
| UsageWindows.WindowsAreTheGreatestEver | ouroboros/_usage_rows.py:264-266 | after every run each route holds the greatest reset ever inserted for it, and no other route is held |
| BindingIndex.Index.Fold | ouroboros/_usage_rows.py:101-140 | the in-place fold of one row is the step of the specification |
| BindingIndex.FoldBlock | ouroboros/_usage_rows.py:101-134 | the votes and carriages of a block row on one axis |
| BindingIndex.OriginalKeepsBindings | ouroboros/_usage_rows.py:135-140 | no original row changes or removes a binding that stands |
| BindingIndex.FirstOriginalWins | ouroboros/_usage_rows.py:135-140 | after any original rows a member keeps its binding, or is bound exactly when a capped row claims it, by the first that does |
| BindingIndex.RowBelongs | ouroboros/_usage_money.py:79-90 | a row belongs to the root and the group it names, without a group to its root's own |
| BindingIndex.VotesAlike | ouroboros/_usage_rows.py:56-73 | grouped rows vote alike exactly when the group's own fields, on the root axis all fields, read alike |
| BindingIndex.UngroupedVotesAlike | ouroboros/_usage_rows.py:60-73 | without a group cap the root and its cap are the vote |
| BindingIndex.CaplessDoesNotVote | ouroboros/_usage_rows.py:60-65 | a row votes exactly when it has a cap |
| BindingIndex.CarriageNotTaken | ouroboros/_usage_rows.py:121-130 | an unstamped header reads no carriage; an absent, malformed or foreign carriage leaves the row to its own cap |
| BindingCompaction.FoldIsWellFormed | ouroboros/_usage_rows.py:44-58 | under usable rows every binding belongs to its member and carries usable caps |
| BindingCompaction.FoldIsOwned | ouroboros/_usage_rows.py:101-140 | under any rows every binding belongs to its member and holds a cap |
| BindingCompaction.BlockRestores | ouroboros/_usage_rows.py:101-134 | what a carried block does to each member: a usable binding is given back, an open member stays open, an unusable binding is put to the vote of the member's own caps |
| BindingCompaction.RestoresAxisExactly | ouroboros/_usage_rows.py:101-134 | an axis is restored exactly when each of its bindings comes back |
| BindingCompaction.CaplessRestoresUsable | ouroboros/_usage_rows.py:44-58 | where block rows have no cap, exactly when every bound cap is null or a finite amount |
| BindingCompaction.CompactionIsInvisibleExactly | ouroboros/_usage_rows.py:76-140 | for any ledger, header, block and all later rows answer as the uncompacted ledger exactly when each binding comes back |
| BindingCompaction.CompactionIsInvisible | ouroboros/_usage_rows.py:76-140 | so it is when the bound caps are null or finite amounts, whatever caps the block rows have |
| BindingCompaction.RepeatedCompactionIsInvisible | ouroboros/_usage_rows.py:76-140 | after any number of compactions that lose no binding the ledger answers as the uncompacted one |
| BindingCompaction.InvisibleExactlyWhenLossless | ouroboros/_usage_rows.py:76-140 | over any number of compactions, the answers are the uncompacted ones at every moment exactly when no compaction loses a binding |
| BindingCompaction.UsableHistoryIsFaithful | ouroboros/_usage_rows.py:76-140 | no compaction loses a binding when the caps ever written are null or finite amounts |
| BindingCompaction.UnusableCapIsLost | ouroboros/_usage_rows.py:44-58 | any cap that reads as no finite amount is bound and then lost by a capless carrying row |
| BindingCompaction.VotesDecide | ouroboros/_usage_rows.py:60-134 | under an unstamped header a member is bound exactly when its capped rows carry one literal |
| BindingCompaction.BlockOrderDoesNotMatter | ouroboros/_usage_rows.py:60-134 | the order of block rows changes neither who is bound nor to which literal |
| BindingCompaction.DisputedStaysDisputed | ouroboros/_usage_rows.py:101-134 | a member with two literals stays unbound whatever block rows follow |
| JsonArrays.RoundTrip | ouroboros/_outcome_receipts.py:276-301 | reading back a written string array gives it (sections 5 and 7 of RFC 8259) |
| JsonArrays.ReadsShortEscapes | ouroboros/_outcome_receipts.py:276-301 | the reader's short escapes are those of section 7 of RFC 8259 |
| JsonArrays.EncodeIsInjective | ouroboros/_outcome_receipts.py:276-301 | two arrays have the same text exactly when they are equal |
| JsonArrays.JoinLinesIsNotInjective | ouroboros/_outcome_receipts.py:289-301 | joining by newlines confuses two path lists that the encoding tells apart |
| PathSets.CanonicalPathSetSorts | ouroboros/_outcome_receipts.py:184-203 | the canonical form holds the non-empty names, ascending |
| TextOrder.LessMeans | ouroboros/_outcome_receipts.py:202-203 | the order sorted by: the first difference decides, else the shorter text |
| PathSets.CanonicalPathSetIsCanonical | ouroboros/_outcome_receipts.py:184-203 | it ignores order, repetition and empty texts, and nothing else |
| ReceiptIdentity.KeyIdentifiesVerification | ouroboros/_outcome_receipts.py:229-301 | two receipts share a key exactly when they name the same verification |
| ReceiptIdentity.PrecedenceOfIdentity | ouroboros/_outcome_receipts.py:229-266 | criterion, then check with its renderer, then paths; an absent stamp is a renderer of its own |
| Outstanding.OutstandingReceipts | ouroboros/_outcome_receipts.py:734-788 | the quadratic scan yields the open receipts in log order, one for each key |
| Outstanding.OpenAreCandidates | ouroboros/_outcome_receipts.py:773-788 | nothing is reported that is no candidate of the log |
| Outstanding.MachineIsOpenReceipts | ouroboros/_outcome_receipts.py:734-788 | a one-pass machine computes the same list |
| Outstanding.StandingAtEndIsOpen | ouroboros/_outcome_receipts.py:734-788 | an entry left by the scan is one that nothing later clears or renews |
| Outstanding.OutstandingKey | ouroboros/_outcome_receipts.py:734-788 | a key is outstanding exactly when its last candidate comes after its last grounding, as that candidate |
| Outstanding.NewRedKeepsOthers | ouroboros/_outcome_receipts.py:734-788 | a new red replaces only its own verification |
| Outstanding.GroundingClearsItsKey | ouroboros/_outcome_receipts.py:442-463 | a grounding clears its own key and the keyless, nothing else |
| Outstanding.KeylessStaySeparate | ouroboros/_outcome_receipts.py:734-788 | keyless reds are never merged |
| OutcomeReceipts.UnreconciledFailed | ouroboros/_outcome_receipts.py:791-808 | the open red receipts |
| OutcomeReceipts.UnreconciledMasked | ouroboros/_outcome_receipts.py:811-831 | the open masked passes |
| OutcomeReceipts.RedReading | ouroboros/_outcome_receipts.py:442-499 | when two receipts are the same red verification and when one clears another |
| OutcomeReceipts.MaskedReading | ouroboros/_outcome_receipts.py:465-506 | the masked reading counts only the criterion |
| OutcomeReceipts.OnlyCandidatesAreReported | ouroboros/_outcome_receipts.py:383-388 | only failures are reported red and only masked passes masked; a clean pass never is |
| OutcomeReceipts.RedExactlyWhenLastRedIsLast | ouroboros/_outcome_receipts.py:791-831 | a named verification is red exactly when no grounding follows its last red |
| OutcomeReceipts.MaskedExactlyWhenLastMaskIsLast | ouroboros/_outcome_receipts.py:811-831 | a masked criterion is reported exactly when no clean grounding of it follows its last masked pass |
| OutcomeReceipts.LatestPointerWouldForget | ouroboros/_outcome_receipts.py:834-852 | a failing A, failing B and passing B leave exactly A |
| CrashFuse.KeptAreTheSurvivors | launcher.py:812-817 | for any clock, the list holds the stamps that no later crash left a window behind |
| CrashFuse.KeptIsTheWindow | launcher.py:119-120 | it is the window of the newest crash exactly when no stamp of that window was once left behind; always for a clock that does not go back |
| CrashFuse.ClockGoingBackDelaysTheFuse | launcher.py:812-817 | a clock for which five crashes in the window do not fill the list |
| LauncherLoop.Launcher.CleanupRecordedServer | launcher.py:383-423 | only a server known to be ours is signalled; the record goes only with a server that is gone |
| LauncherLoop.Launcher.Generation | launcher.py:686-820 | one turn of the loop refines its specification |
| LauncherLoop.Launcher.LifecycleLoop | launcher.py:686-820 | the loop refines the run of its turns |
| LauncherLoop.TurnDoesExactly | launcher.py:686-820 | when a turn starts its server, when it counts a crash, and when the loop ends, each an if-and-only-if |
| LauncherLoop.CleansExactly | launcher.py:396-423 | a record goes exactly when its identity is measured and its server is gone or dies; another process's is retired at once |
| LauncherLoop.StartsExactlyWhenFree | launcher.py:691-715 | a turn starts exactly when nothing recorded can still run, no stray survived and nothing forbids it |
| LauncherLoop.LeavesBehind | launcher.py:715-749 | what a turn that started leaves running and recorded |
| LauncherLoop.RunKeeps | launcher.py:686-820 | the trace is lawful and the crash list is the pruned list of its crash stamps in every run |
| LauncherLoop.StartsOnlyWhenClear | launcher.py:686-780 | a server starts right after a clean-up that left nothing, when the last one was waited for, never after Panic or the end |
| LauncherLoop.FuseTripsAtTheFifth | launcher.py:782-817 | the fuse trips at a crash exactly when it is the fifth in the window; code 42 and requested restarts do not count |
| LauncherLoop.OneServerAtATime | launcher.py:636-644 | a server starts only when no known server runs, and between turns at most one does |
| ToolErrors.NamesWrittenLater | ouroboros/_outcome_tool_errors.py:319-344 | the names that later calls write through the demanded root |
| ToolErrors.FindRecovery | ouroboros/_outcome_tool_errors.py:349-375 | the 1-based position of the first qualifying later call |
| ToolErrors.ClassifyCall | ouroboros/_outcome_tool_errors.py:292-396 | the bucket that the declarative reading gives a call |
| ToolErrors.ClassifyToolErrors | ouroboros/_outcome_tool_errors.py:285-403 | the five lists hold the calls of their buckets in trace order |
| ToolErrors.ListsHoldTheirOwn | ouroboros/_outcome_tool_errors.py:285-403 | each list holds the records of its own bucket's calls, with the credited position |
| ToolErrors.FailedRetryRecoversNothing | ouroboros/_outcome_tool_errors.py:349-354 | a failed or not-ok call makes up for nothing |
| ToolErrors.SameTargetRecovers | ouroboros/_outcome_tool_errors.py:355-372 | without an artifact only the same tool on the same target makes up for a failure, not on another one |
| ToolErrors.ArtifactRecovers | ouroboros/_outcome_tool_errors.py:362-372 | when a registered artifact makes up for a failure |
| ToolErrors.PathsOfTarget | ouroboros/_outcome_tool_errors.py:249-263 | which paths a target names |
| ToolErrors.NamesOfWrite | ouroboros/_outcome_tool_errors.py:236-246 | which file names a write declares |
| ToolErrors.WritesThroughTheRoot | ouroboros/_outcome_tool_errors.py:326-344 | which calls write through the demanded root |
| ToolErrors.ResidualsOf | ouroboros/_outcome_tool_errors.py:379-396 | where a failure goes that nothing made up for |
| ToolErrors.CountedCallsAre | ouroboros/_outcome_tool_errors.py:293-312 | which failures count and which are ignored |
| ToolErrors.OneBucketEach | ouroboros/_outcome_tool_errors.py:285-403 | a call has one bucket |
| ToolErrors.OneReport | ouroboros/_outcome_tool_errors.py:285-403 | a trace has one report |
| ToolErrors.OnlyCountedLand | ouroboros/_outcome_tool_errors.py:292-312 | every counted failure is filed once and nothing else is |
| ToolErrors.LongerTraceOnlyRecovers | ouroboros/_outcome_tool_errors.py:285-403 | a longer trace takes nothing out of recovered or ignored, keeps the credited call, and only moves residual failures into recovered |
| ToolErrors.RecoveredByNewCalls | ouroboros/_outcome_tool_errors.py:319-378 | such a move happens exactly when a new call qualifies; for a redirected write exactly when old and new calls together wrote every blocked name where asked |
| ToolErrors.DenialsAreWalked | ouroboros/_outcome_tool_errors.py:19-160 | every denial status is walked, so that it can be recovered |
| NativeCustody.NativeToolIds | ouroboros/anthropic_native_custody.py:59-70 | the exact distinct ids in order, or the error |
| NativeCustody.RetainThenReplay | ouroboros/anthropic_native_custody.py:100-221 | a retained list comes back whole exactly on its route, for its tool results in order, when it validates |
| NativeCustody.RetainsExactly | ouroboros/anthropic_native_custody.py:100-120 | which lists are kept, left alone or rejected |
| NativeCustody.MirroredCallsReplay | ouroboros/anthropic_native_custody.py:73-98 | a kept list is replayed exactly when each call mirrors its tool use; one differing field stops it |
| NativeCustody.VouchesExactly | ouroboros/anthropic_native_custody.py:123-166 | each point that a receipt must meet to vouch for a list |
| NativeCustody.IdsInOrder | ouroboros/anthropic_native_custody.py:59-70 | the ids are those of the tool uses, place by place |
| NativeCustody.ToolUsesInOrder | ouroboros/anthropic_native_custody.py:73-78 | the tool uses keep the order of the list |
| NativeCustody.ChangedTextIsRefused | ouroboros/anthropic_native_custody.py:123-166 | a changed text under the same digest vouches for nothing |
| NativeCustody.OnlyReasoningGoes | ouroboros/anthropic_native_custody.py:169-185 | retirement removes exactly the thinking blocks |
| NativeCustody.RetiringKeepsOrder | ouroboros/anthropic_native_custody.py:169-185 | of two lists end to end it leaves what it leaves of each, so the rest keeps its order and multiplicity |
| NativeCustody.ReasoningIsCounted | ouroboros/anthropic_native_custody.py:169-185 | as many as it counts, and none when it counts none |
| NativeCustody.RetiringKeepsTheRest | ouroboros/anthropic_native_custody.py:169-185 | ids and tool uses stay in order |
| NativeCustody.RetiredStillValidates | ouroboros/anthropic_native_custody.py:169-185 | the rewritten receipt validates with the rest and the same ids |
| NativeCustody.RetiredOnce | ouroboros/anthropic_native_custody.py:169-185 | nothing is left to retire; the digest changes exactly when a block went |
| NativeCustody.MessageCell.NativeReasoningBlocks | ouroboros/anthropic_native_custody.py:169-185 | counting and rewriting in place |
| NativeCustody.ReplayScope.NativeContentForReplay | ouroboros/anthropic_native_custody.py:205-221 | the replay and the digest it notes, once |
| NativeCustody.ReplayScope.MarkReplayedReceiptsConsumed | ouroboros/anthropic_native_custody.py:234-241 | the answer names what was replayed |
| NativeCustody.AnthropicToolUnitActive | ouroboros/anthropic_native_custody.py:403-419 | active until a later message consumes the digest |
| NativeCustody.RetiringReopens | ouroboros/anthropic_native_custody.py:169-185 | after a retirement only the new digest can close the unit |
| NativeCustody.AnswerClosesReplayed | ouroboros/anthropic_native_custody.py:234-241 | an answer closes exactly the units whose receipts were replayed |
| NativeCustody.ScrubbedHasNoCustody | ouroboros/anthropic_native_custody.py:244-251 | before another route no replay and no active unit is left |
| ArtifactOverlay.NameMembers | ouroboros/artifact_directories.py:46-57 | the uncovered members of one directory, and the directories left to walk |
| ArtifactOverlay.WalkTree | ouroboros/artifact_directories.py:46-57 | the walk of one tree refines its specification |
| ArtifactOverlay.IterArtifactEntries | ouroboros/artifact_directories.py:30-57 | the whole iteration refines its specification |
| ArtifactOverlay.WalkMeans | ouroboros/artifact_directories.py:46-57 | a walk yields exactly the members reached through real, uncovered directories |
| ArtifactOverlay.WalkIsTopDown | ouroboros/artifact_directories.py:46-57 | every member comes after the directory that holds it |
| ArtifactOverlay.EmittedIsVisible | ouroboros/artifact_directories.py:30-57 | an entry is emitted exactly when it exists in the tree of the longest mount name that begins its own |
| ArtifactOverlay.NamesOnceExactlyForDistinctMounts | ouroboros/artifact_directories.py:30-57 | no name is emitted twice exactly when no two mounts share a name |

## Left out

- UsageReversal.RunningEqualsFold: leaves out the subscription windows, which a removal does not take back.
- OffLoopCalls.ProducedIsReturnedOrDisposedOnce: does not say that the disposal itself succeeds; a failing release is raised. Without `on_cancel` nothing is disposed of.
- ModelSendAsync.EveryResponseMeetsOneEnd: leaves out the case without a late owner, and a cancellation of the detached sender's own retention.
- RestartRuns.DeadClaimIsRecovered: a spawned worker is one that enters `verify_restart`; a worker that finds its generation and SHA already verified returns before that (`ouroboros/agent.py:482-487`) and takes no marker over. Pids are not reused, so a claim file named after a live stranger is not modelled.
- BindingCompaction.CompactionIsInvisibleExactly: a field is null or a text with the number it reads as, and ids are texts.
- NativeCustody.RetainThenReplay: JSON and SHA-256 are parameters that round-trip and are injective; stripping and lower-casing of route and ids are taken as applied.
- ArtifactOverlay.EmittedIsVisible: a mount name is its list of components and not empty; a directory lists its entries by name, so the order in which subdirectories are entered is theirs.
- ToolErrors.ClassifyToolErrors: argument values are texts or lists of texts, and the lower-case file name of a path is given with it; the clipped result text of a record is left out.
- LauncherLoop.OneServerAtATime: start, wait and exit are one turn, since the loop does nothing else while it waits, so what runs between them is not observed; a verdict that a recorded pid is another's is taken as true; stray servers count only as reported by the sweep.
- Restart: a second request while one is in flight, the owner report, backlog links, repeat counters, progress notes and event rows.
- Restart: the supervisor's own resolution of a task that ended without a commit, and the start of another campaign, which resets the counter.
- Restart: Git, the commit intent and the candidate's checkout, whose answers are inputs; an exception before the write is a write that fails.
- Handover: the heartbeat and hold rows written while waiting, and the transport's closing.
- Money: the trap of the sixty-digit decimal context and non-finite amounts; amounts are exact reals.
- Money: SQLite, the rendered breakdown, billing-window texts and processing labels of unknown shape.
- Receipts: canonical check text and the stripping of criterion and rendering are taken as applied; disclosure and projections.
- Launcher: windows, tray, dependency installs, Windows jobs, signals, ports and readiness; a child is alive or has exited with a code.
- Artifacts: the packing of the walked members, hashing and I/O errors.
- Prompts, projections for readers, and redaction.
