# A verified model of gpucall's core

gpucall is a gateway that compiles a request into a ranked chain of GPU routes and runs that chain with
fallback, under concurrency limits, while it keeps budgets, provider evidence and a hash-chained audit trail.
This project models those parts in Dafny and proves what they keep over all inputs and all interleavings.

| component | modules |
|---|---|
| admission controllers (counter maps; lease rows with TTL; waiting) | `Admission`, `LeaseTable`, `AdmissionWait` |
| synchronous and streaming dispatch with fallback | `ProviderErrors`, `Fallback`, `FallbackProperties`, `FallbackErrors`, `Stream`, `StreamChoices` |
| interleaved dispatches over one controller, in one process or several | `DispatchMachine`, `World`, `Progress`, `TimedWorld` |
| asynchronous jobs, reaper, restart recovery, budgets | `Jobs` |
| provider evidence store, load and merge | `Evidence`, `EvidenceProperties`, `EvidenceLifetimes`, `EvidenceContracts`, `EvidenceMerge` |
| audit chain and its backwards reader | `AuditReader`, `AuditChain` |
| cost estimate and cost gate | `Costing`, `CostTables`, `CostGate` (file CostPolicy.dfy) |
| routing | `Ordering`, `Routing`, `RoutingProperties`, `RoutingOrder` |
| keyed lock, idempotency, rate limit | `KeyedLock`, `Idempotency`, `RateLimit` |
| shared helpers | `Wrappers`, `Sets` |

Where the source changes state step by step (controllers, the nested attempt loops, the job table, the trail and its
reader, the limiter), the model is a class or a method with loops, proved equal to a specification function; the
properties are then proved of that function. Concurrency is a state machine whose steps are what happens between two
suspensions of the event loop.

Assumptions, all of them visible as parameters or preconditions: clocks never go back; floats are reals; a cancellation is delivered when its
task next resumes, never inside a `finally` block other than the cleanup shown in `World`; hashes are free
constructors; provider answers, error predicates outside the modelled files, observed scores and the idempotency
store's atomic operations are arbitrary inputs; one operation on a job store is atomic, but with several processes a read and
a later write are two.

Properties that turned out not to hold unconditionally are stated with their exact condition and an input that fails:

- a lease that outlives its TTL makes the lease-row controller answer as if it were gone (`LeaseTable.AnswersAgreeIffNoneOutlived`,
  `TimedWorld.CompleteIffPunctual`, `TimedWorld.OutlivedHandlesExceedLimit`);
- a dispatch whose `_cleanup_remote` is cancelled, or raises when it writes the audit log, never returns its lease
  (`World.NothingHeldIffNoCleanupBroken`, `World.RaisingCleanupLeavesLease`);
- terminal job states are final if and only if no step is stray (`Jobs.FinalIffNoStray`): two gateways on one job store break
  that (`Jobs.ForeignExpiryIsOverwritten`), one gateway with the cancel callback never does (`Jobs.OneGatewayNeverStrays`);
- an ended run does not always settle its budget; `Jobs.BudgetSettledOnce` says exactly which do: a job cancelled before its
  task's first step keeps its reservation (`Jobs.CancelledBeforeFirstStep`), and a failing audit write between the COMPLETED
  update and the commit leaves the budget unsettled (`Jobs.CompletedButUnsettled`);
- re-storing one dimension can extend the life of a kept finding whose expiry is an explicit null
  (`EvidenceProperties.KeptFindingKeepsItsLife`, `EvidenceProperties.UntimedFindingOutlivesItsRow`);
- an audit rotation is sound if and only if its stamp is later than every stamp used (`AuditChain.RotationSoundIffLatest`);
- the merged validator flag depends on the order of the rows (`EvidenceMerge.ValidatorFlagDependsOnOrder`);
- setting a first cost cap can let through what the high-cost threshold refused (`CostGate.FirstCapAcceptsMoreIff`,
  `CostGate.FirstCapCanAccept`; `CostGate.NeverLooserIff` says when a policy change never does);
- a plan for a requested tuple can attest an estimate over its caps, because that tuple is not put through the gate
  (`RoutingProperties.PlanWithinCapsIff`, `RoutingProperties.RequestedPlanOverCap`);
- a keyed lock's entry stays behind if and only if the last task using the key was cancelled while it waited
  (`KeyedLock.EntryLeftBehindIff`, `KeyedLock.CancelledWaiterLeavesEntry`);
- an idempotency key stays pending for ever if and only if an execution was cancelled, or its handler's budget refund or its
  release raised (`Idempotency.StuckIffReleaseSkipped`, `Idempotency.RaisingRefundBlocks`).

## Model

| member | source | states |
|---|---|---|
| Admission.HeldAfterAdd | gpucall/admission.py:92-96 | granting a lease adds exactly one to the number of holders under each of its three keys and nothing elsewhere |
| Admission.HeldAfterRemove | gpucall/admission.py:112-119 | removing a lease takes exactly one from each of its keys and nothing elsewhere |
| Admission.GrantedIff | gpucall/admission.py:72-96 | over all configurations and ledgers an acquire is granted if and only if both deadlines have passed and every positive limit exceeds the number held under its key; a refusal names the time left or the first kind whose limit is reached |
| Admission.ApplyKeepsLimits | gpucall/admission.py:72-119 | one acquire, release or suppress keeps every positive limit and keeps families consistent |
| Admission.RunKeepsLimits | gpucall/admission.py:72-127 | after any sequence of calls the holders of a tuple, family or scope do not exceed a positive limit |
| Admission.SuppressionHolds | gpucall/admission.py:75-81 | after a suppression every acquire of the tuple, or of any tuple of the family, before the deadline is refused, whatever calls lie between |
| Admission.SuppressSetsDeadline | gpucall/admission.py:121-127 | a suppress reaches at least now plus the cooldown and never shortens an earlier deadline |
| Admission.TalliesAfterAdd | gpucall/admission.py:92-95 | counters that count the outstanding leases, with no zero entry, still do after an increment |
| Admission.TalliesAfterRemove | gpucall/admission.py:359-364 | and after the decrement that deletes an entry reaching zero |
| Admission.FamilyCounterIsSumOfTuples | gpucall/admission.py:72-119 | each family counter is the sum of its tuples' counters and all tuple counters together are the outstanding leases |
| Admission.AdmissionController.constructor | gpucall/admission.py:40-70 | a new controller has no leases and no suppressions |
| Admission.AdmissionController.Acquire | gpucall/admission.py:72-96 | the answer and the new state are those of the ledger specification: suppressions before limits, tuple before family before scope |
| Admission.AdmissionController.Count | gpucall/admission.py:92-95 | the three counters still count the leases, one more |
| Admission.AdmissionController.Release | gpucall/admission.py:112-119 | no lease: nothing changes; otherwise exactly that lease is gone |
| Admission.AdmissionController.Uncount | gpucall/admission.py:359-364 | the three counters still count the leases, one less, with no zero entry left |
| Admission.AdmissionController.Suppress | gpucall/admission.py:121-127 | the later of the old and the new deadline is kept, for the tuple or its family |
| LeaseTable.RowCountIsHeld | gpucall/admission.py:333-337 | counting rows under a kind and key counts the leases held under it |
| LeaseTable.CountsAgreeIffNoneOutlived | gpucall/admission.py:327-337 | after a purge the row counts equal the counts of all outstanding leases, for every kind and key, if and only if no lease has outlived its TTL |
| LeaseTable.AnswersAgreeIffNoneOutlived | gpucall/admission.py:199-235 | over all configurations, deadlines, tuples and scopes an acquire is answered alike from live and from all outstanding leases if and only if no lease has outlived its TTL |
| LeaseTable.OutlivedLeaseChangesAnAnswer | gpucall/admission.py:215-217 | every outlived lease has a configuration in which purging it turns a refusal into a grant |
| LeaseTable.LeaseTableController.CleanupExpired | gpucall/admission.py:327-330 | exactly the rows and suppressions past their expiry are deleted |
| LeaseTable.LeaseTableController.Acquire | gpucall/admission.py:199-235 | answer and new table are those of the timed ledger: purge, decide, insert |
| LeaseTable.LeaseTableController.Insert | gpucall/admission.py:224-233 | a granted lease gets one row per kind it counts under, with one expiry |
| LeaseTable.LeaseTableController.Release | gpucall/admission.py:248-251 | every row of the lease is deleted and no other |
| LeaseTable.LeaseTableController.Suppress | gpucall/admission.py:256-274 | the later deadline of old row and new is kept |
| LeaseTable.StepAgrees | gpucall/admission.py:199-274 | one punctual call gets the same answer from both controllers and keeps them related, purged suppressions included |
| LeaseTable.TableRefinesCounters | gpucall/admission.py:199-274 | over whole runs with a monotone clock and no lease outliving its TTL, both controllers answer every call alike |
| LeaseTable.OutlivedLeaseIsAdmittedTwice | gpucall/admission.py:199-238 | for every TTL there is a run in which a lease held past it lets a second holder in under limit one |
| AdmissionWait.AcquireWithWait | gpucall/admission.py:98-110 | only in-flight refusals are retried, the last answer is returned, and with sleeps of full length there are at most ceil(wait/0.1)+1 tries |
| Fallback.HandleProblem | gpucall/dispatcher.py:216-358 | each error class suppresses, continues, retries, raises or lets an exception of its own clause escape exactly as the specification's judgement of that problem |
| Fallback.TryOnce | gpucall/dispatcher.py:118-362 | caps, admission (granted, refused or raising), the leased part and the finally block of one inner iteration extend the history as one specified attempt |
| Fallback.RunLeased | gpucall/dispatcher.py:193-362 | from granted lease to the end of finally: same exit and history as specified; the handle is cleaned before the lease is released, and a raising cleanup skips the release |
| Fallback.ExecuteSync | gpucall/dispatcher.py:102-365 | result, attempt counters and whole event history of the nested loop are those of the recursive specification |
| FallbackProperties.BeganCounted | gpucall/dispatcher.py:193-195 | one started attempt keeps the counters equal to the starts in the history |
| FallbackProperties.EntriesKeep | gpucall/dispatcher.py:112-365 | what each attempt keeps, the nested loop keeps |
| FallbackProperties.AttemptCaps | gpucall/dispatcher.py:118-195 | started attempts equal the sum of the family attempts, and both stay within their positive caps |
| FallbackProperties.EveryHandleCleanedEveryLeaseReleased | gpucall/dispatcher.py:161-362 | on every exit path every handle started inside a lease is cleaned and then the lease released; something is still held at the end if and only if the cleanup of an attempt made raised, and then it is the last attempt's |
| FallbackProperties.RaisingCleanupKeepsLease | gpucall/dispatcher.py:516-531 | a successful attempt whose cleanup raises: the success is lost and the lease stays held |
| FallbackProperties.AttemptsMadeExactly | gpucall/dispatcher.py:112-365 | attempt a on entry i is made if and only if it was reached, no cap was used up by earlier attempts, and admission granted it |
| FallbackProperties.LastAttemptDecides | gpucall/dispatcher.py:203-365 | an output is returned exactly when the last attempt succeeded, and another exception escapes exactly when the last attempt let one; success, truncation, an ineligible error or an escaping exception is never followed by another start |
| FallbackErrors.StepHere | gpucall/dispatcher.py:118-358 | one attempt records the error its step has, and raises none but that |
| FallbackErrors.RaisedErrorIsLastFailure | gpucall/dispatcher.py:112-365 | a failed dispatch raises the error of the last failing step of its chain (a failed attempt, in its final form where an output rejection was final, a refused or failing admission, or a used-up family cap), and "no adapter" if no step failed |
| FallbackErrors.BlackoutsExactly | gpucall/dispatcher.py:263-358 | an entry, alone or with its family, is blacked out exactly if an attempt on it was made and failed with a provider error or a timeout that asks for that, or its request for admission timed out |
| FallbackErrors.FallbackTable | gpucall/provider_errors.py:20-105 | which errors let a dispatch go on, which black out the whole family, and which are output rejections, code by code |
| FallbackErrors.FinalForm | gpucall/dispatcher.py:265-291 | the final form of an output rejection keeps its code and is a client error nobody retries |
| FallbackErrors.AtLeastOneAttempt | gpucall/dispatcher.py:763-764 | a plan that asks for no output validation still makes one attempt per entry |
| Stream.Pull | gpucall/dispatcher.py:435-448 | the events yielded are the valid prefix of the provider's events up to where the caller closes or is cancelled, possibly before the first; why it stopped is exact |
| Stream.StreamLeased | gpucall/dispatcher.py:405-507 | one leased entry yields, fails and cleans up as specified on every exit, a raising cleanup included |
| Stream.ExecuteStream | gpucall/dispatcher.py:375-509 | yielded events, verdict and history are those of the stream specification |
| Stream.DeliveredIsFramedPrefix | gpucall/dispatcher.py:738-749 | what is delivered of an attempt is a framed prefix of its events |
| Stream.OneEntryStarts | gpucall/dispatcher.py:405-507 | an entry delivers only if it was started, and falls through to the next only if it delivered nothing |
| Stream.NoSplice | gpucall/dispatcher.py:375-509 | the caller receives framed events of one single attempt from its beginning; a completed stream is that attempt's whole sequence |
| Stream.EveryStreamCleanedUp | gpucall/dispatcher.py:375-509 | on every exit handles are cleaned and leases released, if and only if the cleanup of no attempt made raised; the caps hold |
| StreamChoices.FrameExamples | gpucall/dispatcher.py:738-749 | which frames a caller may see and which not |
| StreamChoices.ValidIsLongest | gpucall/dispatcher.py:738-749 | the framed prefix of a sequence of events is the longest one all of whose events are framed |
| StreamChoices.DeliveredExactly | gpucall/dispatcher.py:436-443 | an attempt delivers its leading framed events, up to the first that is not framed, its end, or as many as the caller stays for |
| StreamChoices.EntryOutcome | gpucall/dispatcher.py:375-509 | what one entry does, in terms of its script |
| StreamChoices.StreamChoosesExactly | gpucall/dispatcher.py:375-509 | an entry is started if and only if it is usable, no cap was used up before it, admission granted it, the caller had not gone and every earlier start delivered nothing and failed softly; a stream completes, is closed or lets an exception escape exactly as its last start says, and otherwise fails with the error of its last failing step |
| StreamChoices.BlackoutsExactly | gpucall/dispatcher.py:449-505 | an entry, alone or with its family, is blacked out exactly if it was started and ended in a provider error or a timeout that asks for that, or its request for admission timed out |
| DispatchMachine.StepKeepsRest | gpucall/dispatcher.py:112-365 | a step of the suspended-and-resumed dispatch leaves what remains to be done equal to the specification's remainder |
| DispatchMachine.FeedKeepsRest | gpucall/dispatcher.py:112-365 | and so does any sequence of steps |
| DispatchMachine.MachineRefinesSpecification | gpucall/dispatcher.py:112-365 | for a script that agrees with the inputs, a dispatch that ends has the specification's verdict, counters and history, however its steps were spread out |
| DispatchMachine.QuestionsShrink | gpucall/dispatcher.py:112-365 | what a dispatch may still ask after a step never includes what the step was told |
| DispatchMachine.ScriptAgrees | gpucall/dispatcher.py:112-365 | the script read off from an uncancelled run agrees with every one of its inputs |
| DispatchMachine.EveryRunMeetsSpecification | gpucall/dispatcher.py:102-365 | every uncancelled run has such a script, and if it ends it has the specification's verdict, counters and history on it |
| World.EffectSound | gpucall/dispatcher.py:152-362 | a dispatch step takes, keeps or drops its lease on the controller exactly as its own position says |
| World.StepKeepsInv | gpucall/dispatcher.py:152-362 | after any step of any dispatch the controller holds exactly the leases the dispatches are inside of, within limits |
| World.PlayKeepsInv | gpucall/dispatcher.py:152-362 | and after any schedule |
| World.LostIffBroken | gpucall/dispatcher.py:503-531 | a step loses a lease exactly when it cancels a dispatch inside its cleanup or that cleanup raises, and a lost lease stays lost |
| World.NoneLostIffNoneBroken | gpucall/dispatcher.py:503-531 | over any schedule no lease is lost if and only if no cleanup was cancelled or raised |
| World.HandlesWithinLimits | gpucall/dispatcher.py:161-208 | in every state of every interleaving, remote handles on a tuple, family or scope never exceed its positive limit, and each lies inside a lease |
| World.NothingHeldIffNoCleanupBroken | gpucall/dispatcher.py:359-362 | once all dispatches have ended the controller is empty if and only if at no step of the schedule the cleanup of a synchronous or streaming dispatch was cancelled or raised |
| World.BrokenCleanupKeepsLease | gpucall/dispatcher.py:503-531 | cancelling a cleanup and its raising are always possible, for either kind of dispatch, and lose that lease for every continuation |
| World.RaisingCleanupLeavesLease | gpucall/dispatcher.py:503-531 | a whole schedule without any cancellation after which a lease is still held |
| World.LostStays | gpucall/dispatcher.py:359-362 | no later step of any dispatch gives a lost lease back |
| World.JobIsItsOwnRun | gpucall/dispatcher.py:102-365 | inside any schedule a dispatch is the run of its own inputs |
| World.InterleavedDispatchMeetsSpecification | gpucall/dispatcher.py:102-365 | a dispatch that is not cancelled and ends inside any schedule has the verdict and history the fallback specification gives for the script its own answers amount to |
| Progress.EveryScriptIsPlayed | gpucall/dispatcher.py:108-365 | for every chain and every answer to every question there is a run of the step machine that ends with the verdict and history of the specification |
| Progress.ScriptedStep | gpucall/dispatcher.py:108-365 | a dispatch that gets its answers never stands still and never goes back |
| Progress.CancellationCloses | gpucall/dispatcher.py:358-361 | a cancellation reaches a dispatch exactly where it awaits something; a started handle is then cleaned and the lease released, unless the cleanup itself is cancelled |
| Progress.EffectIsHistory | gpucall/dispatcher.py:124-361 | a step does to the controller exactly what it adds to the history: takes the lease, blacks out the tuple or its family, or gives the lease back |
| Progress.NobodyIsBlocked | gpucall/dispatcher.py:108-365 | whatever the other dispatches have done, one that has not ended can take a step |
| TimedWorld.AcquireKeepsLimits | gpucall/admission.py:199-235 | an acquire granted from the live rows keeps every limit over the rows |
| TimedWorld.StepKeepsInv | gpucall/admission.py:199-251 | after any step of any dispatch the rows are within limits and each belongs to a dispatch that holds that lease |
| TimedWorld.PlayKeepsInv | gpucall/admission.py:199-251 | and after any schedule, whatever the TTL |
| TimedWorld.HandlesWithinLimitsAndOutlived | gpucall/admission.py:199-251 | in every state of every interleaving over the lease-row controller, the handles exceed a positive limit by no more than those whose lease has outlived its TTL |
| TimedWorld.CompleteIffPunctual | gpucall/admission.py:199-251 | over every schedule the rows are always exactly those of the held leases if and only if no dispatch that asks finds a held lease past its TTL |
| TimedWorld.PunctualHandlesWithinLimits | gpucall/admission.py:199-251 | and then no positive limit is ever exceeded by handles |
| TimedWorld.OutlivedHandlesExceedLimit | gpucall/admission.py:199-235 | for every TTL a schedule of two streams with two handles on a tuple limited to one |
| Jobs.OtherJobsUntouched | gpucall/dispatcher.py:65-77 | a step of one job changes nothing recorded about another |
| Jobs.EndKeepsContract | gpucall/dispatcher.py:579-610 | ending a run settles as its way of ending says |
| Jobs.StepKeepsInv | gpucall/dispatcher.py:556-610 | every step of any process keeps every job's contract |
| Jobs.TaskSteps | gpucall/dispatcher.py:556-610 | what a task can do next in each of its states, both ways |
| Jobs.HandlerSteps | gpucall/dispatcher.py:587-592 | once a cancellation is delivered only the cancellation handler runs |
| Jobs.TaskEnds | gpucall/dispatcher.py:569-610 | an active task ends by exactly these steps, each recorded as what it is, and the job is left alone unless the run or its handler wrote to it |
| Jobs.PlayKeepsInv | gpucall/dispatcher.py:556-610 | and so does every run of any number of gateways |
| Jobs.StepKeepsGuard | gpucall/dispatcher.py:569-610 | a step that is not stray changes no terminal state and leaves no task that could |
| Jobs.StrayStepEndangers | gpucall/dispatcher.py:999-1010 | a stray step (a write over an unseen terminal state, or expiring a job whose task is another process's or cannot be cancelled) changes a terminal state or leaves a task that can |
| Jobs.FinalIffNoStray | gpucall/dispatcher.py:569-610 | over all runs of any number of gateways on one store, with or without the callback, terminal states are final throughout if and only if no step was stray |
| Jobs.TerminalForever | gpucall/dispatcher.py:569-610 | in a run without stray steps a terminal state never changes again |
| Jobs.OneGatewayNeverStrays | gpucall/app.py:322 | a gateway alone on its store, whose reaper has the callback, takes no stray step |
| Jobs.ForeignExpiryIsOverwritten | gpucall/app.py:1208-1213 | with two gateways on one store, a second one's reaper or start-up sweep expires a job the first executes, and the first overwrites EXPIRED with COMPLETED |
| Jobs.ExecutingIsReachable | gpucall/dispatcher.py:556-580 | the state both overwriting runs start from is reachable |
| Jobs.BudgetSettledOnce | gpucall/dispatcher.py:579-635 | over every run of any number of gateways, an ended run settled its budget exactly once if it ended through the try block with no exception between state update and settlement, and never otherwise; by commit if and only if it ended by a result |
| Jobs.CommittedIffCompleted | gpucall/dispatcher.py:580-607 | without stray steps a settled budget is committed if and only if the job ends COMPLETED |
| Jobs.EndsAs | gpucall/dispatcher.py:569-610 | without stray steps a job ends COMPLETED by a result, FAILED by an error, CANCELLED by a cancellation unless it had expired, EXPIRED for a stored plan, and is in none of the first three states otherwise |
| Jobs.CompletedButUnsettled | gpucall/dispatcher.py:582-584 | an exception between the two leaves a COMPLETED job whose budget is never settled |
| Jobs.UnsettledWhileActive | gpucall/dispatcher.py:569-610 | while a run is under way nothing has been settled |
| Jobs.ReaperWithoutCancelOverwrites | gpucall/dispatcher.py:999-1010 | one gateway without a cancel callback: an expired job becomes COMPLETED |
| Jobs.CancelledBeforeFirstStep | gpucall/dispatcher.py:564-567 | a job cancelled before its first step stays QUEUED with its budget unsettled |
| Jobs.JobBoard.SubmitAsync | gpucall/dispatcher.py:556-562 | the new job is QUEUED with a task not yet begun |
| Jobs.JobBoard.CancelJob | gpucall/dispatcher.py:564-567 | a live task of this process is flagged; other processes' tasks and all jobs are untouched |
| Jobs.JobBoard.BeginRun | gpucall/dispatcher.py:569-578 | the part up to `execute_sync`, ending early as EXPIRED for a stored plan |
| Jobs.JobBoard.EndRun | gpucall/dispatcher.py:579-610 | result, error or cancellation: final state, one settlement, task removed |
| Jobs.JobBoard.Expire | gpucall/dispatcher.py:1007-1009 | one job becomes EXPIRED and, given the callback, its task is asked to stop if it is this process's |
| Jobs.JobBoard.ReapOverdue | gpucall/dispatcher.py:999-1010 | exactly the live overdue jobs expire and exactly this process's tasks among them are asked to stop; everything else is unchanged |
| Jobs.JobBoard.RecoverInterrupted | gpucall/app.py:1208-1213 | at start-up every non-terminal job becomes EXPIRED, other gateways' running ones included, and no terminal job changes |
| Evidence.DedupeKeepsElements | gpucall/panopticon.py:614-623 | deduplication loses no finding and invents none |
| Evidence.DedupeDistinct | gpucall/panopticon.py:614-623 | and leaves no duplicates |
| Evidence.DedupeOfDistinct | gpucall/panopticon.py:614-623 | distinct findings are left as they are |
| Evidence.DedupeFindings | gpucall/panopticon.py:614-623 | the loop with its seen set computes that deduplication |
| Evidence.OfDedupe | gpucall/panopticon.py:614-623 | deduplication and selecting a dimension commute |
| Evidence.EarliestExpiryIsLeast | gpucall/panopticon.py:626-628 | the row expiry is the least expiry of a finding that has one, and is attained |
| Evidence.EarliestObservedIsLeast | gpucall/panopticon.py:631-633 | the row observation is not after any finding's |
| Evidence.EvidenceFile.Store | gpucall/panopticon.py:348-413 | all entries are stored in order, or the call fails and the file is unchanged |
| EvidenceProperties.MergedByDimension | gpucall/panopticon.py:384-387 | a mentioned dimension is replaced by the deduplicated new findings, any other is kept as it was |
| EvidenceProperties.StoredRowShape | gpucall/panopticon.py:384-406 | a stored row satisfies the row contract, has no duplicate findings and expires with its earliest finding |
| EvidenceProperties.RowByDimension | gpucall/panopticon.py:361-406 | the same for the whole store of one entry |
| EvidenceProperties.CallByDimension | gpucall/panopticon.py:360-412 | over a whole call, per tuple and dimension |
| EvidenceProperties.StoredDistinct | gpucall/panopticon.py:348-413 | no sequence of stores ever leaves duplicate findings in a row |
| EvidenceProperties.LastWriterWins | gpucall/panopticon.py:348-413 | after any sequence of stores, failing ones included, the findings of a dimension are the deduplicated findings of the last successful store that mentioned it |
| EvidenceProperties.StoreSucceedsIff | gpucall/panopticon.py:359-407 | a row is stored if and only if it is for its own tuple, has an adapter and canonical findings, its kept findings have its adapter, its earliest observation is not after its earliest expiry, and its status claim is supported |
| EvidenceProperties.WellFormedIsStored | gpucall/panopticon.py:348-413 | checked, same-adapter, fully timed input without a status claim is always stored and satisfies the contract |
| EvidenceProperties.TimedSpan | gpucall/panopticon.py:626-633 | over fully timed findings the earliest observation is not after the earliest expiry |
| EvidenceProperties.StoredRowExpiresFirst | gpucall/panopticon.py:387-390 | a stored row never outlives one of its findings that carries an expiry |
| EvidenceProperties.StoredExpiresFirst | gpucall/panopticon.py:348-413 | nor does any row after any sequence of stores |
| EvidenceProperties.StoredExpiry | gpucall/panopticon.py:348-413 | after any sequence of stores a row expires with its earliest finding or, when none carries an expiry, at the deadline of the last successful store of that row |
| EvidenceProperties.LoadsFailClosed | gpucall/panopticon.py:302-345 | over all stores and loads a row is stale exactly when one of its findings has expired or, if none carries an expiry, its last store's deadline has passed; a stale row loads as blocked with an error finding first; a row loaded as live_revalidated has no finding past its expiry |
| EvidenceProperties.KeptFindingKeepsItsLife | gpucall/panopticon.py:384-390 | storing other dimensions keeps a finding, and exactly when its life is not extended: it has an expiry of its own, or a kept or new finding expires by the old deadline, or none carries an expiry and the new deadline is no later |
| EvidenceProperties.UntimedFindingOutlivesItsRow | gpucall/panopticon.py:384-390 | how a life is extended: findings with explicit null times in two dimensions, stored one after the other |
| EvidenceProperties.UntimedRow | gpucall/panopticon.py:388-405 | a row of findings without times stands for the call's TTL, revalidated |
| EvidenceLifetimes.LifetimeTable | gpucall/panopticon.py:17-33 | a day for contracts, an hour for prices, five minutes for everything else |
| EvidenceLifetimes.ShortestIsLeast | gpucall/panopticon.py:607-611 | the lifetime of a row's findings is the least of their dimensions', and attained |
| EvidenceLifetimes.StoredTimes | gpucall/panopticon.py:506-528 | every raw finding of a stored row is in it, observed now unless it says otherwise, and, when neither it nor the call gives a lifetime, expiring after one that is at most that of every dimension in the row and that of one of them |
| EvidenceLifetimes.EmptyRowLifetime | gpucall/panopticon.py:388-389 | a row with nothing found lives five minutes |
| EvidenceContracts.FindingRefusedIff | gpucall/panopticon.py:183-205 | exactly which findings are refused |
| EvidenceContracts.RowRefusedIff | gpucall/panopticon.py:248-275 | exactly which rows are refused |
| EvidenceContracts.TruncTowardZero | gpucall/panopticon.py:259 | whole seconds are cut off toward zero |
| EvidenceContracts.BlankExactly | gpucall/panopticon.py:183-188 | a name is blank exactly if it is made of white space |
| EvidenceContracts.StoredStatusByFindings | gpucall/panopticon.py:577-595 | a stored row is blocked exactly if one of its findings is an error or unavailable stock, revalidated by any other finding, and as claimed or unknown without findings |
| EvidenceContracts.FirstAdapterIs | gpucall/panopticon.py:636-640 | the first adapter is that of the first raw finding that names one |
| EvidenceContracts.AdapterByInput | gpucall/panopticon.py:369-371 | a row belongs to the adapter of the input, else of the first finding that names one, else of the row already there |
| EvidenceContracts.StoredAdapter | gpucall/panopticon.py:369-405 | a stored row has that adapter, and the validator flag of the input or else the old one |
| EvidenceContracts.AcceptedIff | gpucall/panopticon.py:506-528 | exactly which raw findings are accepted for a row, and that besides identity and times only the source of a price is filled in |
| EvidenceContracts.AllAcceptedIff | gpucall/panopticon.py:373-382 | the findings of an entry are accepted exactly if each of them is |
| EvidenceContracts.LoadedFindings | gpucall/panopticon.py:318-345 | a stale row loads under the configured status with one more finding in front, an error naming the expiry, of the price dimension if the row is about prices alone; any other row loads as it is |
| EvidenceContracts.MergedFields | gpucall/panopticon.py:427-442 | a merged row keeps target and adapter, spans the time between the earliest observation and expiry, and has the first validator flag |
| EvidenceMerge.MergedElements | gpucall/panopticon.py:427-432 | the merged findings are the union |
| EvidenceMerge.MergeKeepsContract | gpucall/panopticon.py:430-442 | merging two contract-satisfying rows of one tuple and adapter satisfies the contract |
| EvidenceMerge.MergeIsJoin | gpucall/panopticon.py:427-442 | on status, checked, times and finding set, merging is exactly the join |
| EvidenceMerge.MergeLaws | gpucall/panopticon.py:416-444 | it is commutative, associative and idempotent, and blocked if and only if an input is |
| EvidenceMerge.LoadedKeepsContract | gpucall/panopticon.py:302-345 | a loaded row, stale or not, still satisfies the row contract |
| EvidenceMerge.StaleEvidenceStaysBlocked | gpucall/panopticon.py:416-444 | a stale loaded row merged with any row of its tuple and adapter, in either order, is blocked |
| EvidenceMerge.ValidatorFlagDependsOnOrder | gpucall/panopticon.py:441 | the validator flag agrees in both orders if and only if at most one is set or both are equal |
| EvidenceMerge.MergeAll | gpucall/panopticon.py:416-444 | the loop over any number of rows: contract kept, blocked iff some row is, checked iff some is, union of findings, least times |
| EvidenceMerge.MergeOneMore | gpucall/panopticon.py:427-442 | one more row keeps that description |
| AuditReader.PrependByte | gpucall/audit.py:97-113 | how one more byte in front changes the non-blank lines of a buffer |
| AuditReader.PartialFirstLineIsHarmless | gpucall/audit.py:97-113 | once the buffer holds two non-blank lines, whatever precedes it cannot change the last one |
| AuditReader.ReadLastLine | gpucall/audit.py:97-113 | the chunked backwards reader terminates and returns the last non-blank line of every file, or nothing if there is none |
| AuditReader.LinesOfJoined | gpucall/audit.py:32-49 | splitting what was written line by line gives the lines back |
| AuditReader.LastLineOfJoined | gpucall/audit.py:97-113 | so the reader finds the last appended event |
| AuditReader.LinesOfOne | gpucall/audit.py:97-99 | LF, CRLF or a lone CR ends the line before it |
| AuditReader.LastLine | gpucall/audit.py:97-99 | the end of the file ends its last line |
| AuditReader.BlankExactly | gpucall/audit.py:99 | a line is no event exactly if it is made of tab, LF, VT, FF, CR and space |
| AuditChain.ChainSplit | gpucall/audit.py:51-66 | a trail verifies if and only if both parts do, the second from the first's last hash |
| AuditChain.DepthIsLength | gpucall/audit.py:51-66 | in a verified trail the last hash is as deep as the trail is long |
| AuditChain.SameLastHashSameChain | gpucall/audit.py:51-66 | two verified trails with the same last hash are equal event for event |
| AuditChain.TamperEvidence | gpucall/audit.py:51-66 | and so are two directories, however they are split into files |
| AuditChain.TruncationVerifies | gpucall/audit.py:51-66 | a truncated trail still verifies, but always with another last hash |
| AuditChain.AppendedWhole | gpucall/audit.py:32-49 | an append adds one event, chained to the last hash, at the end of the whole trail, and keeps it verified |
| AuditChain.RotatedParts | gpucall/audit.py:75-95 | where a rotation moves the active file among the rotated ones, over whatever had its name |
| AuditChain.RotationMoves | gpucall/audit.py:75-87 | a rotation moves an active file that holds something, whole, and changes nothing else |
| AuditChain.RotationSoundIffLatest | gpucall/audit.py:75-95 | a rotated trail verifies if and only if the stamp is later than all others; then the history is unchanged |
| AuditChain.Misplaced | gpucall/audit.py:51-66 | a file listed before, or in place of, events it was chained to breaks the chain |
| AuditChain.RunKeepsHistory | gpucall/audit.py:32-95 | any interleaving of appends and rotations with increasing stamps keeps the files equal to the append history and verified |
| AuditChain.AuditTrail.Append | gpucall/audit.py:32-49 | the new event is chained to the directory's last hash, whatever this object had cached |
| AuditChain.AuditTrail.ReadLastHash | gpucall/audit.py:68-73 | the last hash of the active file or else of the newest rotated one |
| AuditChain.AuditTrail.Verify | gpucall/audit.py:51-66 | true if and only if the concatenation of all files is a hash chain from the start |
| AuditChain.AuditTrail.RotateIfNeeded | gpucall/audit.py:75-88 | the active file takes the stamped name if and only if it exists and is at least as large as a positive maximum |
| Costing.RoundUp | gpucall/costing.py:173-175 | rounding up to granules: at least what is needed, less than one granule more, and the least such |
| Costing.BillableIsLeastCover | gpucall/costing.py:169-176 | billable seconds cover the raw seconds and the minimum with the least whole number of granules |
| Costing.BillableMonotone | gpucall/costing.py:169-176 | more raw seconds are never billed less |
| Costing.RuntimeWithinTimeout | gpucall/costing.py:107-131 | every branch stays within the timeout |
| Costing.RatesPairUp | gpucall/costing.py:141-157 | input tokens are worked off at the prefill rate and output tokens at the decode rate, a missing rate being the other one |
| CostTables.RuntimeByThroughput | gpucall/costing.py:134-160 | when a count and a rate are given, the runtime is overhead plus the time the counts take at their own rates, times the multiplier (one if missing or zero), up to the timeout |
| CostTables.RuntimeWithoutThroughput | gpucall/costing.py:115-131 | otherwise it is the tuple's expected runtime, then the recipe's, up to the timeout, then the timeout |
| CostTables.NegativeCountsAreZero | gpucall/costing.py:151-152 | token counts below zero are zero |
| CostTables.ColdByFields | gpucall/costing.py:21 | the tuple's positive cold start, else the recipe's, else none |
| CostTables.BillingTable | gpucall/costing.py:179-192 | each billing model is chosen for exactly these adapters and surfaces |
| CostTables.LowerByAlphabet | gpucall/costing.py:180 | adapter names are compared letter by letter without case |
| CostTables.IdleByFields | gpucall/costing.py:163-166 | idle time is the scale-down window, and none on exactly the serverless routes |
| CostTables.BillableByFields | gpucall/costing.py:169-176 | billed time is the longer of use and minimum, or the least multiple of the granularity that covers both |
| CostTables.CostByFields | gpucall/costing.py:31-60 | each part at its own rate over its own time; the total is the reservation plus the fixed part, and the reservation holds none of it |
| CostTables.SpecRefusedIff | gpucall/domain.py:714-730 | a tuple is refused exactly if some amount it gives is negative |
| Costing.TokenSecondsMonotone | gpucall/costing.py:134-160 | the throughput estimate exists independently of the counts and grows with them |
| Costing.RuntimeMonotone | gpucall/costing.py:107-160 | so does the runtime |
| Costing.CostMonotone | gpucall/costing.py:10-95 | reservation and total grow with input and output tokens; fixed, cold-start and idle cost do not depend on them |
| Costing.ReservationBound | gpucall/costing.py:20-53 | the reservation is at most rate times (max(cold + timeout + idle, minimum) + granularity) |
| Costing.PartsWithinReservation | gpucall/costing.py:26-60 | cold, runtime and idle cost add up to at most the reservation, which is the total less the fixed cost |
| CostGate.AcceptedRespectsCaps | gpucall/cost_policy.py:7-92 | an accepted estimate respects, for each cap, the recipe's value or else the operator's |
| CostGate.SmallerRequestStaysAccepted | gpucall/cost_policy.py:34-92 | acceptance is downward closed in tokens |
| CostGate.StricterAcceptsLess | gpucall/cost_policy.py:34-92 | lowering set caps, and adding caps beside a set one, only refuses more |
| CostGate.AcceptsIff | gpucall/cost_policy.py:59-92 | the gate accepts exactly the estimates within three bounds, the total's being its cap or else the threshold, with fresh prices where demanded |
| CostGate.NeverLooserIff | gpucall/cost_policy.py:34-92 | one policy never accepts what another refuses, over every estimate, if and only if its three bounds are at most as high and it insists on fresh prices if the other does |
| CostGate.FirstCapAcceptsMoreIff | gpucall/cost_policy.py:51-92 | exactly which refused estimates a first cap lets through |
| CostGate.FirstCapCanAccept | gpucall/cost_policy.py:77-90 | a concrete such estimate under the defaults |
| Ordering.SortedAscending | gpucall/compiler.py:465-466 | sorting by key is an ascending arrangement of the same elements |
| Ordering.LexConcat | gpucall/compiler.py:465-466 | a composite key orders by its first part and then by its second |
| Ordering.AscendingUnique | gpucall/compiler.py:465-466 | under an injective key there is only one ascending arrangement |
| Ordering.SortedForgetsOrder | gpucall/compiler.py:465-466 | so sorting does not depend on the order of its input |
| Routing.EligibleIsSelection | gpucall/compiler.py:519-568 | eligible are exactly the named candidates that pass every gate, each once |
| Routing.EligibleTuples | gpucall/compiler.py:519-568 | the loop with its seen set computes that selection in candidate order |
| Routing.BlockLength | gpucall/compiler.py:450-463 | the first block of equal fit is as long as it can be |
| Routing.BlockDone | gpucall/compiler.py:455-463 | closing a block ranks exactly that block |
| Routing.RankByFit | gpucall/compiler.py:447-463 | for any fit key and any ranking, the grouping loop is the concatenation of ranked blocks |
| Routing.RankIs | gpucall/registry.py:153-163 | ranking a group keeps exactly its available members |
| Routing.RankedIs | gpucall/compiler.py:433-445 | an unrequested chain holds exactly the catalog's tuples that pass every gate and are available |
| Routing.ChainIsRoutable | gpucall/compiler.py:422-445 | a chain is never empty and names only catalog tuples |
| Routing.GateSeesAttestedEstimate | gpucall/compiler.py:635-674 | the inputs the gate computes on its own give exactly the estimate a plan for the tuple attests |
| Routing.SelectRecipe | gpucall/compiler.py:293-322 | the two loops compute the specified choice or error |
| RoutingProperties.ChainForgetsCatalogOrder | gpucall/compiler.py:422-445 | the chain does not depend on the dictionary order of the tuples |
| RoutingProperties.RecipeForgetsCatalogOrder | gpucall/compiler.py:293-322 | nor does the recipe choice, when no two recipes share a name |
| RoutingProperties.NamedForgetsOrder | gpucall/compiler.py:275-285 | nor does the lookup of a named recipe |
| RoutingProperties.CompileForgetsCatalogOrder | gpucall/compiler.py:160-291 | nor does a compilation, whether the request names its recipe or not |
| RoutingProperties.ChosenRecipeIsLeast | gpucall/compiler.py:316-322 | the choice is the least acceptable recipe that can be served, or the least acceptable one if none can |
| RoutingProperties.FirstServingIs | gpucall/compiler.py:317-321 | the loop's choice is the first recipe in key order with an eligible tuple |
| RoutingProperties.GroupsAscend | gpucall/compiler.py:447-463 | for any ranking that returns a duplicate-free selection, so does the grouping, with fit keys ascending |
| RoutingProperties.RankPair | gpucall/registry.py:157-163 | inside a group, ranking orders by score and then by name |
| RoutingProperties.RankSelects | gpucall/registry.py:153-163 | the registry's ranking is a duplicate-free selection |
| RoutingProperties.BlocksAscendGlobally | gpucall/compiler.py:447-487 | the ranked chain ascends in fit, then score, then name |
| RoutingProperties.GroupedRankingIsOneSort | gpucall/compiler.py:447-487 | ordering, grouping and ranking together are one sort of the available eligible tuples by fit, observed score and name |
| RoutingOrder.ChainOrderByData | gpucall/compiler.py:447-517 | of two members of an unrequested chain the earlier one is preferred by the tuples' own data: local first for small requests and remote for large ones, then fewer malformed outputs, better reliability, less memory, less spare context, lower reservation, higher success rate, lower latency, lower cost per success, name |
| RoutingOrder.ChosenRecipeByData | gpucall/compiler.py:316-366 | no other acceptable recipe that could be served is preferred to the chosen one by quality, classification, memory, context and name, nor any other at all when the chosen one cannot be served |
| RoutingOrder.CodesOrderNames | gpucall/compiler.py:465-466 | names compare by their first differing character |
| RoutingProperties.PlanWithKeepsCaps | gpucall/compiler.py:422-674 | for any recipe, a plan without a requested tuple attests the estimate of the first tuple of its chain; that estimate, and that of every fallback tuple, is within the caps in force; the plan fits its context and its lease |
| RoutingProperties.PlanKeepsCaps | gpucall/compiler.py:160-291 | the same for every compiled plan without a requested tuple, its recipe named or selected |
| RoutingProperties.RequestedTupleSkipsGate | gpucall/compiler.py:423-431 | a requested tuple's chain is the same under every cost policy |
| RoutingProperties.CapRefusalIff | gpucall/cost_policy.py:59-76 | the gate refuses a tuple for a cap exactly when the estimate a plan would attest is over one |
| RoutingProperties.PlanWithinCapsIff | gpucall/compiler.py:422-431 | under every policy, a compiled plan is within its caps if and only if no tuple was requested or the gate it skipped would not have refused that tuple for a cap |
| RoutingProperties.RequestedPlanOverCap | gpucall/compiler.py:423-431 | for every cap, a request by tuple name that compiles to a plan over it, and is refused without the name |
| RoutingProperties.RejectionsExplainChain | gpucall/compiler.py:570-605 | a tuple is in the chain exactly when no rejection is reported for it |
| KeyedLock.StepKeepsInv | gpucall/app_helpers.py:415-435 | after any step every task that holds or waits does so on the object in the dictionary, all other objects are idle, there is one holder at most and no wake-up is owed |
| KeyedLock.LeaveKeepsInv | gpucall/app_helpers.py:429-435 | leaving keeps it, because the entry is taken away only when nobody waits on its object |
| KeyedLock.MutualExclusion | gpucall/app_helpers.py:415-435 | over every run and across all lock objects ever made for a key, at most one task is inside the body, and whoever holds or waits does so on the dictionary's object |
| KeyedLock.SomeoneCanResume | gpucall/app_helpers.py:415-435 | no wake-up is lost: any open lock object with waiters has a first waiter that can resume |
| KeyedLock.HolderHasTheEntry | gpucall/app_helpers.py:433-435 | a holder's object is the dictionary's, so the source's identity test always succeeds |
| KeyedLock.WhoCanStep | gpucall/app_helpers.py:415-435 | which tasks may enter, leave, be cancelled and resume, both ways |
| KeyedLock.EntryLeftBehindIff | gpucall/app_helpers.py:415-435 | an entry nobody uses appears exactly when the last task using the key was cancelled while it waited |
| KeyedLock.LastLeaveReclaims | gpucall/app_helpers.py:429-435 | leaving removes the entry exactly when nobody else holds or waits |
| KeyedLock.CancelledWaiterLeavesEntry | gpucall/app_helpers.py:428-435 | a run that leaves an entry behind |
| KeyedLock.NextUserReclaims | gpucall/app_helpers.py:428-435 | the next user of the key passes at once and removes it |
| KeyedLock.WithoutWaiterTestTwoInside | gpucall/app_helpers.py:431-435 | without the test of the waiters two tasks are inside at once, on two objects of one key |
| KeyedLock.LockTable.EnterBody | gpucall/app_helpers.py:424-426 | looking up or making the object and acquiring it, as the machine's step; other keys' entries are untouched |
| KeyedLock.LockTable.LeaveBody | gpucall/app_helpers.py:429-435 | releasing, then removing the entry if it is this object, open and without waiters, as the machine's step; other keys' entries are untouched |
| KeyedLock.LockTable.ResumeWait | gpucall/app_helpers.py:426 | a woken task enters, a cancelled one hands the wake-up on |
| KeyedLock.LockTable.CancelWait | gpucall/app_helpers.py:426 | a waiting task is marked cancelled and keeps its place until it runs |
| Idempotency.PhaseKept | gpucall/app_helpers.py:438-505 | a step of one request keeps what is known of every other |
| Idempotency.PhaseSteps | gpucall/app.py:722-803 | what a request does next in each of its phases, both ways |
| Idempotency.StepKeepsInv | gpucall/app.py:722-803 | one reservation holder and one stored success at most, after any step |
| Idempotency.AtMostOneExecution | gpucall/app.py:722-766 | over every run and any number of processes one key has one execution in flight, one success, and replays return exactly that success |
| Idempotency.NeverExecutesAgain | gpucall/app.py:727-750 | after a stored success nothing executes again; the same body is replayed, another is refused |
| Idempotency.PendingIff | gpucall/app.py:767-803 | a key is pending if and only if an execution is in flight or ended without its release having run |
| Idempotency.RunAbandons | gpucall/app.py:773-803 | executions end without a release exactly at cancellations, raising refunds and raising releases |
| Idempotency.StuckIffReleaseSkipped | gpucall/app.py:773-803 | over every run, once no execution is in flight, the key is stuck if and only if at some step an execution was cancelled, its handler's refund raised before the release, or the release raised |
| Idempotency.RaisingRefundBlocks | gpucall/app.py:778-803 | a run without any cancellation that leaves the key stuck |
| Idempotency.OthersRowStays | gpucall/app_helpers.py:475-505 | storing and releasing concern the caller's own pending row alone, and a release takes no stored result away |
| Idempotency.AbandonedBlocksForever | gpucall/app.py:773-803 | an execution that ended without its release blocks the key for the rest of every run |
| Idempotency.IdempotencyStore.ReserveKey | gpucall/app_helpers.py:461-472 | the first reservation of a key wins, atomically |
| Idempotency.IdempotencyStore.StoreResult | gpucall/app_helpers.py:475-494 | only a free key or the caller's own pending row is completed |
| Idempotency.IdempotencyStore.ReleaseKey | gpucall/app_helpers.py:497-505 | only the caller's own pending row is removed |
| RateLimit.RecentOfRecent | gpucall/app.py:524 | filtering a window early changes no later filtering |
| RateLimit.WindowDecides | gpucall/app.py:524 | the stored window has as many stamps as there were admissions in the last minute |
| RateLimit.WindowBound | gpucall/app.py:524-528 | no sixty-second window, wherever it starts, contains more admissions than the limit they were made under |
| RateLimit.OneMore | gpucall/app.py:524-528 | recording an admission keeps windows faithful to the full history |
| RateLimit.StaleDropped | gpucall/app_helpers.py:513-516 | dropping stale identities changes no present or later decision |
| RateLimit.StaleIff | gpucall/app_helpers.py:514 | an identity is stale exactly if no decision can use its window any more: each of its stamps is sixty seconds old |
| RateLimit.LatestIs | gpucall/app_helpers.py:519 | the stamp by which identities are evicted is the newest of the window |
| RateLimit.OneEvicted | gpucall/app_helpers.py:517-521 | evicting one identity leaves every other faithful |
| RateLimit.NeverMoreThanRpm | gpucall/app.py:512-531 | an identity never evicted has no more admissions at times t with from <= t < from + 60, for any from, than the largest limit it was admitted under |
| RateLimit.RateLimiter.Admit | gpucall/app.py:512-531 | an identity never evicted is admitted if and only if fewer than its limit of its admissions were less than sixty seconds ago; the dictionary never exceeds its maximum |
| RateLimit.RateLimiter.Prune | gpucall/app_helpers.py:513-521 | stale identities go, then only as many of the longest-quiet as needed |

## Left out

- Adapters, HTTP, the object store, artifact reclaim, provisioning, cost audits, CLI, MCP server and reports: foreign calls and assembly.
- SQL text and transactions: a lease table is a set of rows and an advisory-locked block is one step; a `to_thread` call cancelled after its commit is not modelled.
- Files as such: an audit file is a sequence of events, and its bytes appear only in `AuditReader`; JSON, regular expressions and pydantic coercion are not part of this model.
- Streams inside `World` are represented by their lease events, in any order the discipline proved in `Stream` allows, and by their awaited cleanup; a cancellation inside the cleanup is modelled there and not in `Stream`.
- Stream.EveryStreamCleanedUp: does not cover a cancellation inside the cleanup itself; `World.NothingHeldIffNoCleanupBroken` does.
- A cancellation inside `release` or inside an `except` clause, and a database call that fails inside the lease-row controller's `release`.
- An audit write or attempt record that raises while no lease is held (plan accepted, fallback exhausted, admission rejected): the dispatch ends with that exception and nothing held.
- `_row_from_loaded_or_input` after a failed validation, legacy price rows, and the `details` and `raw` parts of findings.
- Expiry and eviction in the idempotency store, and what a size-evicted identity may do to the rate limiter.
- A store operation that raises after it took effect (an idempotency reservation whose pruning fails, a job update), and an audit write that raises inside `submit_async` between creating the job and creating its task.
- The budget ledger behind commit, release and refund; the model counts the settlements of asynchronous runs only.
- Route, request and validation checks, token estimates, observed scores and circuit breakers are arbitrary functions in `Routing`; a breaker that changes state while being asked is not modelled.
- Adapter names are lower-cased for ASCII letters only, and blank names are judged by the white space of Latin-1.
- The configuration loader already refuses two recipes with one name, which is what `RecipeForgetsCatalogOrder` asks for.
