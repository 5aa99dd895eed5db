# Shared-state protocol of the decentralised swarm

Many workers drive a small set of durable state machines at once. They crash, act on stale clock readings and hold
leases that have expired or been superseded. This project models those machines and proves what they promise over
every run.

Each machine appears up to four times:

* a *model* module gives the tables as a value and every transaction as a function on it, branch for branch and error
  for error (`TaskModel`, `BudgetModel`, `FaultLog`, `BreakerModel`, `PheromoneModel`, `TopologyModel`);
* a *class* gives the program's own form, fields updated in place and loops over rows, with each method proved to
  commit exactly what the model function says (`TaskLedger`, `BudgetLedger`, `FaultObservationStore`,
  `SharedBreaker`, `PheromoneField`, `TopologyEngine`, `CandidateChain`, `Target`);
* a *theorems* module closes the model under interleaved steps of any number of workers, crashes and the passage of
  time, proves an inductive invariant once, and reads the promises off it (`TaskInvariant`, `TaskSafety`,
  `TaskTheorems`, `BudgetSafety`, `BreakerSafety`, `BreakerTheorems`, `TopologyTheorems`, `PheromoneTheorems`);
* an *outcomes* module says what each transaction answers and leaves behind without naming the model's own branches:
  in the columns of the tables, over any selection of rows, or as a sum over all facts (`TaskOutcomes`, `TaskHistory`,
  `BudgetAnswers`, `BreakerOutcomes`, `PheromoneMeaning`, `TopologyOutcomes`).

`Runs` holds the one induction over runs that all of them share. `FaultCodec` is a concrete encoding of log records: it
meets every condition the log theorems put on an encoding.

The machines:

* **Task ledger.** Tasks with dependencies and path scopes; leases with an expiry and a fencing token; attempt limits;
  a marker for a begun, unconfirmed request; a submit in two transactions with the publication callback between them.
  A crash between the two leaves the task `submitting`. One transaction is one step; a crash inside it is no step.
* **Budget ledger.** Cumulative admission with holds that are never released, a sliding burn window and a latched stop.
  Every worker's clock reading may be older than the commit it is used in.
* **Failure log and breaker.** An append-only file of lines with a rebuildable index, torn writes included; windowed
  aggregates; a four-state breaker per provider and reason with one token-fenced probe slot; a recovery boundary that
  ties breaker and log together while every worker's window may be arbitrarily stale.
* **Candidate chain.** One worker's processing of one task over the real budget object, with other workers'
  transactions in between and every outside answer nondeterministic. `ChainProtocol` says which effects may follow
  which, and what that order implies; `ChainScripts` says which effects and records the outside answers make due;
  `ChainHolds` follows the worker's pending rows. The class is proved to do exactly what is due.
* **Derived preferences, publication, topology, router.** The projection of feedback facts, all-or-nothing file
  replacement with rollback, link weights over all runs, and the exploration floor of the selection probabilities.

Where the promise is false of the code:

* The claim guard compares `scope || separator` with the other scope. For the filesystem root this doubles the
  separator, so the root never blocks a scope below it, although `docs/SWARM_ENVIRONMENT.md:41` says parent and child
  scopes collide. `Scopes.GuardAgreesExactly` gives the exact condition, `TaskTheorems.ScopeExclusion` the exact
  consequence for live tasks, and `TaskTheorems.RootIsNotExcluded` a reachable state that shows it.
* A link's weight has no bound when the configured decay is zero, which the policy allows.
  `TopologyTheorems.WeightsAndFeedback` gives the bound for positive decay and `TopologyTheorems.AnyBoundIsExceeded`
  a run past any bound without it.
* Two facts under one source identity make the projection depend on their order, exactly when they differ in task,
  worker, pipe or time (`PheromoneTheorems.ConflictingFacts`); `synchronize` refuses such facts, so its own tables
  never do.
* A processing attempt can leave its reservation pending although the last clean-up means to close every open hold
  (`swarm/worker_loop.py:1102-1106`). It does if and only if an admitted candidate left its hold open (its own
  clean-up or settlement read a clock behind the reservation, or the status file failed first) and then the renewal
  thread does not end, which raises first, or the clock is behind the reservation, so that the ledger refuses to settle
  (`CandidateChains.CandidateChain.Process`). `CandidateChains.LeavesPending` is a concrete run that leaves a row.
* A renewed-over lease is not fenced for good: it owns its task again when a later renewal of the same token writes
  exactly its expiry, and only then (`TaskTheorems.RenewalsDecideOwnership`, `TaskTheorems.RenewedBackOwnsAgain`).
* The undo of a publication skips a file that was replaced when the exception came before the note of it. For a
  validated candidate the entry state is restored if and only if that did not happen
  (`Publication.Target.Apply`, `Publication.LeftBehindDiffers`, `Publication.UnrecordedWriteStays`).

Money, weights and probabilities are exact reals. Decay is any function with `d(0) = 1`, `0 < d <= 1` and
`d(a + b) = d(a) * d(b)`; the softmax exponential any positive, monotone function that is one at zero.

## Model

| member | source | states |
|---|---|---|
| Scopes.ComponentsOfRender | swarm/task_ledger.py:21-25 | a canonical scope is the text of its components: rendering and parsing are inverse |
| Scopes.GuardAgreesExactly | swarm/task_ledger.py:28-30 | the claim guard's text-prefix test decides as the component-wise collision test if and only if the scopes are equal or neither is the root |
| Scopes.RootEscapesTheGuard | swarm/task_ledger.py:263-266 | the root collides with every other scope, and the guard never says so |
| Scopes.AuthorizesExactlyBelow | swarm/task_ledger.py:232-254 | the locality filter accepts exactly the scopes at or below an authorized path, the root included |
| TaskInvariant.StepChanges | swarm/task_ledger.py:177-513 | every ledger transaction changes nothing, inserts one fresh task, counts one duplicate, or edits one task together with at most one attempt row and one audit row under the safety conditions |
| TaskInvariant.ChangeKeeps | swarm/task_ledger.py:177-513 | each such change keeps rows, attempts, dependencies, exclusion, markers and tokens consistent, also when the clock advances |
| TaskSafety.RunKeeps | swarm/task_ledger.py:177-513 | every run of interleaved operations, crashes and time keeps the invariant, and task rows only move forward |
| TaskTheorems.ScopeExclusion | swarm/task_ledger.py:256-341 | in every reachable state two live tasks collide if and only if exactly one of them is the filesystem root |
| TaskTheorems.RootIsNotExcluded | swarm/task_ledger.py:256-317 | a reachable state in which two live tasks collide |
| TaskTheorems.DependencyClosure | swarm/task_ledger.py:182-225 | dependencies are acyclic, and a task that was ever claimed has all transitive dependencies completed, then and after any further run |
| TaskTheorems.CallbackAtMostOnce | swarm/task_ledger.py:478-505 | over every run the publication callback of a task begins at most once |
| TaskTheorems.TerminalRowsAbsorb | swarm/task_ledger.py:417-513 | completed, failed and blocked rows never change; a submitting row can only complete |
| TaskTheorems.ResubmissionIsIdempotent | swarm/task_ledger.py:478-490 | after any run an identical resubmission replays the stored result and a different one conflicts, changing nothing |
| TaskOutcomes.SubmitStores | swarm/task_ledger.py:478-498 | a submission is taken if and only if its lease owns an unexpired claim; it stores its own result id and body in their columns and, without a publication, completes the task and its attempt |
| TaskOutcomes.PublishStores | swarm/task_ledger.py:499-513 | a publication completes if and only if its lease holds before and after a callback that returns, with its own result id and body; else nothing changes |
| TaskOutcomes.StoredResultReplays | swarm/task_ledger.py:484-491 | a stored result stays along every run; the submission that stored it replays, any other under its lease conflicts, and neither changes the tables |
| TaskHistory.ReplaysExactly | swarm/task_ledger.py:484-491 | a submission replays if and only if it is the stored one, and conflicts if and only if its lease completed the task with another identifier or body |
| TaskOutcomes.FinishedReplays | swarm/task_ledger.py:478-498 | a submission that finished replays after any further run |
| TaskOutcomes.PublishedReplays | swarm/task_ledger.py:478-513 | a submission whose publication returned replays after any further run |
| TaskTheorems.UnownedIsPowerless | swarm/task_ledger.py:319-368 | no holder operation of a lease that does not own its task changes the tables |
| TaskTheorems.ClaimGrants | swarm/task_ledger.py:256-317 | a successful claim leaves its lease owning the task under the next token, all dependencies completed, and no live scope that meets the guard |
| TaskOutcomes.ClaimedExactly | swarm/task_ledger.py:256-308 | a claim is granted if and only if arguments and run limits allow it, the task is in reach and unheld, has attempts left and no open request, all dependencies are completed, and no other busy task has a colliding scope (root apart) |
| TaskOutcomes.ClaimLeaves | swarm/task_ledger.py:309-317 | a granted claim changes status, attempts, token, owner and expiry of its task, keeps its results, and touches no other |
| TaskOutcomes.ClaimAttempts | swarm/task_ledger.py:306-316 | it opens its own token's attempt, closes an expired holder's as expired under that holder, and leaves every other attempt alone |
| TaskTheorems.StaleLeaseIsFencedForever | swarm/task_ledger.py:319-341 | a superseded, expired or closed lease stays powerless along every run |
| TaskTheorems.ClaimFencesEarlier | swarm/task_ledger.py:291-317 | a claim makes every lease of an earlier token of its task powerless along every later run |
| TaskTheorems.RenewalsDecideOwnership | swarm/task_ledger.py:319-341 | after any run a lease of the held token owns its task if and only if the token is still held, owner and scope match, it has not expired, and its expiry is the last renewal's, or the original one if there was none |
| TaskTheorems.RenewedOverIsFenced | swarm/task_ledger.py:319-341 | a renewed-over lease is powerless after every run whose last renewal of its token wrote another expiry |
| TaskTheorems.RenewedBackOwnsAgain | swarm/task_ledger.py:319-341 | a reachable state and one renewal after which a powerless lease owns its task again |
| TaskTheorems.AttemptAccounting | swarm/task_ledger.py:296-317 | attempts equal the token, attempt rows carry exactly tokens 1 to token, a row is open if and only if it is the current token's and the task is held, that row belongs to the owner, and both limits hold |
| TaskHistory.RowsExplainThemselves | swarm/task_ledger.py:182-513 | in every reachable state a failed task has used its attempts with nothing open, a blocked one has an open request or too many condition failures, completed and submitting ones hold their result, owners and expiries are there exactly while held or completed, counters equal their events, and the limits hold |
| TaskOutcomes.GivingUp | swarm/task_ledger.py:361-415 | release and failure are taken exactly from the owner; the task goes behind its open request, to its end, or back into the queue, and the attempt is closed under its own outcome |
| TaskOutcomes.HandingOff | swarm/task_ledger.py:450-476 | a handoff is taken exactly from the owner for another named worker; a kept partial result replaces the one before, none leaves it |
| TaskOutcomes.Renewing | swarm/task_ledger.py:329-341 | a renewal is taken exactly from the owner and moves the expiry only |
| TaskOutcomes.Beginning | swarm/task_ledger.py:370-391 | a request begins exactly for an owner without an open one while fewer than the limit ever began; it is then the open one |
| TaskOutcomes.Confirming | swarm/task_ledger.py:393-401 | a confirmation is taken exactly from the owner for the open request, and closes it |
| TaskHistory.KnownTask | swarm/task_ledger.py:192-201 | a known identifier is answered with itself exactly when the request repeats the task |
| TaskHistory.SeenEvidence | swarm/task_ledger.py:202-212 | evidence seen before creates no task and is counted on the one it created, whose scope it must name |
| TaskHistory.NewTasks | swarm/task_ledger.py:213-230 | a new task is taken exactly when the run has room and it refers to known tasks; it waits untouched, and is what its evidence created |
| TaskHistory.CountingConditions | swarm/task_ledger.py:426-448 | only an unheld, unended task is counted, and blocked once the count reaches the limit |
| TaskTheorems.NoResend | swarm/task_ledger.py:256-401 | once a request has begun, every later claim or begin of its task comes after the confirmation of that same request |
| TaskTheorems.BeginsAndConfirmsAlternate | swarm/task_ledger.py:370-401 | begin and confirm events of a task alternate with matching ids, and the row's marker is the one left open |
| TaskTheorems.RequestIdsNeverRepeat | swarm/worker_loop.py:847-848 | request ids built under two different claims never coincide, whatever the indices |
| TaskTheorems.BegunIdsAreDistinct | swarm/worker_loop.py:845-866 | when begins use ids built from task, token and an index fresh since the last claim, all begins of any run carry distinct ids |
| RequestIds.RequestIdInjective | swarm/worker_loop.py:847-848 | the id text `task:token:index` determines task, token and index |
| TaskLedgers.TaskLedger.Enqueue | swarm/task_ledger.py:177-230 | commits the model's enqueue: replay, conflict, duplicate evidence, limits, fresh row |
| TaskLedgers.TaskLedger.Claim | swarm/task_ledger.py:291-317 | commits the model's claim: eligibility, expired attempt closed, token and attempt advanced |
| TaskLedgers.TaskLedger.Renew | swarm/task_ledger.py:329-341 | commits the model's renewal, or none when the lease is fenced |
| TaskLedgers.TaskLedger.Release | swarm/task_ledger.py:361-368 | commits the model's release |
| TaskLedgers.TaskLedger.Begin | swarm/task_ledger.py:370-391 | commits the model's begin: one unconfirmed request, execution limit counted over the audit rows |
| TaskLedgers.TaskLedger.Confirm | swarm/task_ledger.py:393-401 | commits the model's confirmation |
| TaskLedgers.TaskLedger.Fail | swarm/task_ledger.py:408-424 | commits the model's failure and closes the attempt |
| TaskLedgers.TaskLedger.RecordConditionFailure | swarm/task_ledger.py:426-448 | commits the model's condition failure |
| TaskLedgers.TaskLedger.Handoff | swarm/task_ledger.py:450-476 | commits the model's handoff to the named worker with a new token |
| TaskLedgers.TaskLedger.Submit | swarm/task_ledger.py:478-498 | commits the model's first submit transaction |
| TaskLedgers.TaskLedger.Publish | swarm/task_ledger.py:499-513 | commits the model's second submit transaction around the callback |
| BudgetSafety.SpendingBound | swarm/budget.py:192-195 | with admission enabled reservations never exceed the budget, and while no stop is latched committed money equals them |
| BudgetSafety.CommitmentsAreForGood | swarm/budget.py:282-323 | committed money never decreases along a run and a row that left pending is final |
| BudgetSafety.SettlingAboveReservation | swarm/budget.py:282-323 | a settlement above its reservation means a token bound was broken, and leaves a latched stop |
| BudgetAnswers.FirstSettlementStores | swarm/budget.py:287-311 | a first settlement stores its usage and charges no less than was held and estimated, or keeps the whole hold where usage or price is unknown; no other row changes |
| BudgetAnswers.LaterSettlementsChangeNoRow | swarm/budget.py:282-290 | a later settlement changes no row and is refused exactly when both usages are known and differ; a first one exactly when the clock is behind |
| BudgetAnswers.RejectionHolds | swarm/budget.py:230-250 | a rejection without usage holds its row and stops nothing |
| BudgetAnswers.StopsExactly | swarm/budget.py:252-323 | a stop is latched after a settlement if and only if one was or the settlement calls for one; the latched reason is one of these and outranked by none |
| BudgetAnswers.StopsOnlyEscalate | swarm/budget.py:252-258 | along every run a latched stop stays, and only a reason that outranks it takes its place |
| BudgetSafety.OverrunIsLatched | swarm/budget.py:252-258 | whenever some row commits more than it reserved, a stop is latched |
| BudgetSafety.OverrunNeedsBreach | swarm/budget.py:67-75 | by monotone pricing an estimate above the reservation needs more tokens than the bound |
| BudgetSafety.LatchedStopAdmitsNothing | swarm/budget.py:171-173 | once a stop is latched no run ever admits another reservation |
| BudgetSafety.BurnRateHolds | swarm/budget.py:90-101 | while no stop is latched no worker's burn in any window ending now or later exceeds the rate, whatever stale readings were used |
| BudgetAnswers.RateHoldsForAnyRequests | swarm/budget.py:182-191 | while no stop is latched, any distinct requests of one worker that are open, or closed within a window ending now or later, used or may use no more tokens than the rate |
| BudgetAnswers.RateRefuses | swarm/budget.py:90-101 | no reservation is admitted on top of requests with which it would exceed the rate |
| BudgetAnswers.AdmittedExactly | swarm/budget.py:131-204 | a request is admitted in a reachable state if and only if parties and bound are valid, the run has room, no stop is latched, it is new, the rate leaves room, and the reservations with its own stay within the budget |
| BudgetAnswers.BoundRefusals | swarm/budget.py:136-158 | a bound is refused for what is wrong with it |
| BudgetAnswers.AdmissionRefusals | swarm/budget.py:163-194 | a request is refused for what stands against it: a run limit, the latched stop, the worker's rate, its own repetition, or the budget |
| BudgetAnswers.AdmittedRow | swarm/budget.py:195-204 | an admitted request is one more pending row that holds its amount, and nothing else changes |
| BudgetAnswers.HoldsExactly | swarm/budget.py:136-158 | the policy takes a bound at exactly one amount: a verified ceiling that covers the price, or the allowance, raised to the price |
| BudgetAnswers.EstimateIsPriced | swarm/budget.py:67-75 | the estimate is the linear function that charges a million tokens of each kind its price |
| BudgetSafety.OneRequestInFlight | swarm/budget.py:174-181 | request ids are never reused and a task has at most one pending request |
| BudgetLedgers.BudgetLedger.WorkerBurn | swarm/budget.py:182-191 | the accumulating loop computes the windowed burn |
| BudgetLedgers.BudgetLedger.Totals | swarm/budget.py:77-88 | the accumulating loop computes admitted money, open holds and estimates |
| BudgetLedgers.BudgetLedger.Reserve | swarm/budget.py:131-204 | commits the model's reservation or refuses for the model's reason, in the model's order |
| BudgetLedgers.BudgetLedger.Settle | swarm/budget.py:260-324 | commits the model's settlement, replay or conflict |
| BudgetLedgers.BudgetLedger.MarkUnknownRejection | swarm/budget.py:230-250 | commits the model's hold for a rejection without usage |
| FaultLog.ScanDistinct | swarm/fault_observations.py:166-197 | scanned records have distinct keys and identities, so a rebuild never violates the index's uniqueness |
| FaultLog.FirstValidWins | swarm/fault_observations.py:166-197 | a line is on record if and only if it is valid and no earlier line on record has its request attempt or its observation |
| FaultLog.DecidesExactly | swarm/fault_observations.py:280-308 | an observation conflicts when its attempt is on record with other facts or its identifier under another attempt, and is new when neither is on record |
| FaultLog.IndexDecidesAsScan | swarm/fault_observations.py:289-308 | deciding by the index equals deciding by a full first-valid-wins scan |
| FaultLog.AppendAddsExactlyOne | swarm/fault_observations.py:280-323 | an accepted append makes the scanned records the old ones and exactly the new one, past a sealed torn line; otherwise the file is unchanged |
| FaultLog.TornAddsAtMostOne | swarm/fault_observations.py:309-320 | a write torn at any byte adds nothing or exactly the new record |
| FaultLog.AppendRefinesScan | swarm/fault_observations.py:245-323 | after any run of appends, torn writes and lost indexes, an append decides as the scan does and adds exactly its record |
| FaultLog.RetryRecordsOnce | swarm/fault_observations.py:280-323 | repeating an append after a crash at any byte leaves the observation recorded exactly once |
| FaultCodec.PlainIsOk | swarm/fault_observations.py:28-63 | for every time resolution there is an encoding of all facts timed in it that meets the conditions of the log theorems |
| FaultStores.FaultObservationStore.ReadAll | swarm/fault_observations.py:166-197 | the scanning loop returns the first-valid-wins records and names every other line as invalid, a duplicate or a conflict |
| FaultStores.FaultObservationStore.EnsureIndex | swarm/fault_observations.py:245-278 | keeps a trusted index and rebuilds any other from the file |
| FaultStores.FaultObservationStore.Append | swarm/fault_observations.py:280-323 | commits the model's append; true for a new record, false for a replay, an error for a conflict, a foreign run or a fact the record model does not accept |
| FaultStores.FaultObservationStore.AggregateAll | swarm/fault_observations.py:325-348 | groups by provider and reason; a sample is in a group if and only if it is a scanned entry of this run with that provider and reason and a time in (now - window, now] |
| FaultAggregates.RecoveryKeepsGenuine | swarm/fault_observations.py:105-130 | the recovery filter keeps exactly the samples past the boundary and drops an aggregate that has none |
| FaultAggregates.SummaryIsTight | swarm/fault_observations.py:119-130 | an aggregate's extreme times are attained, and its deadline is the latest any sample carries, absent exactly when none does |
| FaultAggregates.SummaryMeans | swarm/fault_observations.py:119-130 | an aggregate counts all and the confirmed samples, spans exactly their times and carries their latest deadline |
| FaultAggregates.WindowIsGenuine | swarm/fault_observations.py:325-348 | window samples are distinct log lines of their own provider and reason |
| FaultAggregates.WindowIsExact | swarm/fault_observations.py:325-348 | a window holds exactly the entries of this run, provider and reason after its start and not after now, each line once and in file order |
| BreakerSafety.GuardsAgree | swarm/breaker.py:569-695 | the guarded row updates succeed exactly when the pure transition says so, and for an outcome when the token is the row's |
| BreakerSafety.StepKeeps | swarm/breaker.py:448-695 | every log write, window read, eviction, apply, claim and outcome keeps the joint invariant of row, windows, log and audit trail |
| BreakerSafety.SitesExist | swarm/breaker.py:120-145 | every admissible configuration forms a site with such an encoding, so the theorems about sites speak of real ones |
| BreakerTheorems.SingleProbeSlot | swarm/breaker.py:569-695 | owner and expiry exist exactly while probing, a suspension has its deadline, tokens strictly increase per claim, and each token has at most one outcome, by its owner, before expiry |
| BreakerTheorems.OnlyAProbeRecovers | swarm/breaker.py:193-249 | every path from suspended to normal contains a claim and a later success of the same token by the same worker |
| BreakerTheorems.CooldownIsWaitedOut | swarm/breaker.py:182-226 | along every run a suspension's deadline only moves later, and the first probe event after it is a claim made no earlier than the deadline |
| BreakerOutcomes.SuspensionDeadline | swarm/breaker.py:182-190 | a step into suspension, by an apply or a failed probe, sets the deadline to the hint it came with, the latest in force or the reported one, or else to the configured cooldown after it |
| BreakerOutcomes.DeadlineIsWaitedOut | swarm/breaker.py:182-226 | along every run from there the next probe event is a claim no earlier than that hint, or than the end of the cooldown |
| BreakerOutcomes.ApplyToHealthy | swarm/breaker.py:193-226 | the evidence in force suspends a healthy breaker with its counts, or ends the insufficiency, or changes nothing |
| BreakerOutcomes.ApplyToSuspended | swarm/breaker.py:209-222 | a suspension is extended exactly by a later hint in force, to the latest; a probe in flight is left alone |
| BreakerOutcomes.ClaimsExactly | swarm/breaker.py:569-614 | a claim wins if and only if the deadline has passed or the slot has lapsed, and holds the slot for the configured time under the next token |
| BreakerOutcomes.OutcomesExactly | swarm/breaker.py:629-695 | an outcome counts if and only if its worker holds the unlapsed slot of its token; success clears the evidence and sets the boundary, failure suspends again |
| BreakerTheorems.SuspendsExactlyOnEvidence | swarm/breaker.py:477-519 | an apply suspends if and only if the worker's window holds counted evidence: enough distinct log lines for both floors, or a confirmed rejection of a direct reason |
| BreakerTheorems.RecoveryBoundary | swarm/breaker.py:477-519 | after a recovery with a checkpoint no step re-enters suspension except on enough facts that entered the log later and occurred no earlier, however stale the windows |
| BreakerTheorems.UnobservedRecoveryBoundary | swarm/fault_observations.py:105-117 | without a checkpoint only strictly later facts count |
| SharedBreakers.SharedBreaker.ApplyOne | swarm/breaker.py:477-519 | one aggregate changes its own row and window entry as the model says and no other |
| SharedBreakers.SharedBreaker.ApplyAggregates | swarm/breaker.py:448-475 | after a cycle every row is what its own aggregate makes of it, whatever the order of keys |
| SharedBreakers.SharedBreaker.Observe | swarm/breaker.py:440-446 | every key with fresh samples in the store's window is judged by exactly those, any other key by its live window entry, and a key with neither keeps its row; the window keeps what the recovery boundary leaves |
| SharedBreakers.SharedBreaker.TryClaimProbe | swarm/breaker.py:569-614 | commits the model's claim for one key and returns the fresh row to the winner only |
| SharedBreakers.SharedBreaker.FinishProbeSlot | swarm/breaker.py:629-695 | commits the model's outcome with the checkpoint read from the observed store, and resets the window on success only |
| SharedBreakers.SharedBreaker.IsEligible | swarm/breaker.py:415-429 | healthy breakers are eligible for everyone, a suspended one for nobody, a probing one exactly for its slot's owner before the slot expires |
| ProviderGuards.GuardProvider | swarm/failure_chain.py:112-146 | routable if and only if every breaker of the provider is healthy or holds this worker's live probe, and each claim carries its slot's token |
| ChainProtocol.IndicesIncrease | swarm/worker_loop.py:828-848 | candidate indices are reserved in order, each at most once |
| ChainProtocol.EveryReservationResolved | swarm/worker_loop.py:883-911 | every reservation is settled, held or abandoned to an uncertain hold exactly once, before the next reservation |
| ChainProtocol.SendsAreAdmitted | swarm/worker_loop.py:845-873 | no request is sent that was not reserved and marked begun first |
| ChainProtocol.ConfirmsOnlyKnownEffects | swarm/worker_loop.py:919-922 | a confirmation answers a reply whose effect is known |
| ChainProtocol.UnconfirmedIsLast | swarm/worker_loop.py:919-941 | nothing is reserved, so nothing is sent, after a begun request that was not confirmed |
| ChainProtocol.RecordedExactlyOnce | swarm/worker_loop.py:853-996 | every judgement that calls for a record, by `decide` or on an uncertain reply, is recorded exactly once, and `switched_to` names the next candidate actually reserved, or nothing when none was |
| ChainProtocol.SettledThenRecorded | swarm/worker_loop.py:883-996 | a settled reply that is judged a failure is recorded once, naming the candidate reserved after its settlement |
| ChainProtocol.RecordsAreJudged | swarm/worker_loop.py:853-996 | nothing is recorded that was not judged so before |
| ChainProtocol.OnlyRejectionsSwitch | swarm/failure_chain.py:157-174 | every reservation but the first answers a confirmed rejection that `decide` judged with a later candidate left |
| ChainScripts.ClosedRecordsFollow | swarm/worker_loop.py:913-996 | in a closed trace the replies whose answers make a record due are recorded once each, with the class `decide` gives, and nothing else is |
| ChainScripts.FailureDueExactly | swarm/worker_loop.py:919-980 | a failure is to be recorded if and only if the cleared reply is classified as it and leaves its effect open or is judged without a usable candidate |
| CandidateChains.CandidateChain.Admit | swarm/worker_loop.py:845-858 | reserves under the id `task:token:index` in the budget other workers left, and completes the record of the switch that led here |
| CandidateChains.CandidateChain.SettleReply | swarm/worker_loop.py:883-912 | tells the ledger what the reply calls for: a stopping settlement on a provider error, an unknown rejection, an uncertain hold, or the usage; it fails exactly when the clock is behind the reservation |
| CandidateChains.ToldMeans | swarm/worker_loop.py:883-906 | in the ledger a provider error leaves a stop, a rejection of unknown usage holds and stops nothing, an open effect holds and stops unless allowed, and a certain reply stores its usage |
| CandidateChains.CandidateChain.Conclude | swarm/worker_loop.py:913-996 | by the reply's own facts: an open effect, a stopped or exhausted budget and an unknown effect sleep; a missing candidate, a local failure, a capability mismatch and a last rejection reject if the ledger takes the failure; a rejection with a later candidate leads on; a usable candidate leaves the loop; all else raises |
| CandidateChains.CandidateChain.Loop | swarm/worker_loop.py:828-1018 | the candidate loop keeps the protocol and the script between any other workers' transactions, settles every hold a reply settles, and ends with a hold open exactly when its last admitted candidate left it open |
| CandidateChains.CandidateChain.Process | swarm/worker_loop.py:775-1116 | the verdict is where some tried candidate leads, by the same facts, or sleep when each was switched on; a new pending row is left if and only if an admitted candidate left its hold open and the renewal thread does not end or the last clock is behind that reservation; every other exit has a closed trace whose records are exactly those due |
| CandidateChains.LeavesPending | swarm/worker_loop.py:845-859 | a concrete run that ends with a pending row: the status file fails after the reservation and the last clock is behind |
| PheromoneTheorems.ProjectionForgetsOrder | swarm/pheromone.py:203-216 | the projection is the same for every order and any repetition of consistent facts |
| PheromoneTheorems.ProjectionIsOfLastFacts | swarm/pheromone.py:207-208 | consistent or not, facts project as the last fact under each key |
| PheromoneTheorems.ConflictingFacts | swarm/pheromone.py:207-208 | after any earlier facts, two facts under one key give the same projection in either order if and only if they agree on task, worker, pipe and time |
| PheromoneTheorems.SynchronizedOk | swarm/pheromone.py:174-200 | a successful synchronization leaves derived tables equal to the projection of the stored facts, however they are listed |
| PheromoneMeaning.StoredExactly | swarm/pheromone.py:180-190 | facts are stored if and only if whatever is known or given under one source is the same fact, and then exactly the known and given ones are |
| PheromoneTheorems.DerivedTablesAlwaysProject | swarm/pheromone.py:174-216 | after any run of enqueues and synchronizations, accepted or refused, the derived tables are the projection of the stored facts, and rebuilding from any listing gives them back |
| PheromoneTheorems.BatchesCompose | swarm/pheromone.py:180-190 | learning batch after batch stores what one batch of everything would |
| PheromoneTheorems.RebuildEqualsIncremental | swarm/pheromone.py:174-200 | rebuilding from any listing of the stored facts, with repetitions, gives the index that was learned step by step |
| PheromoneTheorems.IndexStable | swarm/pheromone.py:203-216 | new tasks do not disturb the derived tables |
| PheromoneTheorems.LearnedIsBounded | swarm/pheromone.py:203-216 | learned weights stay in [0.25, 0.5] and concentrations in [0, 1e12] |
| PheromoneMeaning.LearnedReadingIsSum | swarm/pheromone.py:203-213 | below the ceiling a learned reading is what remains of the task's own signal and of one unit a fact, each decayed from its own time |
| PheromoneMeaning.HabitIsWeightedCount | swarm/pheromone.py:203-216 | a habit is learned exactly for the pipes of the facts, counts them, and its weight is the default moved by each, exponentially weighted and decayed |
| PheromoneMeaning.ProjectsExactly | swarm/pheromone.py:203-213 | facts project if and only if each speaks of a known task that existed at its time |
| PheromoneTheorems.ReadingIsPathIndependent | swarm/pheromone.py:55-83 | saving the materialised signal at any intermediate times changes no later reading |
| PheromoneTheorems.DuplicateNeverRaises | swarm/pheromone.py:73-83 | a deposit under another signal identity raises neither the row nor any later reading |
| PheromoneMeaning.DepositAdds | swarm/pheromone.py:73-83 | a deposit adds its delta to the reading under the task's own signal and nothing under any other, and is refused exactly for a negative delta, a clock behind or an overflow |
| PheromoneMeaning.FeedbackMoves | swarm/pheromone.py:93-113 | success adds the reward up to the ceiling; failure takes half the reward's share and speeds decay up by the reward |
| PheromoneMeaning.MultiplierHurries | swarm/pheromone.py:55-67 | a multiplied row reads now as a plain one would after the multiple of its age |
| PheromoneMeaning.HabitReads | swarm/pheromone.py:118-131 | a habit reads as its weight at its own time and nears the baseline as it decays; without one the default is read |
| PheromoneMeaning.ReinforcementMoves | swarm/pheromone.py:141-157 | a reinforcement moves the weight by the share alpha of its distance to the reward and counts one sample |
| PheromoneTheorems.ReinforcedOk | swarm/pheromone.py:141-157 | a reinforced weight stays a fraction |
| PheromoneTheorems.FedBackOk | swarm/pheromone.py:93-113 | feedback keeps concentration and multiplier in range |
| PheromoneTheorems.PreviewProjects | swarm/pheromone.py:219-224 | a preview projects what a full replacement by the same facts stores |
| PheromoneTheorems.PreviewReads | swarm/pheromone.py:226-242 | preview readings equal durable ones for every task and pipe that is learned or has no local row |
| PheromoneFields.ProjectFacts | swarm/pheromone.py:203-216 | the folding loop computes the projection, or fails as it does |
| PheromoneFields.PheromoneField.Synchronize | swarm/pheromone.py:174-200 | stores all of the facts or none, and always leaves the projection of what is stored |
| PheromoneFields.PheromoneField.Deposit | swarm/pheromone.py:73-83 | saves the model's row for its task and no other, keeping every row in range |
| PheromoneFields.PheromoneField.Reinforce | swarm/pheromone.py:141-157 | saves the model's habit for its pipe and no other |
| Publication.LastChangeWins | local_assets/apply.py:77-89 | after an application a path holds the last change made to it |
| Publication.DistinctChangesAllHold | local_assets/validate.py:44-49 | with distinct paths every changed path ends at its new content, every other file is untouched, and the preimages hold exactly when they hold in the entry state |
| Publication.Target.Apply | local_assets/apply.py:64-101 | succeeds if and only if every check, preimage and write does, leaving all changes; any failure leaves the files as they were, but for a file replaced without a note of it and not restored by an earlier undo, which keeps its new content |
| Publication.LeftBehindDiffers | local_assets/apply.py:77-97 | for a validated candidate every replacement that raised before its note survives the undo, and the files then differ from the entry state |
| Publication.UnrecordedWriteStays | local_assets/apply.py:88-96 | for every single change, an exception between the replacement and its note leaves the change in place |
| Publication.Target.RollBack | local_assets/apply.py:91-96 | undoing in reverse restores the entry state, repeated paths included; one more replacement that was not noted stays unless an undone change was to its path |
| TopologyTheorems.WeightsAndFeedback | topology/engine.py:222-240 | over all runs every weight stays between zero and the larger of its installed weight and reinforcement * quality / decay, and feedback counts sum to the distinct attempts seen |
| TopologyOutcomes.FeedbackApplies | topology/engine.py:222-240 | feedback is applied if and only if its attempt is new and its link active; a success moves the link to its balance point by the decay's share, a failure takes that share, and no other link changes |
| TopologyOutcomes.MessagesApply | topology/engine.py:123-148 | a message is refused off route, ignored when it or its attempt is known, and else applied and remembered |
| TopologyOutcomes.LinksAreAdded | topology/engine.py:208-215 | a link of this source to a new target is installed last, fresh and active; any other is refused |
| TopologyOutcomes.IdlingDecays | topology/engine.py:150-161 | one idle window takes the decay's share of every active link and leaves all else |
| TopologyTheorems.AnyBoundIsExceeded | topology/engine.py:222-240 | without decay, from every state with an active link some run exceeds any bound |
| TopologyTheorems.RedeliveryChangesNothing | topology/engine.py:123-148 | feedback applied once changes nothing when delivered again, whatever happened in between |
| TopologyTheorems.PruneIsSafeAndMaximal | topology/engine.py:163-186 | pruning removes only light, idle, unrequired links, never takes the active count below the smaller of before and the minimum, and keeps an eligible link only at the minimum |
| TopologyOutcomes.PrunesEarliestDispensable | topology/engine.py:163-186 | pruning deactivates the earliest active, unrequired, light and idle links only, leaves at least the minimum active, and stops only there |
| TopologyEngines.TopologyEngine.Select | topology/engine.py:101-116 | the heaviest available target, the earliest among equals, none exactly when none is available |
| TopologyEngines.TopologyEngine.PruneLinks | topology/engine.py:163-186 | the pruning loop commits the model's prune |
| TopologyEngines.TopologyEngine.DoRecordFeedback | topology/engine.py:123-148 | commits the model's feedback, replay or error |
| TopologyEngines.TopologyEngine.AdvanceIdle | topology/engine.py:150-161 | the decaying loop ages every active link once |
| Router.Age | swarm/router.py:125 | ages stay in [1, 11], at one before any waiting, growing by one an aging period, and at eleven exactly from ten on |
| Router.DenominatorAtLeastOne | swarm/router.py:166-168 | the softmax denominator is at least one and every weight in (0, 1] |
| Router.ProbabilitiesSumToOne | swarm/router.py:166-172 | the selection probabilities sum to one |
| Router.MixesByExploration | swarm/router.py:170-172 | every probability mixes its two extremes by the share of exploration |
| Router.EndsInProportion | swarm/router.py:166-172 | without exploration the probabilities stand in the proportion of the exponential scores, with nothing else in that of the ages |
| Router.ExplorationFloor | swarm/router.py:170-172 | every candidate keeps at least the exploration share of the least age share, whatever the scores |
| Router.LeastShareIs | swarm/router.py:170-172 | the least age share of n candidates is 1 / (11 * n) |
| Router.HigherScoreNoLessLikely | swarm/router.py:166-172 | among candidates of equal age a higher score is never less likely |

## Left out

- SQL text, WAL, fsync, schema migration and serialisation: tables are values, a transaction is one step, and a file's signature is assumed to change whenever the file does.
- More than one swarm in one database: every table holds the rows of one swarm.
- `canonical_scope` resolution, symbolic links, Windows separators and case folding: a canonical scope is a list of non-empty components joined by one separator.
- Random reservation and lease ids: a reservation is named by its row number, a lease by task, worker, token, scope and expiry.
- The ledger clock: readings taken inside a transaction never run backwards; the budget's and the breaker's may be stale.
- Payloads, acceptance facts and result bodies: opaque strings compared for equality; `updated_at` columns and body size limits are not kept.
- Money and weights as floating point: exact reals, so overflow, rounding and non-finite estimates do not occur.
- FaultLog.CodecOk: the JSON encoding is any line encoding of the facts it accepts with no newline inside, an exact inverse, and no valid proper prefix of a record; a fact it does not accept is refused and never written.
- SharedBreakers.SharedBreaker.Expire: the window's time to live is a set of keys that expire, chosen freely; the 1000-row limit of `views` is not modelled.
- ProviderGuards.GuardProvider: the views are those of the table at the start, with no other worker's claim in between.
- CandidateChains.CandidateChain.Process: failure facts, judgements, confirmations and probe reports are effects in a trace; failing appends to the failure log are not modelled (one at a switch, failing again at the clean-up, also skips closing the hold), and what follows a usable candidate (asset store, validation, submission) is one free outcome.
- `_Renewal`, the worker's idle loop and resumption: renewals are interleaved ledger steps.
- Executors, gateways, credentials, observers, the hub mirror, command line and dashboards.
- `swarm/feedback.py` evidence matching and the scores of the router: facts and finite scores are given.
- TopologyEngines.TopologyEngine.AdvanceIdle: an edge is a value inside the engine's map, not a shared object.
- Publication.Target.Apply: an undo write never fails and is never interrupted, directories and file modes are not kept, and directories made for a new file stay.
- Python's `dict` and SQL row order where no result depends on it: such loops take their keys in any order.
