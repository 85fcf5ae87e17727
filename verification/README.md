# Control-plane model

A Dafny 4.11 model of the parts of the control plane that keep state over unbounded runs, with proofs of what
they keep. `dafny verify dfyconfig.toml` checks all of it. Money is in 1/10000 of a dollar, time in
milliseconds, and both are exact.

## How it is built

Code that changes tables step by step is modelled twice, and the two are tied together. A **machine** gives
every database statement as one atomic step of a total transition function, with each process's earlier reads
kept as its own snapshot; the theorems are over every sequence of steps. A **service class** has the methods
of the services in their own control flow, issuing those steps while other processes run arbitrary steps of
their own between any two statements; its `Valid()` says that the present state is one the machine reaches, so
each theorem about the machine holds throughout each method. History fields (`lowest`, `reports`, `parks`,
`claims` on runs; `registry`, `raisedAt`, `writes` on approvals; `verdicts`; `about` on escalations) are read by
no statement and exist so that theorems can speak of the past.

| modules | models |
|---|---|
| `DispatchPolicy`, `Timestamps`, `Quota` | routing of one work order, and where its view of quota comes from: `apps/api/src/dispatch/dispatch-policy.ts`, `dispatch.service.ts` |
| `QueueView` | the queue read model, memoised routing and headroom: `apps/api/src/cockpit/queue.service.ts` |
| `Spend` | tally, admission and overrun arithmetic: `apps/api/src/budget/` |
| `RunMachine`, `RunSafety`, `RunReports`, `RunOrigins`, `RunAttempts`, `RunWitnesses`, `RunExecutor` | dispatch, resume and drain against concurrent run events: `apps/api/src/dispatch/run-executor.service.ts`, `dispatch-queue.service.ts`, and the status writes of `run-events.service.ts` and `run-poller.service.ts` |
| `TimeoutPolicy`, `Markers`, `Approvals`, `ApprovalSafety`, `ApprovalEvidence`, `ApprovalBacklog`, `ApprovalSweeps`, `ApprovalBackfill`, `ApprovalTallies`, `ApprovalService` | the approval gate: `apps/api/src/approvals/` |
| `DeadTime`, `DeadTimeLaws`, `DeadWindow` | the dead-time ledger and its window arithmetic: `apps/api/src/dead-time/` |
| `EtagCache`, `GitHubClient` | the LRU of conditional responses and the client over it: `apps/api/src/github/` |
| `Base` | `Option`, JavaScript's order on strings, substrings |

Outside inputs are parameters, quantified over in full: the action-class registry at each raise, grants and
never-trustable verdicts, whether each raise, link, lookup or submit succeeds, the clock of each call, the
server's reply at each attempt, the metered quota position, and the order in which a query without `orderBy`
returns its rows.

## Where the code does less than its documentation suggests

- Routing reports "at capacity" for a fleet whose capable runners are all merely unavailable (`DispatchPolicy.CapacityReasonExactly`).
- The routing key does not tell a row that asks for nothing from one that asks for the empty need, and it confuses no other rows whose needs are free of its separators (`QueueView.RoutingKeyExactly`, `QueueView.EmptyNeedCollides`). `[""]` cannot come from a label: the one statement that writes the column stores members of the closed `RunnerNeed` union (`apps/api/src/work-orders/work-order-projection.service.ts:329-348`, `apps/api/src/github/labels/ignored-labels.ts:90-95`). The column itself holds free strings (`apps/api/prisma/schema.prisma:655-657`), so an imported or edited row can hold it.
- Spend is bounded by the ceiling plus overspend while every run is counted in full, which a single report guarantees. A cost reported below the ceiling frees room that another order may take, and a later report then raises the total with no overspend (`RunSafety.GrowthIsOverspendExactly`, `RunWitnesses.SecondReportPassesCeiling`). From any state, no further report can break that bound if and only if every live run in the window names a ceiling and those ceilings together fit under the limit (`RunReports.BoundSurvivesReportsExactly`).
- Attempts stay in order exactly as long as every resume that wins its claim read the count that claim overwrites, and no other resume of the same run is between its claim and its attempt row (`RunAttempts.VisibleExactlyWhenUndisturbed`). A stale claim meets the unique key and fails a healthy run, or its refusal puts back the wrong count (`RunWitnesses.StaleClaimFailsRun`, `RunAttempts.RestoredExactlyWhenFresh`); two overlapping resumes, each of them fresh, leave two attempts open (`RunWitnesses.OverlapOpensTwo`).
- A capacity refusal whose delete fails leaves the order queued beside a live run row (`RunExecutor.Executor.DispatchWorkOrder`).
- A failed quarantine write counts the order both as unrebuildable and as failed (`RunExecutor.Executor.Drain`).
- A run that finished after the sweep looked, before the ledger had anything open for it, is given an open interval: the guard explained at `handled` covers only runs whose interval was open. It reports growing dead time until the next pass, which closes it at the run's end, judged or not (`DeadTimeLaws.FinishedRunIsOpened`, `DeadTimeLaws.FinishedRunIsClosedNext`).
- A change of kind is closed without `latest`, so it can end before it began, although the comment on `latest` says every close goes through it (`DeadTimeLaws.ChangedKindEndsEarly`).
- The sweep takes rows by deadline, so raises whose clock runs behind can keep it from rows that were due before them: each such raise uses up a place in a batch of 200, exactly (`ApprovalSweeps.BackdatedRaisesStarve`, `ApprovalSweeps.SweepsNeededExactly`).
- When a gate and a backfill pass, or two passes, are both past their decision to raise for one row, their two raises escalate that approval twice; overlaps short of that are harmless (`ApprovalBackfill.EscalatesOnceExactlyWhenApart`, `ApprovalBackfill.OverlapEscalatesTwice`, `ApprovalBackfill.OverlappingPassesEscalateTwice`).
- The marker is called unambiguous as a substring because ids are (`apps/api/src/approvals/approval-gate.service.ts:1340-1341`), but the searched detail also holds free text. Prose that quotes another approval's marker makes the backfill link that approval to the wrong escalation (`ApprovalBackfill.QuotedMarkerMisleads`, `ApprovalBackfill.SearchIsMisledExactly`).
- Cache invalidation for a repository also drops those of its owner whose names begin with the same text, and any whose path happens to contain the named one, as under an owner called `repos` (`EtagCache.DroppedExactly`, `EtagCache.NamesakeIsDropped`, `EtagCache.OwnerCalledReposIsDropped`).

## Model

| member | source | states |
|---|---|---|
| `DispatchPolicy.DecideDispatch` | apps/api/src/dispatch/dispatch-policy.ts:394-658 | For any pool with distinct keys (the column is unique), the judging, ranking and diagnosing loops reach the decision of the declarative reference `Decide`; the candidates are exactly one verdict per enabled runner, ranked, or one refusal per runner when none is enabled or the fleet is full. |
| `DispatchPolicy.JudgeOne` | apps/api/src/dispatch/dispatch-policy.ts:487-591 | One runner's branches in their order: eligible exactly when it meets the needs, serves the tier, is available, is not exhausted, has headroom, and is stable, backed by a GA runner or acknowledged; the two recorded sets grow exactly as their branches say. |
| `DispatchPolicy.RankCandidates` | apps/api/src/dispatch/dispatch-policy.ts:675-679 | The ranking is a permutation of the verdicts in which none precedes a better one: eligible first, then headroom, then the lesser key. |
| `DispatchPolicy.DispatchExactly` | apps/api/src/dispatch/dispatch-policy.ts:394-612 | Work is dispatched if and only if the global limit leaves room and some enabled runner passes every test. |
| `DispatchPolicy.WinnerIsBest` | apps/api/src/dispatch/dispatch-policy.ts:593-637 | The chosen runner is an eligible pool entry; no eligible one has more headroom, and none with equal headroom has a lesser key. |
| `DispatchPolicy.AvoidedParkExactly` | apps/api/src/dispatch/dispatch-policy.ts:616-658 | An avoided park is recorded if and only if work was dispatched while some capable enabled runner was exhausted. |
| `DispatchPolicy.RecordsByKeyContents` | apps/api/src/dispatch/dispatch-policy.ts:465-485 | The avoided-park record is strictly ordered by key and holds exactly the exhausted capable runners, each with its reset time. |
| `DispatchPolicy.OrderIndependent` | apps/api/src/dispatch/dispatch-policy.ts:394-679 | With distinct keys, the decision is the same for every order of the pool and of the needs. |
| `DispatchPolicy.DiagnosisIsExact` | apps/api/src/dispatch/dispatch-policy.ts:720-755 | The diagnosis, which sees only verdicts and recorded sets, returns exactly the reason the fleet-level conditions give. |
| `DispatchPolicy.PreviewReasonExactly` | apps/api/src/dispatch/dispatch-policy.ts:720-755 | "Preview unacknowledged" is reported exactly when every capable runner was refused as a load-bearing preview. |
| `DispatchPolicy.CapacityReasonExactly` | apps/api/src/dispatch/dispatch-policy.ts:720-755 | "At capacity" is what remains: some runner is capable, none capable is exhausted, and not all are unacknowledged previews; an unavailable but idle fleet is reported this way too. |
| `DispatchPolicy.UnjudgedReasonsExactly` | apps/api/src/dispatch/dispatch-policy.ts:405-446 | "No runners registered" exactly for an empty pool, "all disabled" exactly for a pool with none enabled, and "global concurrency" exactly when some runner is enabled and the limit is reached. |
| `DispatchPolicy.NeedsReasonExactly` | apps/api/src/dispatch/dispatch-policy.ts:720-755 | "No runner has the capabilities" exactly when the fleet has room and every enabled runner leaves some need unmet. |
| `DispatchPolicy.TierReasonExactly` | apps/api/src/dispatch/dispatch-policy.ts:720-755 | "No runner serves the tier" exactly when the fleet has room, some enabled runner meets the needs, and none that does serves the tier. |
| `DispatchPolicy.QuotaReasonExactly` | apps/api/src/dispatch/dispatch-policy.ts:720-755 | "Quota exhausted" exactly when the fleet has room, nothing is eligible, and some enabled capable runner is out of quota. |
| `DispatchPolicy.ParkNamesExhausted` | apps/api/src/dispatch/dispatch-policy.ts:616-658 | Every enabled, capable, exhausted runner is named, with its reset time, in the avoided park of a dispatch. |
| `Quota.QuotaPositions` | apps/api/src/dispatch/dispatch.service.ts:341-391 | One pass over blocked runs, in any order, leaves each runner the latest of its dates that is still ahead, and nothing for a runner without one. |
| `Quota.RowOrderIrrelevant` | apps/api/src/dispatch/dispatch.service.ts:341-391 | Two row orders cannot give a runner two different latest dates. |
| `Quota.ResolutionIsCautious` | apps/api/src/dispatch/dispatch.service.ts:509-569 | Derived and metered positions that disagree resolve to exhausted; two dated exhaustions resolve to the chronologically later date. |
| `Quota.ResolvedExactly` | apps/api/src/dispatch/dispatch.service.ts:509-569 | The resolved position in every case: one source alone stands, of two that disagree the exhausted one with its date, of two healthy ones the meter, of two exhausted ones of which one is dated that one. |
| `Quota.PositionFromRows` | apps/api/src/dispatch/dispatch.service.ts:341-391 | From rows to position: with no live block the meter speaks alone; with one, the runner is exhausted until the latest live date, or the meter's own if that is later. |
| `Quota.ParkNamesReset` | apps/api/src/dispatch/dispatch.service.ts:341-391 | From rows to the avoided park: a blocked runner that could have done the work is named there with the latest live date as its reset time. |
| `Quota.BlockedRunnerNeverChosen` | apps/api/src/dispatch/dispatch.service.ts:341-391 | From rows to routing: a runner with a quota block dated after `now` is never the one work is dispatched to. |
| `Quota.RecoveryKeepsDispatch` | apps/api/src/dispatch/dispatch-policy.ts:536-548 | Clearing exhaustion on any runners never turns a dispatch into a queue. |
| `Quota.NotExhaustedRoutesLikeUnknown` | apps/api/src/dispatch/dispatch-policy.ts:536-548 | A position that says "not exhausted" routes, to the last field of the decision, like no position. |
| `Timestamps.StringOrderIsChronological` | apps/api/src/dispatch/dispatch.service.ts:565-569 | For rendered four-digit-year UTC timestamps, `<` on the strings is `<` on the instants (RFC 3339, section 5.1). |
| `QueueView.RoutingKeyExactly` | apps/api/src/cockpit/queue.service.ts:281-286 | For needs free of the two separators, two keys are equal if and only if the tier texts are and the needs are as multisets, or one row asks for nothing and the other for the empty need. |
| `QueueView.EmptyNeedCollides` | apps/api/src/cockpit/queue.service.ts:281-286 | A concrete pair of rows, one asking for nothing and one for the empty need, that share a key and must be decided differently. |
| `QueueView.SharedDecisionExactly` | apps/api/src/cockpit/queue.service.ts:160-188 | Two rows with one key get the same decision if and only if they are not that pair, or no runner is enabled, or the fleet is full. |
| `QueueView.DecideOncePerRoutingInput` | apps/api/src/cockpit/queue.service.ts:160-188 | Every row gets the decision of the last row with its key; for plain needs that is the decision of each row alone if and only if no row asks for nothing beside one, on its tier, that asks for the empty need, or needs do not matter to the fleet. |
| `QueueView.StateOf` | apps/api/src/cockpit/queue.service.ts:202-228 | One row's state, and one slot taken from its runner when it is ready. |
| `QueueView.List` | apps/api/src/cockpit/queue.service.ts:94-134 | Every row gets the state promised from the rows ahead of it: held, waiting, waiting on capacity, or ready; stated for the shared decisions in general, and for each row's own decision when no keys clash. |
| `QueueView.ReadyExactly` | apps/api/src/cockpit/queue.service.ts:94-134 | For each runner the ready rows number exactly the lesser of its headroom and the rows routed to it. |
| `QueueView.StatesExactly` | apps/api/src/cockpit/queue.service.ts:202-228 | Held, waiting for the policy, ready, or waiting for a slot: each exactly when the row is held, when the policy queues it, and when fewer, or not fewer, rows ahead go to its runner than the runner has free slots. |
| `Spend.TallySpend` | apps/api/src/budget/spend-ledger.service.ts:100-142 | One pass over the runs of the trailing window gives the rounded reported and estimated totals and the three counts. |
| `Spend.TallyCountsExactly` | apps/api/src/budget/spend-ledger.service.ts:111-142 | The counts are of the runs of the window, of those with no reported cost, and of those of these with no ceiling; the total is within a cent of the two columns, and reported and estimated amounts stand in different columns. |
| `Spend.ChargeExactly` | apps/api/src/budget/spend-ledger.service.ts:116-132 | A run counts for its reported cost, failing that for its ceiling, failing that for nothing. |
| `Spend.RoundIsNear` | apps/api/src/budget/spend-ledger.service.ts:171-173 | Rounding lands on a cent, at most half a cent away. |
| `Spend.AdmissionBound` | apps/api/src/budget/spend-admission.ts:112-197 | An admitted order keeps the exact, unrounded total within the limit plus less than one cent, however many runs it sums. |
| `Spend.AdmittedExactly` | apps/api/src/budget/spend-admission.ts:112-197 | An order is admitted, and refused for each of the three reasons, exactly under its own condition; one with no ceiling is admitted only on a runner that reports its cost; the headroom is the rest of the limit to the cent. |
| `Spend.SlackIsTight` | apps/api/src/budget/spend-admission.ts:139-188 | A concrete admission that attains the whole slack. |
| `Spend.OverrunNamesOverspend` | apps/api/src/budget/budget-overrun.ts:70-99 | An overrun is reported if and only if cost passed the ceiling, and names the excess to the cent. |
| `RunSafety.AlwaysSafe` | apps/api/src/dispatch/run-executor.service.ts:159-288 | In every reachable state every limit holds and the dispatcher's stale reads still guarantee what it is about to rely on. |
| `RunSafety.ConcurrencyLimitsHold` | apps/api/src/dispatch/run-executor.service.ts:239-258 | Under every interleaving of one dispatcher with any resumes and events, no runner has more runs running, stalled or blocked than it declares, and the fleet no more than its limit. |
| `RunSafety.LedgerIsExposure` | apps/api/src/budget/spend-ledger.service.ts:111-142 | The rows the ledger sums are exactly the live rows of the window, each at its cost or else its ceiling. |
| `RunReports.OnlyMoneyMovesTheTotal` | apps/api/src/budget/spend-ledger.service.ts:111-142 | Step by step over any interleaving: an inserted run counts at once for its ceiling, a higher cost report replaces what the run counted for, a deleted run counts for nothing, and no other step moves a window's total. |
| `RunOrigins.EveryRunWasAdmitted` | apps/api/src/dispatch/run-executor.service.ts:159-258 | In every reachable state every run goes back to one dispatch that loaded a pool counted on the rows of that moment, was routed to that runner by the policy, and was admitted by the gate on the rows of that moment with the ceiling the run still names. |
| `RunOrigins.UnboundedRunsReportCost` | apps/api/src/budget/spend-admission.ts:154-164 | In every reachable state a run that names no ceiling was admitted for a runner that reports its cost. |
| `RunOrigins.EveryClaimWasAdmitted` | apps/api/src/dispatch/run-executor.service.ts:378-554 | Every winning resume claim goes back to a read of the run as blocked and a clearance in which the other gates passed and the gate admitted the run's own ceiling; without a ceiling, only on a runner that reports its cost. |
| `RunOrigins.StatusMoves` | apps/api/src/run-events/run-events.service.ts:621-645 | A step brings a run into a status if and only if it is one of the listed statements with its row and process at the listed point. |
| `RunOrigins.EveryOutcomeHasItsCause` | apps/api/src/run-events/run-events.service.ts:621-645 | In every reachable state each run reads stalled, blocked, succeeded, failed or deleted since one step that brings exactly that; none is ever quarantined. |
| `RunOrigins.ConcludedForGood` | apps/api/src/run-events/run-events.service.ts:621-628 | Over any continuation, a succeeded or failed run keeps that status or is deleted by its own refused submit. |
| `RunOrigins.AttemptsMove` | apps/api/src/dispatch/run-executor.service.ts:684-719 | Attempts are opened and closed by the listed statements and no others, and no attempt number is ever changed. |
| `RunSafety.SpendStaysUnderCeiling` | apps/api/src/budget/spend-admission.ts:139-188 | In every reachable state the exact window total is at most limit + $0.0098 + what reports have since raised runs above the least they were counted for. |
| `RunSafety.GrowthIsOverspendExactly` | apps/api/src/budget/spend-ledger.service.ts:111-142 | That growth is the runs' overspend if and only if no run in the window has ever been counted for less than its present charge, or than its ceiling if lower. |
| `RunSafety.OnlyOverspendPassesCeiling` | apps/api/src/budget/budget-overrun.ts:70-99 | When no run in the window has been counted for less than that, the exact window total is below limit + $0.01 + the overspends of runs in the window. |
| `RunReports.BoundSurvivesReportsExactly` | apps/api/src/budget/spend-ledger.service.ts:111-142 | From any state at all, no cost reports can take the exact window total past limit + $0.01 + overspends if and only if every live run in the window names a ceiling and those ceilings together are below limit + $0.01. |
| `RunSafety.SingleReportsCountInFull` | apps/api/src/run-events/run-events.service.ts:728-745 | Runs that name a ceiling and whose cost is reported at most once always meet that condition. |
| `RunWitnesses.SecondReportPassesCeiling` | apps/api/src/run-events/run-events.service.ts:728-745 | A reachable state, with costs reported mid-run, that passes the ceiling with no overspend: the condition is needed. |
| `RunSafety.EachParkResumedAtMostOnce` | apps/api/src/dispatch/run-executor.service.ts:542-554 | Each entry of a run into `blocked` is ended by at most one resume's claim, in every interleaving. |
| `RunAttempts.AttemptsStayInOrder` | apps/api/src/dispatch/run-executor.service.ts:684-719 | If every winning claim is fresh and no other resume of that run is between its claim and its attempt row, attempt numbers strictly increase, at most the last attempt is open, and the count is never behind. |
| `RunAttempts.ClaimKeepsOrderExactly` | apps/api/src/dispatch/run-executor.service.ts:542-554 | In an orderly state a claim that wins keeps the order if and only if it is fresh and alone on its run. |
| `RunAttempts.OrderKeptExactlyWhenUndisturbed` | apps/api/src/dispatch/run-executor.service.ts:542-719 | The ordering invariant holds after every step of a run if and only if no winning claim in it was stale or overlapped. |
| `RunAttempts.VisibleExactlyWhenUndisturbed` | apps/api/src/dispatch/run-executor.service.ts:542-719 | That condition is exact, over whole runs: attempts stay in order and every refusal can restore its count, at every point and however the resumes in hand go on, if and only if every winning claim met it. |
| `RunAttempts.RefusalRestores` | apps/api/src/dispatch/run-executor.service.ts:601-626 | In a run whose winning claims were all fresh and alone, a capacity refusal that finds the run running returns status and attempt count to their values before the claim, and changes nothing else. |
| `RunAttempts.RestoredExactlyWhenFresh` | apps/api/src/dispatch/run-executor.service.ts:542-626 | In any state, whatever other processes do between a winning claim and its refusal: a refusal that finds the run running leaves it blocked, with the count the claim found if and only if that was the count the resume had read. |
| `RunWitnesses.StaleClaimFailsRun` | apps/api/src/dispatch/run-executor.service.ts:684-719 | A reachable run in which a stale claim reuses an attempt number: the unique key refuses the row and the run is failed. |
| `RunWitnesses.OverlapOpensTwo` | apps/api/src/dispatch/run-executor.service.ts:684-719 | A reachable run in which two overlapping resumes leave two attempts open. |
| `RunExecutor.ReachableIsSafe` | apps/api/src/dispatch/run-executor.service.ts:159-288 | Every state the service methods below pass through satisfies all of the run theorems. |
| `RunExecutor.Executor.DispatchWorkOrder` | apps/api/src/dispatch/run-executor.service.ts:159-288 | A dispatched order has exactly one new live row, on the runner routing chose; a refused, queued or observed one has none, unless the runner refused and the delete failed; with nothing else running, result and rows are exactly those of the reference `Expected`. |
| `RunExecutor.AnswersExactly` | apps/api/src/dispatch/run-executor.service.ts:159-288 | Undisturbed, a dispatch answers observed, dispatched, still queued or failed exactly by what the policy, the gate, the switch and the runner say, and leaves a new live row exactly when it should. |
| `RunExecutor.StillQueuedExactly` | apps/api/src/dispatch/run-executor.service.ts:159-288 | Undisturbed, the order is still queued if and only if routing or the gate stops it, or the switch is on and the runner is full. |
| `RunExecutor.Executor.AdmitAndCreate` | apps/api/src/dispatch/run-executor.service.ts:195-258 | Admission is the spend gate's answer on the rows as other processes have left them by then, and the row is inserted exactly when it admits and dispatch is enabled. |
| `RunExecutor.Executor.Submit` | apps/api/src/dispatch/run-executor.service.ts:731-765 | An accepted run stays, a capacity refusal deletes it if the delete succeeds, any other failure fails it if it still reads running; no other row changes. |
| `RunExecutor.Executor.ResumeParkedRun` | apps/api/src/dispatch/run-executor.service.ts:378-589 | The run is claimed by this call exactly when the result says the runner was reached; a resumed run ends with the reported attempt last and open, a failed one not running; with nothing else running, result and rows are exactly those of the reference `ExpectedResume`. |
| `RunExecutor.ResumeAnswersExactly` | apps/api/src/dispatch/run-executor.service.ts:378-589 | Undisturbed, each refusal, the would-resume answer and the asking of the runner happen exactly under their own conditions. |
| `RunExecutor.Executor.ClaimRun` | apps/api/src/dispatch/run-executor.service.ts:542-554 | The guarded claim wins exactly when the row still reads blocked, and writes the count it read plus one. |
| `RunExecutor.Executor.SubmitResume` | apps/api/src/dispatch/run-executor.service.ts:556-637 | After the claim: resumed exactly when the submit is accepted and, on the rows as they then are, the run exists and its attempt number is free; otherwise refused with the run put back, or failed. |
| `RunExecutor.Executor.Drain` | apps/api/src/dispatch/dispatch-queue.service.ts:86-195 | At most 25 orders, oldest first: each row has the turn its own answers allow, each counter reads exactly the turns that belong in it, an unrebuildable order whose quarantine write fails belonging in two; live rows grow by the dispatches and at most the failures and the failed deletes. |
| `TimeoutPolicy.SilenceIsCautious` | apps/api/src/approvals/timeout-policy.ts:101-181 | Silence approves only a registered class with no risk; a timer exists exactly when silence decides; no riskier entry is treated more leniently. |
| `ApprovalSafety.ResolutionIsForever` | apps/api/src/approvals/approval-gate.service.ts:574-645 | However the system runs on, a resolved row never changes, an open one keeps its policy, deadline and status, and an escalation link is never overwritten. |
| `ApprovalSafety.ResolvedOnceAndToldTruly` | apps/api/src/approvals/approval-not-pending.exception.ts:72-146 | Under every interleaving an approval is resolved by at most one write and its columns are that write's; every losing `decide` was given the reason that matches the winner, and never `not-pending`. |
| `ApprovalSafety.OneWinnerPerApproval` | apps/api/src/approvals/approval-gate.service.ts:596-625 | No two `decide` calls ever win the same approval. |
| `ApprovalSafety.ClockDoesWhatWasAnnounced` | apps/api/src/approvals/approval-gate.service.ts:777-852 | With a registry that changes between any two steps, the clock resolves no row before raise + 4 h, always to the policy of the raise; no parked row has a deadline, and `skippedParked` is always 0. |
| `ApprovalSafety.TimersAreTheRaises` | apps/api/src/approvals/approval-gate.service.ts:232-270 | In every reachable state a granted row and a row that parks have no timer, and every other row, settled or not, keeps the deadline four hours after its raise. |
| `ApprovalEvidence.ApprovalRatesByClass` | apps/api/src/approvals/approval-gate.service.ts:1166-1233 | The report over any grouping lists exactly the classes with a row in the window; each bucket counts its rows, and the rate exists exactly when a human has decided. |
| `ApprovalEvidence.HumanEvidenceIsExact` | apps/api/src/approvals/approval-gate.service.ts:1166-1233 | In every reachable state a class's approved and denied counts are exactly the numbers of `decide` calls that won with that answer on its rows. |
| `ApprovalEvidence.EvidenceMovesByVerdicts` | apps/api/src/approvals/approval-gate.service.ts:596-610 | Only a winning `decide` changes a human count, by one: no grant, sweep, supersession or losing decision moves an approval rate. |
| `ApprovalEvidence.EveryRowIsReported` | apps/api/src/approvals/approval-gate.service.ts:1190-1216 | In every reachable state the buckets of a class sum to its rows in the window. |
| `ApprovalEvidence.EveryBucketTellsWhatBecame` | apps/api/src/approvals/approval-gate.service.ts:1190-1216 | In every reachable state each of the eight counts of a class is the number of its rows that became just that, by the write that settled them or the policy they wait under. |
| `ApprovalBacklog.RoundDrains` | apps/api/src/approvals/approval-gate.service.ts:777-852 | One completed sweep at or after `t` settles everything due by `t`, or leaves 200 fewer due, counting each raise whose clock makes its row due by then; whatever interleaves. |
| `ApprovalBacklog.LeftOutExactly` | apps/api/src/approvals/approval-gate.service.ts:777-797 | A due row whose deadline no other shares is left out of a sweep if and only if 200 due rows have earlier deadlines. |
| `ApprovalBacklog.BacklogDrains` | apps/api/src/approvals/approval-gate.service.ts:777-852 | After `n` completed sweeps one after another, every row due at `t` is settled, or at most D + B − 200·n are due, where B counts the raises backdated so; whatever interleaves. |
| `ApprovalBacklog.ReachableBacklogSettles` | apps/api/src/approvals/approval-gate.service.ts:48-48 | From any reachable state with D rows due, ceil((D + B) / 200) such sweeps settle every one of them. |
| `ApprovalSweeps.BackdatedRaisesStarve` | apps/api/src/approvals/approval-gate.service.ts:777-797 | For every D, B and n with 200·n < D + B there is a run from the initial state with D rows due, B backdated raises and n completed sweeps that leaves one of the D unsettled (D + B up to 10^36, ids having 36 characters). |
| `ApprovalSweeps.SweepsNeededExactly` | apps/api/src/approvals/approval-gate.service.ts:777-852 | n completed sweeps settle all D rows in every run with B backdated raises if and only if D + B <= 200·n. |
| `ApprovalTallies.SweepsCountWhatTheySettle` | apps/api/src/approvals/approval-gate.service.ts:777-852 | In every reachable state the rows that silence approved, and those it denied, number exactly what all sweeps together have counted on that side. |
| `Markers.DetailNamesOneApproval` | apps/api/src/approvals/approval-gate.service.ts:1343-1345 | An escalation's detail contains another approval's marker if and only if its free text does. |
| `ApprovalBackfill.SearchIsFaithful` | apps/api/src/approvals/approval-gate.service.ts:1049-1061 | When free text quotes no foreign marker, the marker search finds an escalation of that very approval, or there is none. |
| `ApprovalBackfill.SearchIsMisledExactly` | apps/api/src/approvals/approval-gate.service.ts:1049-1061 | With no condition on free text: the search finds another approval's escalation if and only if one quotes the marker before any of the row's own; and it finds nothing only when there is none of its own. |
| `ApprovalBackfill.ApartEscalatesOnce` | apps/api/src/approvals/approval-gate.service.ts:922-1031 | Under any failures and concurrent decisions, if no two processes are ever both past their decision to raise for one row, and free text quotes no foreign marker, each approval is escalated at most once and every stored link is to its own escalation. |
| `ApprovalBackfill.EscalatesOnceExactlyWhenApart` | apps/api/src/approvals/approval-gate.service.ts:922-1031 | The condition is exact: when free text quotes no foreign marker, no two raises that can come next ever escalate one approval twice, at any point of a run, if and only if no two processes are ever both past their decision to raise for one row. |
| `ApprovalBackfill.EscalatedAtMostOnce` | apps/api/src/approvals/approval-gate.service.ts:922-1031 | In particular each approval is escalated at most once, and every stored link is to its own escalation, when passes run one at a time and never beside an unfinished raise, and free text quotes no foreign marker. |
| `ApprovalBackfill.OverlapEscalatesTwice` | apps/api/src/approvals/approval-gate.service.ts:922-1031 | A concrete run in which a pass overlaps a raise and one approval is escalated twice although no write fails. |
| `ApprovalBackfill.OverlappingPassesEscalateTwice` | apps/api/src/approvals/approval-gate.service.ts:922-1031 | A concrete run in which two passes overlap, beside no unfinished raise, and escalate one approval twice. |
| `ApprovalBackfill.QuotedMarkerMisleads` | apps/api/src/approvals/approval-gate.service.ts:1370-1389 | A concrete run, with nothing overlapping a pass, in which one approval's prose quotes another's marker: the other is linked to the wrong escalation and never escalated. |
| `ApprovalBackfill.BackfillAccounts` | apps/api/src/approvals/approval-gate.service.ts:955-1022 | At every moment of every pass, examined = still to do + raised + linked + raced + failed. |
| `ApprovalTallies.LinksAreCountedBySource` | apps/api/src/approvals/approval-gate.service.ts:955-1031 | In every run, each link of each pass is counted as failed, raced, raised or linked exactly by what happened to it: raised if that pass had raised the escalation for the row, linked if it had found it by the marker. |
| `ApprovalTallies.LeftToLaterPassExactly` | apps/api/src/approvals/approval-gate.service.ts:926-943 | An unescalated parked row whose age no other shares is left to a later pass if and only if 25 older ones wait. |
| `ApprovalService.ApprovalGate.Gate` | apps/api/src/approvals/approval-gate.service.ts:157-315 | A forbidden effect leaves no row, a grant a resolved one without a timer, and otherwise a row waits under the policy announced; an undisturbed escalation ends linked. |
| `ApprovalService.ApprovalGate.EscalateParked` | apps/api/src/approvals/approval-gate.service.ts:421-464 | Raise, then link: undisturbed, one escalation is added and the row points at it exactly when the link write succeeds. |
| `ApprovalService.ApprovalGate.Decide` | apps/api/src/approvals/approval-gate.service.ts:574-645 | A decision taken is the row's one write; one refused names who resolved the row; not found exactly when there is no row. |
| `ApprovalService.ApprovalGate.Supersede` | apps/api/src/approvals/approval-gate.service.ts:1076-1103 | An open row is withdrawn with no decider, a settled one is left as it is, and no other row is touched. |
| `ApprovalService.ApprovalGate.SweepTimeouts` | apps/api/src/approvals/approval-gate.service.ts:777-863 | Every row of the batch is settled on return and counted once, none as parked; undisturbed, each got exactly its recorded policy. |
| `ApprovalService.ApprovalGate.BackfillParkedEscalations` | apps/api/src/approvals/approval-gate.service.ts:922-1031 | Each row examined lands in exactly one counter; when nothing fails or races, every row of the batch ends linked, no other row has changed, and the escalations added number what it reports as raised. |
| `ApprovalService.ApprovalGate.LinkEscalation` | apps/api/src/approvals/approval-gate.service.ts:481-500 | The link is written exactly when the write succeeds and the row, as other processes have left it by then, is still parked and unlinked. |
| `DeadTime.DeadTimeService.Record` | apps/api/src/dead-time/dead-time.service.ts:96-226 | One pass turns the ledger into what `Pass` owes each interval and each observation; `stillOpen` is the number of open rows, and every other counter the number of rows it names. |
| `DeadTime.DeadTimeService.Close` | apps/api/src/dead-time/dead-time.service.ts:247-256 | Only an interval still open takes an end. |
| `DeadTimeLaws.OpenAfterPass` | apps/api/src/dead-time/dead-time.service.ts:140-215 | From any ledger: exactly which runs have an open interval after a pass. |
| `DeadTimeLaws.JudgedRunsAgree` | apps/api/src/dead-time/dead-time.service.ts:166-211 | A judged live run has an open interval afterwards if and only if the sweep observed it. |
| `DeadTimeLaws.NoFinishedRunLeftOpen` | apps/api/src/dead-time/dead-time.service.ts:140-222 | No finished run is left open if and only if every observed run with nothing open was still live. |
| `DeadTimeLaws.FinishedRunIsOpened` | apps/api/src/dead-time/dead-time.service.ts:217-222 | A concrete sweep that opens an interval on a run that has already succeeded. |
| `DeadTimeLaws.FinishedRunIsClosedNext` | apps/api/src/dead-time/dead-time.service.ts:148-164 | A finished run's open intervals are closed by the next pass, judged or not, at the run's end or their own start if later, and none is opened in their place. |
| `DeadTimeLaws.RecoveredRunIsClosed` | apps/api/src/dead-time/dead-time.service.ts:193-203 | A judged live run no longer observed has each open interval ended at its last event, at the sweep without one, and never before the interval began. |
| `DeadTimeLaws.ObservedRunGoesOn` | apps/api/src/dead-time/dead-time.service.ts:166-191 | A live run observed again keeps an interval of the same kind that began no earlier than reported; any other ends where the observation begins and one of the observed kind begins there. |
| `DeadTimeLaws.ObservedRunBegins` | apps/api/src/dead-time/dead-time.service.ts:210-215 | A run observed with nothing open gets an interval of the observed kind from the reported instant. |
| `DeadTimeLaws.LastObservationCounts` | apps/api/src/dead-time/dead-time.service.ts:109-111 | Of several observations of one run the last counts. |
| `DeadTimeLaws.TwoPassesLeaveNothingOpen` | apps/api/src/dead-time/dead-time.service.ts:140-222 | What one pass leaves open on a finished run, the next pass closes. |
| `DeadTimeLaws.UnjudgedRunsUntouched` | apps/api/src/dead-time/dead-time.service.ts:213-215 | A live run the sweep neither judged nor observed keeps exactly its intervals. |
| `DeadTimeLaws.OneOpenKept` | apps/api/src/dead-time/dead-time.service.ts:140-222 | One open interval per run stays one open interval per run. |
| `DeadTimeLaws.SecondPassChangesNothing` | apps/api/src/dead-time/dead-time.service.ts:96-226 | The same sweep again, at any time and in any listing order, changes no row. |
| `DeadTimeLaws.TidyExactlyWhenTimely` | apps/api/src/dead-time/dead-time.service.ts:166-222 | A run's intervals stay ordered, disjoint and forward if and only if no report starts before the open start it replaces or the last recorded end. |
| `DeadTimeLaws.ChangedKindEndsEarly` | apps/api/src/dead-time/dead-time.service.ts:175-190 | A concrete change of kind that ends an interval before it began. |
| `DeadTimeLaws.AlwaysTidy` | apps/api/src/dead-time/dead-time.service.ts:140-222 | Over all sequences of timely sweeps a run's intervals are disjoint, end no earlier than they start, and at most the last is open. |
| `DeadTimeLaws.AlwaysOneOpen` | apps/api/src/dead-time/dead-time.service.ts:140-222 | Over all sequences of sweeps, timely or not, a run has at most one open interval. |
| `DeadTimeLaws.FirstCloseStands` | apps/api/src/dead-time/dead-time.service.ts:247-256 | However passes overlap, the first close of an interval is never moved. |
| `DeadWindow.DeadTimeInWindow` | apps/api/src/dead-time/dead-time.ts:111-155 | Each mean is its kind's overlap with the whole window over the stated days, each day's value the overlap with that day, and the counts are of the contributing and the open intervals. |
| `DeadWindow.OverlapCounts` | apps/api/src/dead-time/dead-time.ts:91-99 | The overlap of an interval with a window is the number of milliseconds of the window at which the interval has begun and has not ended; an open one never has. |
| `DeadWindow.OverlapsCount` | apps/api/src/dead-time/dead-time.ts:111-132 | The overlap of a ledger is the number of pairs of an interval of the given kinds and a millisecond of the window it covers. |
| `DeadWindow.ContributingCount` | apps/api/src/dead-time/dead-time.ts:118-132 | The intervals counted are those that cover some millisecond of the window, each once, and the open ones counted are those of them with no end. |
| `DeadWindow.OverlapSplits` | apps/api/src/dead-time/dead-time.ts:91-99 | Adjacent windows share any interval exactly, open or closed, even one that ends before it starts. |
| `DeadWindow.DaysSumToWindow` | apps/api/src/dead-time/dead-time.ts:111-146 | For any intervals and any number of days the per-day overlaps sum exactly to the window's. |
| `DeadWindow.StalledPlusParked` | apps/api/src/dead-time/dead-time.ts:122-132 | The stalled and parked overlaps sum to the total. |
| `DeadWindow.MeanIsMeanOfDays` | apps/api/src/dead-time/dead-time.ts:134-154 | The reported mean is the mean of the reported days and the sum of its two halves. |
| `DeadWindow.NoDayOverTwentyFourHours` | apps/api/src/dead-time/dead-time.ts:134-143 | Whatever timely sweeps have recorded, one run is dead for at most 24 hours of any day. |
| `EtagCache.KeysSeparateRequests` | apps/api/src/github/etag-cache.service.ts:61-63 | Two requests share a key exactly when they agree on URL and, but for case, on method. |
| `EtagCache.EtagCacheService.Fetch` | apps/api/src/github/etag-cache.service.ts:65-76 | A hit returns the entry and makes it the newest; a miss changes nothing. |
| `EtagCache.EtagCacheService.Store` | apps/api/src/github/etag-cache.service.ts:78-87 | The entry becomes the newest and the oldest go until the bound holds. |
| `EtagCache.EtagCacheService.InvalidateRepository` | apps/api/src/github/etag-cache.service.ts:97-112 | Exactly the keys containing the repository's path go, and are counted. |
| `EtagCache.AlwaysSound` | apps/api/src/github/etag-cache.service.ts:65-112 | After any trace the cache holds at most its limit, with distinct keys. |
| `EtagCache.HitsReturnLastSet` | apps/api/src/github/etag-cache.service.ts:65-112 | A hit returns the last value set and not invalidated since, and a trace no longer than the limit forgets nothing. |
| `EtagCache.HeldExactly` | apps/api/src/github/etag-cache.service.ts:65-116 | After any trace at all the cache holds exactly the keys that a definition on the trace alone, with no cache in it, says it keeps. |
| `EtagCache.RetainedExactly` | apps/api/src/github/etag-cache.service.ts:65-112 | Until its key is written again, an entry is held if and only if at every moment since fewer keys than the cache has room for were newer, and no clear or matching invalidation came; newer are the keys written, or read with a hit, and not invalidated since. |
| `EtagCache.RetainedByCount` | apps/api/src/github/etag-cache.service.ts:65-87 | Among reads and writes of other keys, an entry is held if and only if fewer keys than the cache has room for have been written, or read with a hit, since. |
| `EtagCache.FreedRoomStaysEmpty` | apps/api/src/github/etag-cache.service.ts:78-112 | A concrete trace in which a live key stays out although nothing live has been used since: with invalidations the count at the end does not decide. |
| `EtagCache.EvictsLeastRecentlyUsed` | apps/api/src/github/etag-cache.service.ts:78-87 | Whatever a write evicts was used less recently than everything it leaves. |
| `EtagCache.LargerCacheHitsToo` | apps/api/src/github/etag-cache.service.ts:65-112 | On the same trace, invalidations included, a larger cache hits wherever a smaller one does, with the same answer. |
| `EtagCache.DroppedExactly` | apps/api/src/github/etag-cache.service.ts:97-106 | A repository's entry is dropped if and only if it has the named owner and a name that begins with the one named, or the path occurs elsewhere in its key, which it cannot when the key holds "/repos/" once. |
| `EtagCache.NamesakeIsDropped` | apps/api/src/github/etag-cache.service.ts:97-106 | A concrete cache in which invalidating `o/n` drops the response about `o/n-extra`. |
| `EtagCache.OwnerCalledReposIsDropped` | apps/api/src/github/etag-cache.service.ts:97-106 | A concrete cache in which invalidating `x/y` drops a response about the repository `repos/x`. |
| `GitHubClient.ConfirmedIsCurrent` | apps/api/src/github/github-http.service.ts:351-360 | A cached response the server confirms is the response it would have sent (RFC 9110, sections 13.1.2 and 15.4.5). |
| `GitHubClient.GitHubHttpService.Attempt` | apps/api/src/github/github-http.service.ts:303-383 | One attempt yields what the uncached client's attempt yields; it answers from the cache exactly when the page served has the tag it sent, and stores exactly a tagged page it had to fetch. |
| `GitHubClient.GitHubHttpService.Request` | apps/api/src/github/github-http.service.ts:160-225 | Whatever is cached, evicted or invalidated meanwhile, answer, failure and number of attempts are those of a client with no cache; it is answered from the cache exactly when the entry found has the tag of the page served, and undisturbed it leaves that page in the cache. |
| `GitHubClient.GitHubHttpService.Paginate` | apps/api/src/github/github-http.service.ts:235-284 | The result is a listing as described below, and the one a client with no cache gets; without a credential its first request's error, before any attempt. |
| `GitHubClient.UncachedExactly` | apps/api/src/github/github-http.service.ts:160-225 | A request ends at the first attempt that reaches the server, with the page served there or its rejection, or fails when none within the retries does. |
| `GitHubClient.ListingExactly` | apps/api/src/github/github-http.service.ts:235-284 | A result is the listing if and only if some walk has it: pages each served at the attempt that read it, each at the URL the one before links to, the items what they hold in order, the count their number, truncated exactly when the last links on; or the failure of the next page. |
| `GitHubClient.ListingStops` | apps/api/src/github/github-http.service.ts:235-284 | A listing stops within its pages and their attempts, and is truncated only at the limit. |
| `GitHubClient.UntruncatedIsComplete` | apps/api/src/github/github-http.service.ts:264-283 | A listing not truncated is the listing under every larger limit. |
| `GitHubClient.TruncatedIsPrefix` | apps/api/src/github/github-http.service.ts:264-283 | A truncated listing is a prefix of every longer one that succeeds. |

## Left out

- Floating point: `Math.round` and `Number` are exact integer rounding, and the hourly means are reals.
- Reason texts, notification payloads, audit rows, GitHub records and logging: only the discriminating codes and numbers are kept.
- Prisma, fetch, timers, backoff delays and runner processes: they are steps, oracles or failing calls.
- Database failures after a successful submit, and the process that then runs without an agreeing row.
- Several dispatchers at once: one drain is in flight at a time, as the scheduler runs it; resumes and events interleave freely.
- Orders with no ceiling on cost-reporting runners: the code admits them on headroom alone, so they count for nothing in the exposure that `RunSafety.SpendStaysUnderCeiling` bounds.
- The `quarantined` status is written by nothing in the run machine; watchdog, merge-state and summary columns do not appear in it.
- Runner keys are positions in the collation order the code sorts by, so two keys that collate alike are not represented.
- The quota meter's windows, rehydration, and the never-trustable table: each is an arbitrary input.
- A resume's other gates before the spend gate (order status, repository switch and ceiling, rehydration, runner) are one yes-or-no verdict.
- `maybeMintGrant`: it writes only `createdGrantId`, after the verdict has landed.
- `abandoned`, the count of parked rows past the backfill window, and the order of the reported classes by name.
- Ties: escalations are ordered by insertion rather than by `raisedAt`, and a batch may break equal deadlines either way.
- RunExecutor.Executor.DispatchWorkOrder: what the row looks like when other processes wrote it in between is left to the machine's theorems; the exact rows are stated for the undisturbed case. The same holds for the approval methods.
- RunSafety.OnlyOverspendPassesCeiling: assumes each run in the window has been counted in full; `RunSafety.SpendStaysUnderCeiling` and `RunReports.BoundSurvivesReportsExactly` assume nothing.
- ApprovalBacklog.BacklogDrains: the counted sweeps follow one another; other sweeps may overlap them, but two that read the same batch count as one. A raise whose clock makes its row due by `t` already counts as one more row.
- ApprovalBackfill.EscalatedAtMostOnce: a coarser schedule than needed; `ApprovalBackfill.EscalatesOnceExactlyWhenApart` gives the exact one. Both speak of free text that quotes no other approval's marker.
- RunExecutor.Executor.ResumeParkedRun: the rows it leaves are stated exactly when nothing else runs; otherwise its result, its claim and the resumed run's last attempt are.
- DeadTimeLaws.SecondPassChangesNothing: assumes each run is observed once and every observed run is live, as the watchdog reports them.
- `parseNextLink`, `extract` and the `allFromCache` flag: the next link and the page contents are arbitrary functions, and the flag is not modelled.
- Rate-limit bookkeeping, headers and request bodies; a rate-limit refusal is one of the final errors. The cache is keyed by method and URL, and so is the server: a per-call `accept` header, which could change the representation, is not represented.
- `EtagCache` holds no `storedAt`; keys upper-case ASCII letters only.
- Escalation delivery, device flow, refresh tokens, git liveness, metrics and health checks would only add easier members.
