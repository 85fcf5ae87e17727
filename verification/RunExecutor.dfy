/**
 * The executor's operations in their own control flow (`run-executor.service.ts`,
 * `dispatch-queue.service.ts`), each issuing its statements against a database that other processes write
 * between any two of them. Whatever they do, the database stays in a state the machine reaches, so every
 * theorem about the machine is a theorem about these methods.
 */
module RunExecutor {
  import opened Base
  import opened DispatchPolicy
  import opened Spend
  import opened RunMachine
  import opened RunSafety
  import opened RunAttempts

  datatype SubmitOutcome = Accepted | AtCapacity | SubmitError

  datatype ExecutionResult =
    | Dispatched(id: RunId, runner: RunnerKey)
    | StillQueued
    | FailedBeforeStart(id: RunId)
    | Observed(runner: RunnerKey)

  datatype ResumeRefusal = AutoResumeDisabled | NotParked | GatesRefused | RunnerAtCapacity

  /** `WouldResume` is the outcome `observed`: every gate passed, and dispatch is switched off. */
  datatype ResumeResult = Resumed(attempt: nat) | Refused(refusal: ResumeRefusal) | WouldResume | ResumeFailed

  /** What a resume learns outside the database: its switches, its other gates, and how the submit went. */
  datatype ResumeOracle = ResumeOracle(autoResume: bool, gatesPass: bool, reportsCost: bool, enabled: bool, submit: SubmitOutcome)

  /** Likewise for a dispatch; `deleteOk` says whether deleting a refused run's row succeeds. */
  datatype DispatchOracle = DispatchOracle(allowPreview: bool, reportsCost: bool, enabled: bool, submit: SubmitOutcome, deleteOk: bool)

  // ---------------------------------------------------------------------------------------------
  // What other processes can and cannot do meanwhile
  // ---------------------------------------------------------------------------------------------

  predicate NoDispatchSteps(steps: seq<Step>)
  {
    forall i | 0 <= i < |steps| :: !IsDispatchStep(steps[i])
  }

  /** The rows keep their identity: same runner, same authorized ceiling, deleted or not as before. */
  ghost predicate SameRows(s: State, s': State)
  {
    && |s'.runs| == |s.runs|
    && forall i | 0 <= i < |s.runs| ::
         && s'.runs[i].runner == s.runs[i].runner
         && s'.runs[i].spend.ceiling == s.runs[i].spend.ceiling
         && (s'.runs[i].status.Deleted? <==> s.runs[i].status.Deleted?)
  }

  lemma ResumeStepKeepsRows(cfg: Config, s: State, step: Step)
    ensures SameRows(s, ResumeStep(cfg, s, step)) && ResumeStep(cfg, s, step).dispatcher == s.dispatcher
  {
  }

  lemma EventStepKeepsRows(s: State, step: Step)
    ensures SameRows(s, EventStep(s, step)) && EventStep(s, step).dispatcher == s.dispatcher
    ensures EventStep(s, step).resumes == s.resumes && EventStep(s, step).claims == s.claims
  {
  }

  /** Claims are only ever added, and only the process named in a claim adds it. */
  ghost predicate NoClaimBy(s: State, s': State, p: Pid)
  {
    && |s.claims| <= |s'.claims|
    && s'.claims[..|s.claims|] == s.claims
    && forall i | |s.claims| <= i < |s'.claims| :: s'.claims[i].owner != p
  }

  ghost predicate ClaimsKept(s: State, s': State)
  {
    |s.claims| <= |s'.claims| && s'.claims[..|s.claims|] == s.claims
  }

  /** Since `s`, process `p` has claimed run `id`. */
  ghost predicate HasClaimBy(s: State, s': State, p: Pid, id: RunId)
  {
    exists i | |s.claims| <= i < |s'.claims| :: s'.claims[i].owner == p && s'.claims[i].id == id
  }

  lemma NoClaimsChain(a: State, b: State, c: State, p: Pid)
    requires NoClaimBy(a, b, p) && NoClaimBy(b, c, p)
    ensures NoClaimBy(a, c, p)
  {
    assert c.claims[..|a.claims|] == c.claims[..|b.claims|][..|a.claims|];
    forall i | |a.claims| <= i < |c.claims| ensures c.claims[i].owner != p {
      if i < |b.claims| {
        assert c.claims[i] == c.claims[..|b.claims|][i];
      }
    }
  }

  lemma OwnClaim(a: State, b: State, c: State, p: Pid, id: RunId)
    requires NoClaimBy(a, b, p) && exists park :: c.claims == b.claims + [Claim(id, park, p)]
    ensures ClaimsKept(a, c) && HasClaimBy(a, c, p, id)
  {
    assert c.claims[|b.claims|].owner == p;
    assert c.claims[..|a.claims|] == b.claims[..|a.claims|];
  }

  /** The result says that the run was claimed and its runner asked. */
  predicate ReachedRunner(r: ResumeResult)
  {
    r.Resumed? || r.ResumeFailed? || r == Refused(RunnerAtCapacity)
  }

  /** The run's last attempt is this one, and it is open. */
  predicate NewestAttempt(s: State, id: RunId, number: nat)
  {
    && id < |s.runs| && !s.runs[id].status.Deleted?
    && s.runs[id].attempts != [] && s.runs[id].attempts[|s.runs[id].attempts| - 1] == Attempt(number, true)
  }

  /** The attempt insert succeeds: the run still exists, and the unique key on its number is free. */
  predicate CanOpen(runs: seq<Run>, id: RunId, number: nat)
  {
    id < |runs| && !runs[id].status.Deleted? && !exists a | a in runs[id].attempts :: a.number == number
  }

  /** The whole resume when nothing else runs: its result, and the rows it leaves. */
  function ExpectedResume(cfg: Config, s: State, id: RunId, oracle: ResumeOracle): (ResumeResult, seq<Run>)
  {
    if !oracle.autoResume then (Refused(AutoResumeDisabled), s.runs)
    else if !HasStatus(s, id, Blocked) then (Refused(NotParked), s.runs)
    else if !oracle.gatesPass || Gate(cfg, s, s.runs[id].spend.ceiling, oracle.reportsCost).Refuse? then (Refused(GatesRefused), s.runs)
    else if !oracle.enabled then (WouldResume, s.runs)
    else
      var r := s.runs[id];
      var number := Max1(r.attemptCount) + 1;
      match oracle.submit
      case Accepted =>
        if CanOpen(s.runs, id, number) then
          (Resumed(number),
           s.runs[id := r.(status := Running, attemptCount := number, attempts := CloseAll(r.attempts) + [Attempt(number, true)])])
        else
          (ResumeResult.ResumeFailed,
           s.runs[id := r.(status := Failed, attemptCount := number, attempts := CloseAll(r.attempts))])
      case AtCapacity => (Refused(RunnerAtCapacity), s.runs[id := r.(parks := r.parks + 1)])
      case SubmitError => (ResumeResult.ResumeFailed, s.runs[id := r.(status := Failed, attemptCount := number)])
  }

  /** The row after the runner's answer, when nothing else ran since the claim. */
  function SubmittedRow(r: Run, proc: Resume, p: Pid, submit: SubmitOutcome): Run
    requires proc.Claimed?
  {
    match submit
    case Accepted => SettledRow(SettledRow(r, proc, ResumeSubmitted(p)), Opening(proc.id, proc.number), ResumeOpen(p))
    case AtCapacity => SettledRow(r, proc, ResumeRefused(p))
    case SubmitError => SettledRow(r, proc, Step.ResumeFailed(p))
  }

  /** What reading, admitting and claiming come to when nothing else runs. */
  ghost predicate ClaimExpected(cfg: Config, s: State, s': State, p: Pid, id: RunId, oracle: ResumeOracle, claimed: bool, stopped: ResumeResult)
  {
    if !HasStatus(s, id, Blocked) then !claimed && stopped == Refused(NotParked) && s'.runs == s.runs
    else if !oracle.gatesPass || Gate(cfg, s, s.runs[id].spend.ceiling, oracle.reportsCost).Refuse? then
      !claimed && stopped == Refused(GatesRefused) && s'.runs == s.runs
    else if !oracle.enabled then !claimed && stopped == WouldResume && s'.runs == s.runs
    else
      var r := s.runs[id];
      && claimed
      && ResumeOf(s', p) == Claimed(id, Max1(r.attemptCount) + 1, r.attemptCount, r.attemptCount)
      && s'.runs == s.runs[id := ClaimedRow(r, r.attemptCount)]
  }

  lemma SettledAsExpected(cfg: Config, s: State, claim: State, s': State, p: Pid, id: RunId, oracle: ResumeOracle)
    requires oracle.autoResume && ClaimExpected(cfg, s, claim, p, id, oracle, true, WouldResume)
    requires s'.runs == claim.runs[id := SubmittedRow(claim.runs[id], ResumeOf(claim, p), p, oracle.submit)]
    ensures s'.runs == ExpectedResume(cfg, s, id, oracle).1
    ensures oracle.submit.Accepted? ==>
              (ExpectedResume(cfg, s, id, oracle).0
               == if CanOpen(Apply(cfg, claim, ResumeSubmitted(p)).runs, id, ResumeOf(claim, p).number)
                  then Resumed(ResumeOf(claim, p).number) else ResumeResult.ResumeFailed)
  {
    var r := s.runs[id];
    SettledRowsAreExpected(r, p);
    ClosingKeepsNumbers(r.attempts, Max1(r.attemptCount) + 1);
    SettleFact(cfg, claim, p, ResumeSubmitted(p));
    assert s'.runs[id] == ExpectedResume(cfg, s, id, oracle).1[id];
  }

  /** The row a claim leaves, and what each end of the resume makes of it. */
  function ClaimedRow(r: Run, count: nat): Run
  {
    r.(status := Running, attemptCount := Max1(count) + 1)
  }

  lemma SettledRowsAreExpected(r: Run, p: Pid)
    requires r.status.Blocked?
    ensures var number := Max1(r.attemptCount) + 1;
            var claimed, proc := ClaimedRow(r, r.attemptCount), Claimed(0, number, r.attemptCount, r.attemptCount);
            && SettledRow(claimed, proc, ResumeRefused(p)) == r.(parks := r.parks + 1)
            && SettledRow(claimed, proc, Step.ResumeFailed(p)) == r.(status := Failed, attemptCount := number)
            && SettledRow(SettledRow(claimed, proc, ResumeSubmitted(p)), Opening(0, number), ResumeOpen(p))
               == if exists a | a in r.attempts :: a.number == number
                  then r.(status := Failed, attemptCount := number, attempts := CloseAll(r.attempts))
                  else r.(status := Running, attemptCount := number, attempts := CloseAll(r.attempts) + [Attempt(number, true)])
  {
    ClosingKeepsNumbers(r.attempts, Max1(r.attemptCount) + 1);
  }

  lemma ForeignStep(cfg: Config, s: State, step: Step, p: Pid)
    requires !(IsResumeStep(step) && step.p == p)
    ensures ResumeOf(Apply(cfg, s, step), p) == ResumeOf(s, p) && NoClaimBy(s, Apply(cfg, s, step), p)
    ensures |s.runs| <= |Apply(cfg, s, step).runs|
  {
    if IsResumeStep(step) {
      ForeignResumeStep(cfg, s, step, p);
    } else if !IsDispatchStep(step) {
      EventStepKeepsRows(s, step);
    }
  }

  lemma ForeignResumeStep(cfg: Config, s: State, step: Step, p: Pid)
    requires IsResumeStep(step) && step.p != p
    ensures ResumeOf(ResumeStep(cfg, s, step), p) == ResumeOf(s, p) && NoClaimBy(s, ResumeStep(cfg, s, step), p)
    ensures |s.runs| == |ResumeStep(cfg, s, step).runs|
  {
  }

  function PoolOf(cfg: Config, s: State, fleet: seq<PoolEntry>): (pool: seq<PoolEntry>)
    ensures |pool| == |fleet|
    ensures forall i | 0 <= i < |fleet| ::
              && pool[i].capabilities == fleet[i].capabilities.(maxConcurrency := MaxConcurrency(cfg, fleet[i].capabilities.key))
              && pool[i].liveRuns == Total(Slots(fleet[i].capabilities.key), s.runs)
              && pool[i].enabled == fleet[i].enabled && pool[i].quota == fleet[i].quota
  {
    if fleet == [] then []
    else
      var e := fleet[0];
      [e.(capabilities := e.capabilities.(maxConcurrency := MaxConcurrency(cfg, e.capabilities.key)),
          liveRuns := Total(Slots(e.capabilities.key), s.runs))]
      + PoolOf(cfg, s, fleet[1..])
  }

  lemma PoolIsFaithful(cfg: Config, s: State, fleet: seq<PoolEntry>)
    requires DistinctKeys(fleet)
    ensures FaithfulPool(cfg, s, PoolOf(cfg, s, fleet))
  {
  }

  /** Every state these methods reach is within the limits, and no park in it was claimed twice. */
  lemma ReachableIsSafe(cfg: Config, s: State)
    requires Reachable(cfg, s)
    ensures Safe(cfg, s) && OneClaimPerPark(s)
  {
    var steps :| Reach(cfg, steps) == s;
    AlwaysSafe(cfg, steps);
    EachParkResumedAtMostOnce(cfg, steps);
  }

  lemma LoadFact(cfg: Config, s: State, order: Order, pool: seq<PoolEntry>)
    requires s.dispatcher.Free? && FaithfulPool(cfg, s, pool)
    ensures Apply(cfg, s, LoadPool(order, pool)) == s.(dispatcher := Loaded(order, pool))
  {
  }

  /** The runner routing picks in this state, if it is one this process can drive. */
  function Chosen(cfg: Config, s: State, order: Order, pool: seq<PoolEntry>, allowPreview: bool): Option<RunnerKey>
  {
    var d := Decide(order.input, pool, Limits(cfg.globalMax, Total(AllSlots, s.runs), allowPreview));
    if d.Dispatch? && d.runner in cfg.implemented then Some(d.runner) else None
  }

  lemma RouteFact(cfg: Config, s: State, order: Order, pool: seq<PoolEntry>, allowPreview: bool)
    requires s.dispatcher == Loaded(order, pool)
    ensures var runner := Chosen(cfg, s, order, pool, allowPreview);
            Apply(cfg, s, Route(allowPreview)) == s.(dispatcher := if runner.Some? then Routed(order, runner.value) else Free)
  {
  }

  lemma AdmitFact(cfg: Config, s: State, order: Order, runner: RunnerKey, reportsCost: bool)
    requires s.dispatcher == Routed(order, runner)
    ensures Apply(cfg, s, AdmitDispatch(reportsCost))
            == s.(dispatcher := if Gate(cfg, s, order.ceiling, reportsCost).Admit? then Admitted(order, runner) else Free)
  {
  }

  lemma CreateFact(cfg: Config, s: State, order: Order, runner: RunnerKey, enabled: bool)
    requires s.dispatcher == Admitted(order, runner)
    ensures Apply(cfg, s, CreateRun(enabled))
            == if enabled then s.(runs := s.runs + [NewRun(order, runner, s.now)], dispatcher := Submitting(|s.runs|))
               else s.(dispatcher := Free)
  {
  }

  /** How the submit of run `id` ends: the row stays, is deleted, or is failed if it still reads running. */
  lemma SubmitFact(cfg: Config, s: State, id: RunId, step: Step)
    requires s.dispatcher == Submitting(id) && id < |s.runs|
    requires step.Submitted? || step.SubmitRefused? || step.SubmitFailed?
    ensures var s' := Apply(cfg, s, step);
            && s'.dispatcher.Free? && |s'.runs| == |s.runs|
            && (forall i | 0 <= i < |s.runs| && i != id :: s'.runs[i] == s.runs[i])
            && (step.Submitted? ==> s'.runs[id] == s.runs[id])
            && (step.SubmitRefused? ==> s'.runs[id] == if step.deleted then s.runs[id].(status := Deleted, attempts := []) else s.runs[id])
            && (step.SubmitFailed? ==>
                  s'.runs[id] == if s.runs[id].status.Running? then s.runs[id].(status := Failed) else s.runs[id])
  {
  }

  /** What the runner's answer makes of the row just inserted. */
  function AnsweredRow(r: Run, submit: SubmitOutcome, deleteOk: bool): Run
  {
    match submit
    case Accepted => r
    case AtCapacity => if deleteOk then r.(status := Deleted, attempts := []) else r
    case SubmitError => FailedIfRunning(r)
  }

  function AnsweredResult(id: RunId, runner: RunnerKey, submit: SubmitOutcome): ExecutionResult
  {
    match submit case Accepted => Dispatched(id, runner) case AtCapacity => StillQueued case SubmitError => FailedBeforeStart(id)
  }

  /** What a dispatch answers agrees with the switch and with the runner's answer, whatever ran meanwhile. */
  predicate AnsweredBy(r: ExecutionResult, oracle: DispatchOracle)
  {
    match r
    case Observed(_) => !oracle.enabled
    case Dispatched(_, _) => oracle.enabled && oracle.submit.Accepted?
    case FailedBeforeStart(_) => oracle.enabled && oracle.submit.SubmitError?
    case StillQueued => true
  }

  /** The runner refused, and so did the delete: the order stays queued beside a live row. */
  predicate RowLeftBehind(oracle: DispatchOracle)
  {
    oracle.submit.AtCapacity? && !oracle.deleteOk
  }

  /** A dispatch from its routing on, when nothing else runs. */
  function ExpectedOn(cfg: Config, s: State, order: Order, runner: RunnerKey, oracle: DispatchOracle): (ExecutionResult, seq<Run>)
  {
    if Gate(cfg, s, order.ceiling, oracle.reportsCost).Refuse? then (StillQueued, s.runs)
    else if !oracle.enabled then (Observed(runner), s.runs)
    else (AnsweredResult(|s.runs|, runner, oracle.submit), s.runs + [AnsweredRow(NewRun(order, runner, s.now), oracle.submit, oracle.deleteOk)])
  }

  /** The whole dispatch when nothing else runs: its result, and the rows it leaves. */
  function Expected(cfg: Config, s: State, order: Order, fleet: seq<PoolEntry>, oracle: DispatchOracle): (ExecutionResult, seq<Run>)
  {
    var runner := Chosen(cfg, s, order, PoolOf(cfg, s, fleet), oracle.allowPreview);
    if runner.None? then (StillQueued, s.runs) else ExpectedOn(cfg, s, order, runner.value, oracle)
  }

  /**
   * What each answer of an undisturbed dispatch means. A runner is named exactly when routing chose it and the
   * spend gate admits the order: `Observed` when only the switch stood in the way, and then no row is left;
   * otherwise the runner's own answer decides. In every other case the order is still queued and no row is left.
   */
  lemma AnswersExactly(cfg: Config, s: State, order: Order, fleet: seq<PoolEntry>, oracle: DispatchOracle, k: RunnerKey)
    requires DistinctKeys(fleet)
    ensures var (r, runs) := Expected(cfg, s, order, fleet, oracle);
            var d := Decide(order.input, PoolOf(cfg, s, fleet), Limits(cfg.globalMax, Total(AllSlots, s.runs), oracle.allowPreview));
            var offered := d.Dispatch? && d.runner == k && k in cfg.implemented && Gate(cfg, s, order.ceiling, oracle.reportsCost).Admit?;
            && (r == Observed(k) <==> offered && !oracle.enabled)
            && (r == Dispatched(|s.runs|, k) <==> offered && oracle.enabled && oracle.submit.Accepted?)
            && (offered && oracle.enabled && oracle.submit.AtCapacity? ==> r == StillQueued)
            && (offered && oracle.enabled && oracle.submit.SubmitError? ==> r == FailedBeforeStart(|s.runs|))
            && (r.Observed? ==> runs == s.runs)
            && (r.StillQueued? && !RowLeftBehind(oracle) ==> LiveRows(runs) == LiveRows(s.runs))
            && (r.Dispatched? ==> |runs| == |s.runs| + 1 && StartsOn(runs[|s.runs|], r.runner, order, s.now))
  {
    var runner := Chosen(cfg, s, order, PoolOf(cfg, s, fleet), oracle.allowPreview);
    if runner.Some? {
      RowsOnRunner(cfg, s, order, runner.value, oracle);
    }
  }

  lemma RowsOnRunner(cfg: Config, s: State, order: Order, runner: RunnerKey, oracle: DispatchOracle)
    ensures var (r, runs) := ExpectedOn(cfg, s, order, runner, oracle);
            && (r.StillQueued? && !RowLeftBehind(oracle) ==> LiveRows(runs) == LiveRows(s.runs))
            && (r.Dispatched? ==> |runs| == |s.runs| + 1 && StartsOn(runs[|s.runs|], r.runner, order, s.now))
  {
    var (r, runs) := ExpectedOn(cfg, s, order, runner, oracle);
    if |runs| > |s.runs| && r.StillQueued? && !RowLeftBehind(oracle) {
      assert runs[|s.runs|].status.Deleted? && runs[..|s.runs|] == s.runs;
      forall i: RunId ensures i in LiveRows(runs) <==> i in LiveRows(s.runs) {
      }
    }
  }

  /** A run just begun: running, on this runner, with the order's ceiling and one open attempt. */
  predicate StartsOn(r: Run, runner: RunnerKey, order: Order, now: int)
  {
    && r.runner == runner && r.status.Running? && r.spend == SpendRow(now, None, order.ceiling)
    && r.attemptCount == 1 && r.attempts == [Attempt(1, true)]
  }

  ghost function LiveRows(runs: seq<Run>): set<RunId>
  {
    set i: RunId | i < |runs| && !runs[i].status.Deleted?
  }

  /** An undisturbed dispatch leaves the order queued exactly when routing or the gate stops it, or the runner is full. */
  lemma StillQueuedExactly(cfg: Config, s: State, order: Order, fleet: seq<PoolEntry>, oracle: DispatchOracle)
    ensures var d := Decide(order.input, PoolOf(cfg, s, fleet), Limits(cfg.globalMax, Total(AllSlots, s.runs), oracle.allowPreview));
            Expected(cfg, s, order, fleet, oracle).0.StillQueued? <==>
              || d.Queued? || d.runner !in cfg.implemented
              || Gate(cfg, s, order.ceiling, oracle.reportsCost).Refuse?
              || (oracle.enabled && oracle.submit.AtCapacity?)
  {
  }

  /**
   * What each answer of an undisturbed resume means. The runner is asked exactly when the run is parked, its
   * gates pass and the switch is on; `WouldResume` says that only the switch stood in the way.
   */
  lemma ResumeAnswersExactly(cfg: Config, s: State, id: RunId, oracle: ResumeOracle)
    ensures var (r, runs) := ExpectedResume(cfg, s, id, oracle);
            var ready := && oracle.autoResume && HasStatus(s, id, Blocked) && oracle.gatesPass
                         && Gate(cfg, s, s.runs[id].spend.ceiling, oracle.reportsCost).Admit?;
            && (ReachedRunner(r) <==> ready && oracle.enabled)
            && (r == WouldResume <==> ready && !oracle.enabled)
            && (r == Refused(AutoResumeDisabled) <==> !oracle.autoResume)
            && (r == Refused(NotParked) <==> oracle.autoResume && !HasStatus(s, id, Blocked))
            && (r == Refused(RunnerAtCapacity) <==> ready && oracle.enabled && oracle.submit.AtCapacity?)
            && (!ReachedRunner(r) ==> runs == s.runs)
  {
  }

  lemma AnsweredAsExpected(created: seq<Run>, runs: seq<Run>, row: Run, runs': seq<Run>, answered: Run)
    requires created == runs + [row] && |runs'| == |created| && runs'[|runs|] == answered
    requires forall i | 0 <= i < |runs| :: runs'[i] == created[i]
    ensures runs' == runs + [answered]
  {
  }

  ghost predicate Quiet(others: seq<seq<Step>>)
  {
    forall i | 0 <= i < |others| :: others[i] == []
  }

  // ---------------------------------------------------------------------------------------------
  // The queue drain
  // ---------------------------------------------------------------------------------------------

  const DISPATCH_BATCH_SIZE := 25

  /** Rebuilding a stored order; a refused one is quarantined, by a write that may itself fail. */
  datatype Rebuild = Rebuilt(order: Order) | Unrebuildable(written: bool) | RebuildThrew

  /** A queued row with what its turn meets: the fleet, the outside answers, and the other processes. */
  datatype QueuedOrder = QueuedOrder(
    dispatchEnabled: bool, rebuild: Rebuild, fleet: seq<PoolEntry>, oracle: DispatchOracle, others: seq<seq<Step>>)

  datatype DrainResult = DrainResult(
    dispatched: nat, stillQueued: nat, observed: nat, failed: nat, unrebuildable: nat, repositoriesDisabled: nat)

  predicate WellFormed(row: QueuedOrder)
  {
    DistinctKeys(row.fleet) && |row.others| == 4 && forall i | 0 <= i < 4 :: NoDispatchSteps(row.others[i])
  }

  function Batch(queue: seq<QueuedOrder>): (rows: seq<QueuedOrder>)
    ensures |rows| <= DISPATCH_BATCH_SIZE && rows <= queue
    ensures |rows| < DISPATCH_BATCH_SIZE ==> rows == queue
  {
    if |queue| > DISPATCH_BATCH_SIZE then queue[..DISPATCH_BATCH_SIZE] else queue
  }

  function Considered(r: DrainResult): nat
  {
    r.dispatched + r.stillQueued + r.observed + r.failed + r.unrebuildable + r.repositoriesDisabled
  }

  function LostQuarantine(row: QueuedOrder): nat
  {
    if row.dispatchEnabled && row.rebuild.Unrebuildable? && !row.rebuild.written then 1 else 0
  }

  function LostQuarantines(rows: seq<QueuedOrder>, n: nat): nat
    requires n <= |rows|
  {
    if n == 0 then 0 else LostQuarantines(rows, n - 1) + LostQuarantine(rows[n - 1])
  }

  function LostDelete(row: QueuedOrder): nat
  {
    if row.dispatchEnabled && row.rebuild.Rebuilt? && RowLeftBehind(row.oracle) then 1 else 0
  }

  function LostDeletes(rows: seq<QueuedOrder>, n: nat): nat
    requires n <= |rows|
  {
    if n == 0 then 0 else LostDeletes(rows, n - 1) + LostDelete(rows[n - 1])
  }

  function Disabled(rows: seq<QueuedOrder>, n: nat): nat
    requires n <= |rows|
  {
    if n == 0 then 0 else Disabled(rows, n - 1) + if rows[n - 1].dispatchEnabled then 0 else 1
  }

  ghost predicate AllWellFormed(queue: seq<QueuedOrder>)
  {
    forall i | 0 <= i < |queue| :: WellFormed(queue[i])
  }

  /** What the counters say about the first `n` rows. */
  predicate Tallied(r: DrainResult, rows: seq<QueuedOrder>, n: nat)
    requires n <= |rows|
  {
    Considered(r) == n + LostQuarantines(rows, n) && r.repositoriesDisabled == Disabled(rows, n)
  }

  /** One row lands in one counter, or in two when its quarantine write is lost. */
  predicate CountedOnce(counts: DrainResult, r: DrainResult, row: QueuedOrder)
  {
    && Considered(r) == Considered(counts) + 1 + LostQuarantine(row)
    && r.repositoriesDisabled == counts.repositoriesDisabled + if row.dispatchEnabled then 0 else 1
  }

  /** How one row's turn went. */
  datatype Turn = RepositoryDisabled | NotRebuilt(written: bool) | Threw | Ran(result: ExecutionResult)

  datatype Counter = InDispatched | InStillQueued | InObserved | InFailed | InUnrebuildable | InDisabled

  function Reading(r: DrainResult, c: Counter): nat
  {
    match c
    case InDispatched => r.dispatched
    case InStillQueued => r.stillQueued
    case InObserved => r.observed
    case InFailed => r.failed
    case InUnrebuildable => r.unrebuildable
    case InDisabled => r.repositoriesDisabled
  }

  /** The counters a turn belongs to; a failed quarantine write belongs to two. */
  predicate BelongsIn(t: Turn, c: Counter)
  {
    match t
    case RepositoryDisabled => c.InDisabled?
    case NotRebuilt(written) => c.InUnrebuildable? || (c.InFailed? && !written)
    case Threw => c.InFailed?
    case Ran(Dispatched(_, _)) => c.InDispatched?
    case Ran(StillQueued) => c.InStillQueued?
    case Ran(Observed(_)) => c.InObserved?
    case Ran(FailedBeforeStart(_)) => c.InFailed?
  }

  /** The turn the row's own outside answers allow. */
  predicate TurnOf(row: QueuedOrder, t: Turn)
  {
    if !row.dispatchEnabled then t.RepositoryDisabled?
    else
      match row.rebuild
      case Unrebuildable(written) => t == NotRebuilt(written)
      case RebuildThrew => t.Threw?
      case Rebuilt(_) => t.Ran? && AnsweredBy(t.result, row.oracle)
  }

  ghost function TurnsIn(turns: seq<Turn>, c: Counter): set<nat>
  {
    set i: nat | i < |turns| && BelongsIn(turns[i], c)
  }

  /** Each row has had its turn, and every counter reads the number of turns that belong in it. */
  ghost predicate Recorded(r: DrainResult, rows: seq<QueuedOrder>, turns: seq<Turn>)
  {
    && |turns| <= |rows| && (forall i | 0 <= i < |turns| :: TurnOf(rows[i], turns[i]))
    && forall c :: Reading(r, c) == |TurnsIn(turns, c)|
  }

  /** One turn moves the counters it belongs in, by one. */
  ghost predicate CountsTurn(counts: DrainResult, r: DrainResult, t: Turn)
  {
    forall c :: Reading(r, c) == Reading(counts, c) + if BelongsIn(t, c) then 1 else 0
  }

  lemma NothingRecorded(rows: seq<QueuedOrder>)
    ensures Recorded(DrainResult(0, 0, 0, 0, 0, 0), rows, [])
  {
    forall c ensures TurnsIn([], c) == {} {
    }
  }

  lemma RecordedStep(counts: DrainResult, r: DrainResult, rows: seq<QueuedOrder>, turns: seq<Turn>, t: Turn)
    requires Recorded(counts, rows, turns) && |turns| < |rows| && TurnOf(rows[|turns|], t) && CountsTurn(counts, r, t)
    ensures Recorded(r, rows, turns + [t])
  {
    forall c ensures Reading(r, c) == |TurnsIn(turns + [t], c)| {
      OneMoreTurn(turns, t, c);
    }
  }

  lemma OneMoreTurn(turns: seq<Turn>, t: Turn, c: Counter)
    ensures TurnsIn(turns + [t], c) == TurnsIn(turns, c) + if BelongsIn(t, c) then {|turns|} else {}
  {
    forall i: nat ensures i in TurnsIn(turns + [t], c) <==> i in TurnsIn(turns, c) || (i == |turns| && BelongsIn(t, c)) {
      assert i < |turns| ==> (turns + [t])[i] == turns[i];
    }
  }

  lemma TurnIsCountedOnce(counts: DrainResult, r: DrainResult, row: QueuedOrder, t: Turn)
    requires TurnOf(row, t) && CountsTurn(counts, r, t)
    ensures CountedOnce(counts, r, row)
  {
    CountersOf(counts, r, t);
  }

  lemma CountersOf(counts: DrainResult, r: DrainResult, t: Turn)
    requires CountsTurn(counts, r, t)
    ensures r.dispatched == counts.dispatched + if BelongsIn(t, InDispatched) then 1 else 0
    ensures r.stillQueued == counts.stillQueued + if BelongsIn(t, InStillQueued) then 1 else 0
    ensures r.observed == counts.observed + if BelongsIn(t, InObserved) then 1 else 0
    ensures r.failed == counts.failed + if BelongsIn(t, InFailed) then 1 else 0
    ensures r.unrebuildable == counts.unrebuildable + if BelongsIn(t, InUnrebuildable) then 1 else 0
    ensures r.repositoriesDisabled == counts.repositoriesDisabled + if BelongsIn(t, InDisabled) then 1 else 0
  {
    assert Reading(r, InDispatched) == r.dispatched && Reading(r, InStillQueued) == r.stillQueued;
    assert Reading(r, InObserved) == r.observed && Reading(r, InFailed) == r.failed;
    assert Reading(r, InUnrebuildable) == r.unrebuildable && Reading(r, InDisabled) == r.repositoriesDisabled;
  }

  lemma TalliedStep(counts: DrainResult, r: DrainResult, rows: seq<QueuedOrder>, n: nat)
    requires n < |rows| && Tallied(counts, rows, n)
    requires CountedOnce(counts, r, rows[n])
    ensures Tallied(r, rows, n + 1)
  {
  }

  /** The live rows beyond the dispatched ones, and those beyond the failed ones as well. */
  function Unaccounted(live: nat, r: DrainResult): int { live - r.dispatched }
  function Overcounted(live: nat, r: DrainResult): int { live - r.dispatched - r.failed }

  function Live(runs: seq<Run>): nat
  {
    if runs == [] then 0 else Live(runs[..|runs| - 1]) + if runs[|runs| - 1].status.Deleted? then 0 else 1
  }

  lemma {:induction false} LiveSame(a: seq<Run>, b: seq<Run>)
    requires |a| == |b| && forall i | 0 <= i < |a| :: a[i].status.Deleted? <==> b[i].status.Deleted?
    ensures Live(a) == Live(b)
  {
    if a != [] {
      LiveSame(a[..|a| - 1], b[..|b| - 1]);
    }
  }

  /** One more row at most: it counts exactly when it is live. */
  lemma LiveGrowth(a: seq<Run>, b: seq<Run>)
    requires |a| <= |b| <= |a| + 1 && forall i | 0 <= i < |a| :: a[i].status.Deleted? <==> b[i].status.Deleted?
    ensures Live(b) == Live(a) + if |b| > |a| && !b[|a|].status.Deleted? then 1 else 0
  {
    if |b| == |a| {
      LiveSame(a, b);
    } else {
      LiveSame(a, b[..|a|]);
    }
  }

  // ---------------------------------------------------------------------------------------------
  // The service
  // ---------------------------------------------------------------------------------------------

  class Executor {
    const cfg: Config
    var s: State

    /** The database is where the machine's steps have brought it. */
    ghost predicate Valid()
      reads this
    {
      Reachable(cfg, s)
    }

    constructor (cfg: Config)
      ensures Valid() && this.cfg == cfg && s == INITIAL
    {
      InitialIsReachable(cfg);
      this.cfg := cfg;
      s := INITIAL;
    }

    method Do(step: Step)
      requires Valid()
      modifies this
      ensures Valid() && s == Apply(cfg, old(s), step)
    {
      StepIsReachable(cfg, s, step);
      s := Apply(cfg, s, step);
    }

    /** Other processes run while the dispatcher waits for its next statement. */
    method OthersWhileDispatching(steps: seq<Step>)
      requires Valid() && NoDispatchSteps(steps)
      modifies this
      ensures Valid() && s.dispatcher == old(s.dispatcher) && SameRows(old(s), s)
      ensures s == After(cfg, old(s), steps)
    {
      for i := 0 to |steps|
        invariant Valid() && s.dispatcher == old(s.dispatcher) && SameRows(old(s), s)
        invariant s == After(cfg, old(s), steps[..i])
      {
        ResumeStepKeepsRows(cfg, s, steps[i]);
        EventStepKeepsRows(s, steps[i]);
        assert steps[..i + 1][..i] == steps[..i];
        Do(steps[i]);
      }
      assert steps[..|steps|] == steps;
    }

    /** Other processes run while a resume waits for its next statement. */
    method OthersWhileResuming(p: Pid, steps: seq<Step>)
      requires Valid() && NoResumeSteps(steps, p)
      modifies this
      ensures Valid() && ResumeOf(s, p) == old(ResumeOf(s, p)) && NoClaimBy(old(s), s, p)
      ensures s == After(cfg, old(s), steps)
    {
      for i := 0 to |steps|
        invariant Valid() && ResumeOf(s, p) == old(ResumeOf(s, p)) && NoClaimBy(old(s), s, p)
        invariant s == After(cfg, old(s), steps[..i])
      {
        ghost var before := s;
        ForeignStep(cfg, s, steps[i], p);
        assert steps[..i + 1][..i] == steps[..i];
        Do(steps[i]);
        NoClaimsChain(old(s), before, s, p);
      }
      assert steps[..|steps|] == steps;
    }

    /** `decide`: the pool is loaded first, the slots in use are counted after it. */
    method DecideRunner(order: Order, fleet: seq<PoolEntry>, allowPreview: bool, others: seq<Step>)
      returns (runner: Option<RunnerKey>)
      requires Valid() && s.dispatcher.Free? && DistinctKeys(fleet) && NoDispatchSteps(others)
      modifies this
      ensures Valid() && SameRows(old(s), s)
      ensures s.dispatcher == if runner.Some? then Routed(order, runner.value) else Free
      ensures others == [] ==>
                && s == old(s).(dispatcher := s.dispatcher)
                && runner == Chosen(cfg, old(s), order, PoolOf(cfg, old(s), fleet), allowPreview)
    {
      var pool := PoolOf(cfg, s, fleet);
      PoolIsFaithful(cfg, s, fleet);
      LoadFact(cfg, s, order, pool);
      Do(LoadPool(order, pool));
      OthersWhileDispatching(others);
      runner := RouteTo(order, pool, allowPreview);
    }

    method RouteTo(order: Order, pool: seq<PoolEntry>, allowPreview: bool) returns (runner: Option<RunnerKey>)
      requires Valid() && s.dispatcher == Loaded(order, pool) && DistinctKeys(pool)
      modifies this
      ensures Valid() && s == old(s).(dispatcher := if runner.Some? then Routed(order, runner.value) else Free)
      ensures runner == Chosen(cfg, old(s), order, pool, allowPreview)
    {
      var decision, _ := DecideDispatch(order.input, pool, Limits(cfg.globalMax, Total(AllSlots, s.runs), allowPreview));
      RouteFact(cfg, s, order, pool, allowPreview);
      Do(Route(allowPreview));
      runner := if decision.Dispatch? && decision.runner in cfg.implemented then Some(decision.runner) else None;
    }

    /** The spend gate, and the insert that takes the slot. */
    method AdmitAndCreate(order: Order, runner: RunnerKey, oracle: DispatchOracle, before: seq<Step>, between: seq<Step>)
      returns (admitted: bool)
      requires Valid() && s.dispatcher == Routed(order, runner)
      requires NoDispatchSteps(before) && NoDispatchSteps(between)
      modifies this
      ensures Valid() && |old(s.runs)| <= |s.runs|
      ensures forall i | 0 <= i < |old(s.runs)| :: s.runs[i].status.Deleted? <==> old(s).runs[i].status.Deleted?
      ensures admitted && oracle.enabled ==>
                && |s.runs| == |old(s.runs)| + 1
                && s.dispatcher == Submitting(|old(s.runs)|)
                && s.runs[|old(s.runs)|] == NewRun(order, runner, s.now)
      ensures !admitted || !oracle.enabled ==> s.dispatcher.Free? && |s.runs| == |old(s.runs)|
      ensures before == [] && between == [] ==>
                && s.now == old(s.now)
                && s.runs == old(s.runs) + if admitted && oracle.enabled then [NewRun(order, runner, s.now)] else []
      ensures admitted == Gate(cfg, After(cfg, old(s), before), order.ceiling, oracle.reportsCost).Admit?
    {
      OthersWhileDispatching(before);
      var spend := Gate(cfg, s, order.ceiling, oracle.reportsCost);
      AdmitFact(cfg, s, order, runner, oracle.reportsCost);
      Do(AdmitDispatch(oracle.reportsCost));
      if spend.Refuse? {
        return false;
      }
      OthersWhileDispatching(between);
      CreateFact(cfg, s, order, runner, oracle.enabled);
      Do(CreateRun(oracle.enabled));
      return true;
    }

    /**
     * `dispatchWorkOrder`. A dispatched order has exactly one new live row, on the runner routing chose and
     * authorized for the order's ceiling; an order left queued or only observed has none, whether routing,
     * the spend gate or the runner itself refused it, unless the delete after the runner's refusal failed. With
     * nothing else running, result and rows are decided by those three, the switch and that delete.
     */
    method DispatchWorkOrder(order: Order, fleet: seq<PoolEntry>, oracle: DispatchOracle, others: seq<seq<Step>>)
      returns (r: ExecutionResult)
      requires Valid() && s.dispatcher.Free? && DistinctKeys(fleet)
      requires |others| == 4 && forall i | 0 <= i < 4 :: NoDispatchSteps(others[i])
      modifies this
      ensures Valid() && s.dispatcher.Free?
      ensures |old(s.runs)| <= |s.runs| <= |old(s.runs)| + 1
      ensures forall i | 0 <= i < |old(s.runs)| :: s.runs[i].status.Deleted? <==> old(s).runs[i].status.Deleted?
      ensures r.Dispatched? || r.FailedBeforeStart? ==>
                && r.id == |old(s.runs)| < |s.runs|
                && !s.runs[r.id].status.Deleted? && s.runs[r.id].spend.ceiling == order.ceiling
      ensures r.Dispatched? ==> s.runs[r.id].runner == r.runner
      ensures r.FailedBeforeStart? ==> !s.runs[r.id].status.Running?
      ensures AnsweredBy(r, oracle)
      ensures (r.StillQueued? && !RowLeftBehind(oracle)) || r.Observed? ==>
                forall i | |old(s.runs)| <= i < |s.runs| :: s.runs[i].status.Deleted?
      ensures Quiet(others) ==> (r, s.runs) == Expected(cfg, old(s), order, fleet, oracle)
    {
      var runner := DecideRunner(order, fleet, oracle.allowPreview, others[0]);
      if runner.None? {
        return StillQueued;
      }
      r := DispatchTo(runner.value, order, oracle, others[1], others[2], others[3]);
    }

    /** A dispatch from its routing on: the spend gate, the insert, and the submit. */
    method DispatchTo(runner: RunnerKey, order: Order, oracle: DispatchOracle, before: seq<Step>, between: seq<Step>, during: seq<Step>)
      returns (r: ExecutionResult)
      requires Valid() && s.dispatcher == Routed(order, runner)
      requires NoDispatchSteps(before) && NoDispatchSteps(between) && NoDispatchSteps(during)
      modifies this
      ensures Valid() && s.dispatcher.Free?
      ensures |old(s.runs)| <= |s.runs| <= |old(s.runs)| + 1
      ensures forall i | 0 <= i < |old(s.runs)| :: s.runs[i].status.Deleted? <==> old(s).runs[i].status.Deleted?
      ensures r.Dispatched? || r.FailedBeforeStart? ==>
                && r.id == |old(s.runs)| < |s.runs|
                && !s.runs[r.id].status.Deleted? && s.runs[r.id].spend.ceiling == order.ceiling
      ensures r.Dispatched? ==> s.runs[r.id].runner == r.runner
      ensures r.FailedBeforeStart? ==> !s.runs[r.id].status.Running?
      ensures AnsweredBy(r, oracle)
      ensures (r.StillQueued? && !RowLeftBehind(oracle)) || r.Observed? ==>
                forall i | |old(s.runs)| <= i < |s.runs| :: s.runs[i].status.Deleted?
      ensures before == between == during == [] ==> (r, s.runs) == ExpectedOn(cfg, old(s), order, runner, oracle)
    {
      ghost var start := s;
      var admitted := AdmitAndCreate(order, runner, oracle, before, between);
      assert start.runs + [] == start.runs;
      if !admitted {
        return StillQueued;
      }
      if !oracle.enabled {
        return Observed(runner);
      }
      var id := |s.runs| - 1;
      OthersWhileDispatching(during);
      ghost var created := s;
      r := Submit(id, runner, oracle.submit, oracle.deleteOk);
      if before == between == during == [] {
        var row := NewRun(order, runner, start.now);
        AnsweredAsExpected(created.runs, start.runs, row, s.runs, AnsweredRow(row, oracle.submit, oracle.deleteOk));
      }
    }

    method Submit(id: RunId, runner: RunnerKey, submit: SubmitOutcome, deleteOk: bool) returns (r: ExecutionResult)
      requires Valid() && s.dispatcher == Submitting(id) && id < |s.runs|
      modifies this
      ensures Valid() && s.dispatcher.Free? && |s.runs| == |old(s.runs)|
      ensures forall i | 0 <= i < |s.runs| && i != id :: s.runs[i] == old(s).runs[i]
      ensures r == AnsweredResult(id, runner, submit) && s.runs[id] == AnsweredRow(old(s).runs[id], submit, deleteOk)
    {
      var step := match submit case Accepted => Submitted case AtCapacity => SubmitRefused(deleteOk) case SubmitError => SubmitFailed;
      SubmitFact(cfg, s, id, step);
      Do(step);
      r := AnsweredResult(id, runner, submit);
    }

    /**
     * `resumeParkedRun`. The run is claimed by this call exactly when the result says the runner was reached: a
     * resume refused at any earlier gate, or only observed, has claimed nothing. A resumed run ends with the
     * attempt reported, open and last; a resume that failed leaves no run reading running. With nothing else
     * running, result and rows are decided by the row, the gates and the runner's answer.
     */
    method ResumeParkedRun(p: Pid, id: RunId, oracle: ResumeOracle, others: seq<seq<Step>>) returns (r: ResumeResult)
      requires Valid() && ResumeOf(s, p).NotResuming?
      requires |others| == 5 && forall i | 0 <= i < 5 :: NoResumeSteps(others[i], p)
      modifies this
      ensures Valid() && ResumeOf(s, p).NotResuming?
      ensures ClaimsKept(old(s), s)
      ensures if ReachedRunner(r) then HasClaimBy(old(s), s, p, id) else NoClaimBy(old(s), s, p)
      ensures r.Resumed? ==> NewestAttempt(s, id, r.attempt)
      ensures r.ResumeFailed? ==> !HasStatus(s, id, Running)
      ensures Quiet(others) ==> (r, s.runs) == ExpectedResume(cfg, old(s), id, oracle)
    {
      if !oracle.autoResume {
        return Refused(AutoResumeDisabled);
      }
      ghost var start := s;
      var claimed, stopped, number := ReadAdmitClaim(p, id, oracle, others[..3]);
      if !claimed {
        return stopped;
      }
      ghost var claim := s;
      OthersWhileResuming(p, others[3]);
      r := SubmitResume(p, number, oracle.submit, others[4]);
      if Quiet(others) {
        SettledAsExpected(cfg, start, claim, s, p, id, oracle);
      }
    }

    /** The resume's read, its gates and its claim. */
    method ReadAdmitClaim(p: Pid, id: RunId, oracle: ResumeOracle, others: seq<seq<Step>>)
      returns (claimed: bool, stopped: ResumeResult, number: nat)
      requires Valid() && ResumeOf(s, p).NotResuming?
      requires |others| == 3 && forall i | 0 <= i < 3 :: NoResumeSteps(others[i], p)
      modifies this
      ensures Valid()
      ensures ClaimsKept(old(s), s)
      ensures !claimed ==> ResumeOf(s, p).NotResuming? && NoClaimBy(old(s), s, p) && !ReachedRunner(stopped)
      ensures claimed ==>
                && ResumeOf(s, p).Claimed? && ResumeOf(s, p).id == id && ResumeOf(s, p).number == number
                && HasClaimBy(old(s), s, p, id)
      ensures Quiet(others) ==> ClaimExpected(cfg, old(s), s, p, id, oracle, claimed, if claimed then WouldResume else stopped)
    {
      claimed, stopped, number := false, Refused(NotParked), 0;
      ghost var start := s;
      var found := ReadRun(p, id, others[0]);
      if !found {
        return;
      }
      ghost var read := s;
      var admitted := PassGates(p, id, oracle, others[1]);
      NoClaimsChain(start, read, s, p);
      if !admitted || !oracle.enabled {
        stopped := if admitted then WouldResume else Refused(GatesRefused);
        return;
      }
      ghost var passed := s;
      OthersWhileResuming(p, others[2]);
      NoClaimsChain(start, passed, s, p);
      ghost var before := s;
      claimed, number := ClaimRun(p, id);
      if claimed {
        OwnClaim(start, before, s, p, id);
      }
    }

    method ReadRun(p: Pid, id: RunId, others: seq<Step>) returns (found: bool)
      requires Valid() && ResumeOf(s, p).NotResuming? && NoResumeSteps(others, p)
      modifies this
      ensures Valid() && NoClaimBy(old(s), s, p) && found == HasStatus(s, id, Blocked)
      ensures ResumeOf(s, p) == if found then Read(id, s.runs[id].attemptCount) else Resume.NotResuming
      ensures others == [] ==> s.runs == old(s.runs) && s.now == old(s.now)
    {
      OthersWhileResuming(p, others);
      Do(ResumeRead(p, id));
      found := ResumeOf(s, p).Read?;
    }

    /** The gates before the spend gate, the spend gate, and the switch: only with all three does it go on. */
    method PassGates(p: Pid, id: RunId, oracle: ResumeOracle, others: seq<Step>) returns (admitted: bool)
      requires Valid() && ResumeOf(s, p).Read? && ResumeOf(s, p).id == id && NoResumeSteps(others, p)
      modifies this
      ensures Valid() && NoClaimBy(old(s), s, p)
      ensures admitted == (id < |s.runs| && oracle.gatesPass && Gate(cfg, s, s.runs[id].spend.ceiling, oracle.reportsCost).Admit?)
      ensures ResumeOf(s, p) == if admitted && oracle.enabled then Cleared(id, old(ResumeOf(s, p).count)) else Resume.NotResuming
      ensures others == [] ==> s.runs == old(s.runs) && s.now == old(s.now)
    {
      OthersWhileResuming(p, others);
      admitted := id < |s.runs| && oracle.gatesPass && Gate(cfg, s, s.runs[id].spend.ceiling, oracle.reportsCost).Admit?;
      Do(ResumeClear(p, oracle.gatesPass && oracle.enabled, oracle.reportsCost));
    }

    /** The guarded update: it wins exactly when the row still reads blocked. */
    method ClaimRun(p: Pid, id: RunId) returns (won: bool, number: nat)
      requires Valid() && ResumeOf(s, p).Cleared? && ResumeOf(s, p).id == id
      modifies this
      ensures Valid() && won == HasStatus(old(s), id, Blocked)
      ensures !won ==> s.runs == old(s.runs) && s.claims == old(s.claims) && ResumeOf(s, p).NotResuming?
      ensures won ==>
                && number == Max1(old(ResumeOf(s, p).count)) + 1
                && s.runs == old(s).runs[id := old(s).runs[id].(status := Running, attemptCount := number)]
                && s.claims == old(s.claims) + [Claim(id, old(s).runs[id].parks, p)]
                && ResumeOf(s, p) == Claimed(id, number, old(ResumeOf(s, p).count), old(s).runs[id].attemptCount)
    {
      Do(ResumeClaim(p));
      won := ResumeOf(s, p).Claimed?;
      number := if won then ResumeOf(s, p).number else 0;
    }

    /**
     * After the claim: the runner's answer settles it. An accepted run whose attempt row cannot be inserted is
     * failed like one the runner threw on.
     */
    method SubmitResume(p: Pid, number: nat, submit: SubmitOutcome, others: seq<Step>) returns (r: ResumeResult)
      requires Valid() && ResumeOf(s, p).Claimed? && ResumeOf(s, p).number == number && NoResumeSteps(others, p)
      modifies this
      ensures Valid() && ResumeOf(s, p).NotResuming? && NoClaimBy(old(s), s, p)
      ensures var id := old(ResumeOf(s, p)).id;
              && r == (match submit
                       case Accepted =>
                         if CanOpen(After(cfg, Apply(cfg, old(s), ResumeSubmitted(p)), others).runs, id, number)
                         then Resumed(number) else ResumeResult.ResumeFailed
                       case AtCapacity => Refused(RunnerAtCapacity)
                       case SubmitError => ResumeResult.ResumeFailed)
              && (r.Resumed? ==> NewestAttempt(s, id, number))
              && (r.ResumeFailed? ==> !HasStatus(s, id, Running))
      ensures others == [] && old(ResumeOf(s, p)).id < |old(s.runs)| ==>
                var id, proc := old(ResumeOf(s, p)).id, old(ResumeOf(s, p));
                s.runs == old(s).runs[id := SubmittedRow(old(s).runs[id], proc, p, submit)]
    {
      match submit {
        case Accepted =>
          r := OpenAttempt(p, number, others);
        case AtCapacity =>
          Settle(p, ResumeRefused(p));
          r := Refused(RunnerAtCapacity);
        case SubmitError =>
          Settle(p, Step.ResumeFailed(p));
          r := ResumeResult.ResumeFailed;
      }
    }

    /** `openResumedAttempt`: close what is open, then insert; an insert that throws fails the run. */
    method OpenAttempt(p: Pid, number: nat, others: seq<Step>) returns (r: ResumeResult)
      requires Valid() && ResumeOf(s, p).Claimed? && ResumeOf(s, p).number == number && NoResumeSteps(others, p)
      modifies this
      ensures Valid() && ResumeOf(s, p).NotResuming? && NoClaimBy(old(s), s, p)
      ensures var id := old(ResumeOf(s, p)).id;
              && r == (if CanOpen(After(cfg, Apply(cfg, old(s), ResumeSubmitted(p)), others).runs, id, number)
                       then Resumed(number) else ResumeResult.ResumeFailed)
              && (r.Resumed? ==> NewestAttempt(s, id, number))
              && (r.ResumeFailed? ==> !HasStatus(s, id, Running))
      ensures others == [] && old(ResumeOf(s, p)).id < |old(s.runs)| ==>
                var id, proc := old(ResumeOf(s, p)).id, old(ResumeOf(s, p));
                s.runs == old(s).runs[id := SubmittedRow(old(s).runs[id], proc, p, Accepted)]
    {
      Settle(p, ResumeSubmitted(p));
      OthersWhileResuming(p, others);
      var inserted := CanOpen(s.runs, ResumeOf(s, p).id, number);
      Settle(p, ResumeOpen(p));
      r := if inserted then Resumed(number) else ResumeResult.ResumeFailed;
    }

    method Settle(p: Pid, step: Step)
      requires Valid() && step in {ResumeSubmitted(p), ResumeOpen(p), ResumeRefused(p), Step.ResumeFailed(p)}
      requires if step == ResumeOpen(p) then ResumeOf(s, p).Opening? else ResumeOf(s, p).Claimed?
      modifies this
      ensures Valid() && s.claims == old(s.claims) && s == Apply(cfg, old(s), step)
      ensures ResumeOf(s, p) == if step == ResumeSubmitted(p)
                                then Opening(old(ResumeOf(s, p)).id, old(ResumeOf(s, p)).number) else Resume.NotResuming
      ensures s.runs == if old(ResumeOf(s, p)).id < |old(s.runs)|
                        then old(s).runs[old(ResumeOf(s, p)).id := SettledRow(old(s).runs[old(ResumeOf(s, p)).id], old(ResumeOf(s, p)), step)]
                        else old(s.runs)
    {
      SettleFact(cfg, s, p, step);
      Do(step);
    }

    /**
     * `drain`: the oldest orders, one after another. Every order considered lands in one counter, except that
     * an unrebuildable one whose quarantine write fails lands in two; and the live rows grow by the orders
     * dispatched, by those of the failed ones that got as far as a row, and by refused ones whose delete failed.
     */
    method Drain(queue: seq<QueuedOrder>) returns (r: DrainResult, ghost turns: seq<Turn>)
      requires Valid() && s.dispatcher.Free? && AllWellFormed(queue)
      modifies this
      ensures Valid() && s.dispatcher.Free?
      ensures |turns| == |Batch(queue)| && Recorded(r, Batch(queue), turns)
      ensures Tallied(r, Batch(queue), |Batch(queue)|)
      ensures Live(old(s.runs)) + r.dispatched <= Live(s.runs)
      ensures Live(s.runs) <= Live(old(s.runs)) + r.dispatched + r.failed + LostDeletes(Batch(queue), |Batch(queue)|)
    {
      var rows := Batch(queue);
      assert forall i | 0 <= i < |rows| :: WellFormed(queue[i]) && rows[i] == queue[i];
      r, turns := DispatchAll(rows);
    }

    method DispatchAll(rows: seq<QueuedOrder>) returns (r: DrainResult, ghost turns: seq<Turn>)
      requires Valid() && s.dispatcher.Free? && AllWellFormed(rows)
      modifies this
      ensures Valid() && s.dispatcher.Free?
      ensures |turns| == |rows| && Recorded(r, rows, turns)
      ensures Tallied(r, rows, |rows|)
      ensures Live(old(s.runs)) + r.dispatched <= Live(s.runs)
      ensures Live(s.runs) <= Live(old(s.runs)) + r.dispatched + r.failed + LostDeletes(rows, |rows|)
    {
      r, turns := DrainResult(0, 0, 0, 0, 0, 0), [];
      NothingRecorded(rows);
      for i := 0 to |rows|
        invariant Valid() && s.dispatcher.Free?
        invariant |turns| == i && Recorded(r, rows, turns) && Tallied(r, rows, i)
        invariant Overcounted(Live(s.runs), r) - LostDeletes(rows, i) <= Live(old(s.runs)) <= Unaccounted(Live(s.runs), r)
      {
        ghost var counts := r;
        ghost var turn;
        r, turn := DispatchOne(rows[i], r);
        RecordedStep(counts, r, rows, turns, turn);
        TurnIsCountedOnce(counts, r, rows[i], turn);
        TalliedStep(counts, r, rows, i);
        turns := turns + [turn];
      }
    }

    method DispatchOne(row: QueuedOrder, counts: DrainResult) returns (r: DrainResult, ghost turn: Turn)
      requires Valid() && s.dispatcher.Free? && WellFormed(row)
      modifies this
      ensures Valid() && s.dispatcher.Free?
      ensures TurnOf(row, turn) && CountsTurn(counts, r, turn)
      ensures Unaccounted(Live(s.runs), r) >= Unaccounted(Live(old(s.runs)), counts)
      ensures Overcounted(Live(s.runs), r) <= Overcounted(Live(old(s.runs)), counts) + LostDelete(row)
    {
      if !row.dispatchEnabled {
        return counts.(repositoriesDisabled := counts.repositoriesDisabled + 1), RepositoryDisabled;
      }
      match row.rebuild {
        case Unrebuildable(written) =>
          turn := NotRebuilt(written);
          r := counts.(unrebuildable := counts.unrebuildable + 1, failed := counts.failed + if written then 0 else 1);
        case RebuildThrew =>
          turn := Threw;
          r := counts.(failed := counts.failed + 1);
        case Rebuilt(order) =>
          ghost var before := s.runs;
          var execution := DispatchWorkOrder(order, row.fleet, row.oracle, row.others);
          LiveGrowth(before, s.runs);
          turn := Ran(execution);
          match execution {
            case Dispatched(_, _) => r := counts.(dispatched := counts.dispatched + 1);
            case StillQueued => r := counts.(stillQueued := counts.stillQueued + 1);
            case Observed(_) => r := counts.(observed := counts.observed + 1);
            case FailedBeforeStart(_) => r := counts.(failed := counts.failed + 1);
          }
      }
    }
  }
}
