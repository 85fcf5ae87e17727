/**
 * Dispatch and resume as one transition system (`run-executor.service.ts`, with the routing reads of
 * `dispatch.service.ts` and the status writes of `run-events.service.ts` and `run-poller.service.ts`).
 *
 * Every database operation is one atomic step. One dispatcher is in flight at a time, as the queue drain
 * runs them; any number of resumes interleave with it, with each other and with the run events. A step
 * whose process is not at the right point, or whose row does not match the statement's guard, changes
 * nothing. `Quarantined` is written by nothing here.
 */
module RunMachine {
  import opened Base
  import opened DispatchPolicy
  import opened Spend

  type RunId = nat
  type Pid = nat

  datatype Status = Running | Stalled | Blocked | Succeeded | Failed | Quarantined | Deleted

  /** A `RunAttempt` row; `open` is outcome `running`. */
  datatype Attempt = Attempt(number: nat, open: bool)

  /**
   * A `Run` row, with its order's budget ceiling and its attempts. A deleted row keeps its place as a
   * tombstone no query returns.
   *
   * `lowest`, `reports` and `parks` are history no statement reads: the least the run has ever been
   * counted for, how many cost reports moved its cost, and how often it has entered `blocked`.
   */
  datatype Run = Run(
    runner: RunnerKey, status: Status, spend: SpendRow, attemptCount: nat, attempts: seq<Attempt>,
    lowest: nat, reports: nat, parks: nat)

  /** What stays fixed while the machine runs. */
  datatype Config = Config(
    ceiling: HardCeiling, globalMax: Option<nat>, maxConcurrency: map<RunnerKey, nat>, implemented: set<RunnerKey>)

  datatype Order = Order(input: Input, ceiling: Option<nat>)

  datatype Dispatcher =
    | Free
    | Loaded(order: Order, pool: seq<PoolEntry>)
    | Routed(order: Order, runner: RunnerKey)
    | Admitted(order: Order, runner: RunnerKey)
    | Submitting(id: RunId)

  /** Where one resume stands. `before` is history: the attempt count its claim overwrote. */
  datatype Resume =
    | NotResuming
    | Read(id: RunId, count: nat)
    | Cleared(id: RunId, count: nat)
    | Claimed(id: RunId, number: nat, previous: nat, before: nat)
    | Opening(id: RunId, number: nat)

  /** A resume's winning claim: the run, which of its parks it ended, and whose claim it was. */
  datatype Claim = Claim(id: RunId, park: nat, owner: Pid)

  datatype State = State(
    runs: seq<Run>, now: int, dispatcher: Dispatcher, resumes: map<Pid, Resume>, claims: seq<Claim>)

  datatype Step =
    | Tick(to: int)
    // the dispatcher
    | LoadPool(order: Order, pool: seq<PoolEntry>)
    | Route(allowPreview: bool)
    | AdmitDispatch(reportsCost: bool)
    | CreateRun(enabled: bool)
    | Submitted
    | SubmitRefused(deleted: bool)
    | SubmitFailed
    // one resume
    | ResumeRead(p: Pid, id: RunId)
    | ResumeClear(p: Pid, gatesPass: bool, reportsCost: bool)
    | ResumeClaim(p: Pid)
    | ResumeSubmitted(p: Pid)
    | ResumeOpen(p: Pid)
    | ResumeRefused(p: Pid)
    | ResumeFailed(p: Pid)
    // run events
    | Block(id: RunId)
    | ReportAgain(id: RunId)
    | Stall(id: RunId)
    | Conclude(id: RunId, succeeded: bool)
    | CloseAttempts(id: RunId)
    | ReportCost(id: RunId, cost: nat)

  // ---------------------------------------------------------------------------------------------
  // Queries
  // ---------------------------------------------------------------------------------------------

  predicate Occupying(s: Status)
  {
    s.Running? || s.Stalled? || s.Blocked?
  }

  /** Row-by-row quantities whose totals the invariants are about. */
  datatype Measure =
    | Slots(key: RunnerKey)
    | AllSlots
    | Exposure(from: int, to: int)
    | Lowest(from: int, to: int)
    | Growth(from: int, to: int)
    | Overspends(from: int, to: int)

  function Weigh(m: Measure, r: Run): nat
  {
    if r.status.Deleted? then 0 else
    match m
    case Slots(k) => if Occupying(r.status) && r.runner == k then 1 else 0
    case AllSlots => if Occupying(r.status) then 1 else 0
    case Exposure(from, to) => if InWindow(r.spend, from, to) then Charge(r.spend) else 0
    case Lowest(from, to) => if InWindow(r.spend, from, to) then r.lowest else 0
    case Growth(from, to) => if InWindow(r.spend, from, to) && Charge(r.spend) > r.lowest then Charge(r.spend) - r.lowest else 0
    case Overspends(from, to) => if InWindow(r.spend, from, to) then Overspend(r.spend) else 0
  }

  function Total(m: Measure, runs: seq<Run>): nat
  {
    if runs == [] then 0 else Total(m, runs[..|runs| - 1]) + Weigh(m, runs[|runs| - 1])
  }

  /** The live rows as the ledger reads them. */
  function Ledger(runs: seq<Run>): seq<SpendRow>
  {
    if runs == [] then []
    else
      var r := runs[|runs| - 1];
      Ledger(runs[..|runs| - 1]) + if r.status.Deleted? then [] else [r.spend]
  }

  function From(cfg: Config, now: int): int
  {
    now - cfg.ceiling.windowDays * DAY_MS
  }

  function Gate(cfg: Config, s: State, ceiling: Option<nat>, reportsCost: bool): SpendVerdict
  {
    DecideSpendAdmission(cfg.ceiling, TallyOf(Ledger(s.runs), From(cfg, s.now), s.now), OrderBudget(ceiling, reportsCost))
  }

  function MaxConcurrency(cfg: Config, k: RunnerKey): nat
  {
    if k in cfg.maxConcurrency then cfg.maxConcurrency[k] else 0
  }

  /** The pool as `loadPool` builds it: declared limits, and the live runs counted in this state. */
  predicate FaithfulPool(cfg: Config, s: State, pool: seq<PoolEntry>)
  {
    && DistinctKeys(pool)
    && forall e | e in pool ::
         && e.capabilities.maxConcurrency == MaxConcurrency(cfg, e.capabilities.key)
         && e.liveRuns == Total(Slots(e.capabilities.key), s.runs)
  }

  function ResumeOf(s: State, p: Pid): Resume
  {
    if p in s.resumes then s.resumes[p] else NotResuming
  }

  predicate HasStatus(s: State, id: RunId, status: Status)
  {
    id < |s.runs| && s.runs[id].status == status
  }

  // ---------------------------------------------------------------------------------------------
  // Statements
  // ---------------------------------------------------------------------------------------------

  function SetRun(s: State, id: RunId, r: Run): State
    requires id < |s.runs|
  {
    s.(runs := s.runs[id := r])
  }

  function SetResume(s: State, p: Pid, r: Resume): State
  {
    s.(resumes := s.resumes[p := r])
  }

  function CloseAll(attempts: seq<Attempt>): (closed: seq<Attempt>)
    ensures |closed| == |attempts|
    ensures forall i | 0 <= i < |attempts| :: closed[i] == Attempt(attempts[i].number, false)
  {
    if attempts == [] then [] else [Attempt(attempts[0].number, false)] + CloseAll(attempts[1..])
  }

  /** Entering `blocked`; a write that finds the row already blocked enters nothing. */
  function Park(r: Run): Run
  {
    r.(status := Blocked, parks := if r.status.Blocked? then r.parks else r.parks + 1)
  }

  function NewRun(order: Order, runner: RunnerKey, now: int): Run
  {
    var spend := SpendRow(now, None, order.ceiling);
    Run(runner, Running, spend, 1, [Attempt(1, true)], Charge(spend), 0, 0)
  }

  function FailIfRunning(s: State, id: RunId): State
  {
    if HasStatus(s, id, Running) then SetRun(s, id, s.runs[id].(status := Failed)) else s
  }

  function Max1(n: nat): nat
  {
    if n < 1 then 1 else n
  }

  // ---------------------------------------------------------------------------------------------
  // Steps
  // ---------------------------------------------------------------------------------------------

  function DispatchStep(cfg: Config, s: State, step: Step): State
  {
    match (step, s.dispatcher)
    case (LoadPool(order, pool), Free) =>
      if FaithfulPool(cfg, s, pool) then s.(dispatcher := Loaded(order, pool)) else s
    case (Route(allowPreview), Loaded(order, pool)) =>
      var d := Decide(order.input, pool, Limits(cfg.globalMax, Total(AllSlots, s.runs), allowPreview));
      s.(dispatcher := if d.Dispatch? && d.runner in cfg.implemented then Routed(order, d.runner) else Free)
    case (AdmitDispatch(reportsCost), Routed(order, runner)) =>
      s.(dispatcher := if Gate(cfg, s, order.ceiling, reportsCost).Admit? then Admitted(order, runner) else Free)
    case (CreateRun(enabled), Admitted(order, runner)) =>
      if enabled
      then s.(runs := s.runs + [NewRun(order, runner, s.now)], dispatcher := Submitting(|s.runs|))
      else s.(dispatcher := Free)
    case (Submitted, Submitting(id)) => s.(dispatcher := Free)
    case (SubmitRefused(deleted), Submitting(id)) =>
      // the delete's own failure is swallowed, and the row stays
      var freed := s.(dispatcher := Free);
      if deleted && id < |s.runs| then SetRun(freed, id, s.runs[id].(status := Deleted, attempts := [])) else freed
    case (SubmitFailed, Submitting(id)) => FailIfRunning(s.(dispatcher := Free), id)
    case _ => s
  }

  function ResumeStep(cfg: Config, s: State, step: Step): State
  {
    match step
    case ResumeRead(p, id) =>
      if ResumeOf(s, p).NotResuming? && HasStatus(s, id, Blocked)
      then SetResume(s, p, Read(id, s.runs[id].attemptCount)) else s
    case ResumeClear(p, gatesPass, reportsCost) =>
      (match ResumeOf(s, p)
       case Read(id, count) =>
         if id < |s.runs| && gatesPass && Gate(cfg, s, s.runs[id].spend.ceiling, reportsCost).Admit?
         then SetResume(s, p, Cleared(id, count)) else SetResume(s, p, NotResuming)
       case _ => s)
    case ResumeClaim(p) =>
      (match ResumeOf(s, p)
       case Cleared(id, count) =>
         if HasStatus(s, id, Blocked) then
           var number := Max1(count) + 1;
           var r := s.runs[id];
           SetRun(SetResume(s, p, Claimed(id, number, count, r.attemptCount)), id,
                  r.(status := Running, attemptCount := number)).(claims := s.claims + [Claim(id, r.parks, p)])
         else SetResume(s, p, NotResuming)
       case _ => s)
    case ResumeSubmitted(p) =>
      (match ResumeOf(s, p)
       case Claimed(id, number, _, _) =>
         var opening := SetResume(s, p, Opening(id, number));
         if id < |s.runs| then SetRun(opening, id, s.runs[id].(attempts := CloseAll(s.runs[id].attempts))) else opening
       case _ => s)
    case ResumeOpen(p) =>
      (match ResumeOf(s, p)
       case Opening(id, number) =>
         var done := SetResume(s, p, NotResuming);
         if id >= |s.runs| || s.runs[id].status.Deleted? then done
         // the unique key on (run, number): the insert throws and the run is failed
         else if exists a | a in s.runs[id].attempts :: a.number == number then FailIfRunning(done, id)
         else SetRun(done, id, s.runs[id].(attempts := s.runs[id].attempts + [Attempt(number, true)]))
       case _ => s)
    case ResumeRefused(p) =>
      (match ResumeOf(s, p)
       case Claimed(id, _, previous, _) =>
         var done := SetResume(s, p, NotResuming);
         if HasStatus(s, id, Running) then SetRun(done, id, Park(s.runs[id]).(attemptCount := previous)) else done
       case _ => s)
    case ResumeFailed(p) =>
      (match ResumeOf(s, p)
       case Claimed(id, _, _, _) => FailIfRunning(SetResume(s, p, NotResuming), id)
       case _ => s)
    case _ => s
  }

  function EventStep(s: State, step: Step): State
  {
    match step
    case Tick(to) => if to >= s.now then s.(now := to) else s
    case Block(id) =>
      if id < |s.runs| && Occupying(s.runs[id].status) then SetRun(s, id, Park(s.runs[id])) else s
    case ReportAgain(id) =>
      if HasStatus(s, id, Stalled) || HasStatus(s, id, Blocked) then SetRun(s, id, s.runs[id].(status := Running)) else s
    case Stall(id) =>
      if id < |s.runs| && Occupying(s.runs[id].status) then SetRun(s, id, s.runs[id].(status := Stalled)) else s
    case Conclude(id, succeeded) =>
      if id < |s.runs| && Occupying(s.runs[id].status)
      then SetRun(s, id, s.runs[id].(status := if succeeded then Succeeded else Failed)) else s
    case CloseAttempts(id) =>
      if HasStatus(s, id, Succeeded) || HasStatus(s, id, Failed)
      then SetRun(s, id, s.runs[id].(attempts := CloseAll(s.runs[id].attempts))) else s
    case ReportCost(id, cost) =>
      if id < |s.runs| && !s.runs[id].status.Deleted? && (s.runs[id].spend.cost.None? || s.runs[id].spend.cost.value < cost) then
        var r := s.runs[id];
        var spend := r.spend.(cost := Some(cost));
        SetRun(s, id, r.(spend := spend, reports := r.reports + 1,
                         lowest := if Charge(spend) < r.lowest then Charge(spend) else r.lowest))
      else s
    case _ => s
  }

  predicate IsDispatchStep(step: Step)
  {
    step.LoadPool? || step.Route? || step.AdmitDispatch? || step.CreateRun? || step.Submitted? || step.SubmitRefused? || step.SubmitFailed?
  }

  predicate IsResumeStep(step: Step)
  {
    step.ResumeRead? || step.ResumeClear? || step.ResumeClaim? || step.ResumeSubmitted? || step.ResumeOpen?
    || step.ResumeRefused? || step.ResumeFailed?
  }

  function Apply(cfg: Config, s: State, step: Step): State
  {
    if IsDispatchStep(step) then DispatchStep(cfg, s, step)
    else if IsResumeStep(step) then ResumeStep(cfg, s, step)
    else EventStep(s, step)
  }

  const INITIAL := State([], 0, Free, map[], [])

  function Reach(cfg: Config, steps: seq<Step>): State
  {
    if steps == [] then INITIAL else Apply(cfg, Reach(cfg, steps[..|steps| - 1]), steps[|steps| - 1])
  }

  /** The state some steps lead to from `s`. */
  function After(cfg: Config, s: State, steps: seq<Step>): State
  {
    if steps == [] then s else Apply(cfg, After(cfg, s, steps[..|steps| - 1]), steps[|steps| - 1])
  }

  ghost predicate Reachable(cfg: Config, s: State)
  {
    exists steps :: Reach(cfg, steps) == s
  }

  lemma InitialIsReachable(cfg: Config)
    ensures Reachable(cfg, INITIAL)
  {
    assert Reach(cfg, []) == INITIAL;
  }

  lemma StepIsReachable(cfg: Config, s: State, step: Step)
    requires Reachable(cfg, s)
    ensures Reachable(cfg, Apply(cfg, s, step))
  {
    var steps :| Reach(cfg, steps) == s;
    assert (steps + [step])[..|steps|] == steps;
    assert Reach(cfg, steps + [step]) == Apply(cfg, s, step);
  }

  // ---------------------------------------------------------------------------------------------
  // Totals
  // ---------------------------------------------------------------------------------------------

  /** Totals compare row by row, also between two measures. */
  lemma {:induction false} TotalMonotone(m: Measure, a: seq<Run>, m': Measure, b: seq<Run>)
    requires |a| == |b| && forall i | 0 <= i < |a| :: Weigh(m', b[i]) <= Weigh(m, a[i])
    ensures Total(m', b) <= Total(m, a)
  {
    if a != [] {
      var n := |a| - 1;
      TotalMonotone(m, a[..n], m', b[..n]);
    }
  }

  lemma TotalAppend(m: Measure, runs: seq<Run>, r: Run)
    ensures Total(m, runs + [r]) == Total(m, runs) + Weigh(m, r)
  {
    assert (runs + [r])[..|runs|] == runs;
  }
}
