/**
 * Where every run and every claim comes from: the route that chose the runner and the gate that admitted the
 * money, each on the rows as they stood, in any state the dispatch and resume machine reaches.
 */
module RunOrigins {
  import opened Base
  import opened DispatchPolicy
  import opened Spend
  import opened RunMachine

  /** The states that some steps pass through, the first and the last included. */
  ghost predicate IsHistory(cfg: Config, states: seq<State>, steps: seq<Step>)
  {
    && |states| == |steps| + 1 && states[0] == INITIAL
    && forall i | 0 <= i < |steps| :: Follows(cfg, states, steps, i)
  }

  ghost predicate Follows(cfg: Config, states: seq<State>, steps: seq<Step>, i: nat)
    requires i < |steps| && |states| == |steps| + 1
  {
    states[i + 1] == Apply(cfg, states[i], steps[i])
  }

  /** Every run of the machine has its history, which ends in the state the run reaches. */
  lemma {:induction false} HistoryOf(cfg: Config, steps: seq<Step>) returns (states: seq<State>)
    ensures IsHistory(cfg, states, steps) && states[|steps|] == Reach(cfg, steps)
  {
    states := [INITIAL];
    if steps != [] {
      var n := |steps| - 1;
      var before := HistoryOf(cfg, steps[..n]);
      states := before + [Reach(cfg, steps)];
      forall i | 0 <= i < |steps| ensures Follows(cfg, states, steps, i) {
        assert i < n ==> Follows(cfg, before, steps[..n], i);
      }
    }
  }

  // ---------------------------------------------------------------------------------------------
  // Runs
  // ---------------------------------------------------------------------------------------------

  /** From step `k` on, and until step `n`, the dispatcher is at this point. */
  ghost predicate Holds(cfg: Config, states: seq<State>, steps: seq<Step>, k: nat, n: nat, d: Dispatcher)
    requires IsHistory(cfg, states, steps)
  {
    k < n <= |steps| && forall i | k < i <= n :: states[i].dispatcher == d
  }

  ghost predicate LoadedAt(cfg: Config, states: seq<State>, steps: seq<Step>, k: nat, n: nat, order: Order, pool: seq<PoolEntry>)
    requires IsHistory(cfg, states, steps)
  {
    && Holds(cfg, states, steps, k, n, Loaded(order, pool))
    && steps[k] == LoadPool(order, pool) && FaithfulPool(cfg, states[k], pool)
  }

  /** The route of the loaded pool and of the fleet at step `k` dispatches to this runner. */
  ghost predicate RoutedAt(cfg: Config, states: seq<State>, steps: seq<Step>, k: nat, n: nat, order: Order, pool: seq<PoolEntry>, runner: RunnerKey)
    requires IsHistory(cfg, states, steps)
  {
    && Holds(cfg, states, steps, k, n, Routed(order, runner))
    && steps[k].Route? && runner in cfg.implemented
    && var limits := Limits(cfg.globalMax, Total(AllSlots, states[k].runs), steps[k].allowPreview);
       Decide(order.input, pool, limits).Dispatch? && Decide(order.input, pool, limits).runner == runner
  }

  ghost predicate AdmittedAt(cfg: Config, states: seq<State>, steps: seq<Step>, k: nat, n: nat, order: Order, runner: RunnerKey)
    requires IsHistory(cfg, states, steps)
  {
    && Holds(cfg, states, steps, k, n, Admitted(order, runner))
    && steps[k].AdmitDispatch? && Gate(cfg, states[k], order.ceiling, steps[k].reportsCost).Admit?
  }

  /** The four steps of one dispatch, by their positions. */
  datatype Origin = Origin(order: Order, pool: seq<PoolEntry>, loaded: nat, routed: nat, admitted: nat, created: nat)

  ghost predicate Originates(cfg: Config, states: seq<State>, steps: seq<Step>, o: Origin, runner: RunnerKey)
    requires IsHistory(cfg, states, steps)
  {
    && o.created < |steps|
    && LoadedAt(cfg, states, steps, o.loaded, o.routed, o.order, o.pool)
    && RoutedAt(cfg, states, steps, o.routed, o.admitted, o.order, o.pool, runner)
    && AdmittedAt(cfg, states, steps, o.admitted, o.created, o.order, runner)
    && steps[o.created] == CreateRun(true)
  }

  /** What never changes about a run: its runner, its start and its ceiling. */
  predicate SameOrigin(r: Run, r': Run)
  {
    r'.runner == r.runner && r'.spend.startedAt == r.spend.startedAt && r'.spend.ceiling == r.spend.ceiling
  }

  ghost predicate RowsKept(s: State, s': State)
  {
    |s.runs| <= |s'.runs| && forall i | 0 <= i < |s.runs| :: SameOrigin(s.runs[i], s'.runs[i])
  }

  lemma DispatchKeepsRows(cfg: Config, s: State, step: Step)
    ensures RowsKept(s, DispatchStep(cfg, s, step))
    ensures !(s.dispatcher.Admitted? && step == CreateRun(true)) ==> |DispatchStep(cfg, s, step).runs| == |s.runs|
  {
  }

  lemma ResumesKeepRows(cfg: Config, s: State, step: Step)
    ensures RowsKept(s, ResumeStep(cfg, s, step)) && |ResumeStep(cfg, s, step).runs| == |s.runs|
    ensures ResumeStep(cfg, s, step).dispatcher == s.dispatcher
  {
  }

  lemma EventsKeepRows(s: State, step: Step)
    ensures RowsKept(s, EventStep(s, step)) && |EventStep(s, step).runs| == |s.runs|
    ensures EventStep(s, step).dispatcher == s.dispatcher
    ensures EventStep(s, step).resumes == s.resumes && EventStep(s, step).claims == s.claims
  {
  }

  /** A row appears only by the insert of an admitted order, and never changes where it came from. */
  lemma StepKeepsRows(cfg: Config, s: State, step: Step)
    ensures RowsKept(s, Apply(cfg, s, step))
    ensures |Apply(cfg, s, step).runs| > |s.runs| ==>
              && s.dispatcher.Admitted? && step == CreateRun(true)
              && Apply(cfg, s, step).runs == s.runs + [NewRun(s.dispatcher.order, s.dispatcher.runner, s.now)]
  {
    DispatchKeepsRows(cfg, s, step);
    ResumesKeepRows(cfg, s, step);
    EventsKeepRows(s, step);
  }

  /** The one step that can bring the dispatcher to each of its points, and from which. */
  lemma DispatcherMoves(cfg: Config, states: seq<State>, steps: seq<Step>, n: nat)
    requires IsHistory(cfg, states, steps) && n < |steps|
    ensures var (s, step, d) := (states[n], steps[n], states[n + 1].dispatcher);
            d == s.dispatcher
            || match d
               case Loaded(order, pool) => step == LoadPool(order, pool) && FaithfulPool(cfg, s, pool)
               case Routed(order, runner) =>
                 && s.dispatcher.Loaded? && s.dispatcher.order == order && step.Route? && runner in cfg.implemented
                 && var limits := Limits(cfg.globalMax, Total(AllSlots, s.runs), step.allowPreview);
                    Decide(order.input, s.dispatcher.pool, limits).Dispatch? && Decide(order.input, s.dispatcher.pool, limits).runner == runner
               case Admitted(order, runner) =>
                 s.dispatcher == Routed(order, runner) && step.AdmitDispatch? && Gate(cfg, s, order.ceiling, step.reportsCost).Admit?
               case _ => true
  {
    assert Follows(cfg, states, steps, n);
    ResumesKeepRows(cfg, states[n], steps[n]);
    EventsKeepRows(states[n], steps[n]);
  }

  lemma RowsMove(cfg: Config, states: seq<State>, steps: seq<Step>, n: nat)
    requires IsHistory(cfg, states, steps) && n < |steps|
    ensures var (s, s') := (states[n], states[n + 1]);
            && RowsKept(s, s')
            && (|s'.runs| > |s.runs| ==>
                  && s.dispatcher.Admitted? && steps[n] == CreateRun(true)
                  && s'.runs == s.runs + [NewRun(s.dispatcher.order, s.dispatcher.runner, s.now)])
  {
    assert Follows(cfg, states, steps, n);
    StepKeepsRows(cfg, states[n], steps[n]);
  }

  lemma HoldsOn(cfg: Config, states: seq<State>, steps: seq<Step>, k: nat, n: nat, d: Dispatcher)
    requires IsHistory(cfg, states, steps)
    requires n < |steps| && states[n + 1].dispatcher == d
    requires k == n || Holds(cfg, states, steps, k, n, d)
    ensures Holds(cfg, states, steps, k, n + 1, d)
  {
    forall i | k < i <= n + 1 ensures states[i].dispatcher == d {
      if i <= n {
        assert Holds(cfg, states, steps, k, n, d);
      }
    }
  }

  lemma {:induction false} LoadOf(cfg: Config, states: seq<State>, steps: seq<Step>, n: nat, order: Order, pool: seq<PoolEntry>) returns (k: nat)
    requires IsHistory(cfg, states, steps)
    requires n <= |steps| && states[n].dispatcher == Loaded(order, pool)
    ensures LoadedAt(cfg, states, steps, k, n, order, pool)
    decreases n
  {
    DispatcherMoves(cfg, states, steps, n - 1);
    if states[n - 1].dispatcher == Loaded(order, pool) {
      k := LoadOf(cfg, states, steps, n - 1, order, pool);
    } else {
      k := n - 1;
    }
    HoldsOn(cfg, states, steps, k, n - 1, Loaded(order, pool));
  }

  lemma {:induction false} RouteOf(cfg: Config, states: seq<State>, steps: seq<Step>, n: nat, order: Order, runner: RunnerKey)
    returns (o: Origin)
    requires IsHistory(cfg, states, steps)
    requires n <= |steps| && states[n].dispatcher == Routed(order, runner)
    ensures o.order == order && LoadedAt(cfg, states, steps, o.loaded, o.routed, order, o.pool)
    ensures RoutedAt(cfg, states, steps, o.routed, n, order, o.pool, runner)
    decreases n
  {
    DispatcherMoves(cfg, states, steps, n - 1);
    var before := states[n - 1];
    if before.dispatcher == Routed(order, runner) {
      o := RouteOf(cfg, states, steps, n - 1, order, runner);
    } else {
      var k := LoadOf(cfg, states, steps, n - 1, order, before.dispatcher.pool);
      o := Origin(order, before.dispatcher.pool, k, n - 1, 0, 0);
    }
    HoldsOn(cfg, states, steps, o.routed, n - 1, Routed(order, runner));
  }

  lemma AdmittedFrom(cfg: Config, states: seq<State>, steps: seq<Step>, n: nat, order: Order, runner: RunnerKey)
    requires IsHistory(cfg, states, steps) && n < |steps| && states[n + 1].dispatcher == Admitted(order, runner)
    ensures states[n].dispatcher == Admitted(order, runner)
            || (states[n].dispatcher == Routed(order, runner) && steps[n].AdmitDispatch?
                && Gate(cfg, states[n], order.ceiling, steps[n].reportsCost).Admit?)
  {
    DispatcherMoves(cfg, states, steps, n);
  }

  lemma {:induction false} AdmissionOf(cfg: Config, states: seq<State>, steps: seq<Step>, n: nat, order: Order, runner: RunnerKey)
    returns (o: Origin)
    requires IsHistory(cfg, states, steps)
    requires n < |steps| && states[n].dispatcher == Admitted(order, runner)
    ensures o.order == order && o.created == n
    ensures LoadedAt(cfg, states, steps, o.loaded, o.routed, order, o.pool)
    ensures RoutedAt(cfg, states, steps, o.routed, o.admitted, order, o.pool, runner)
    ensures AdmittedAt(cfg, states, steps, o.admitted, n, order, runner)
    decreases n
  {
    AdmittedFrom(cfg, states, steps, n - 1, order, runner);
    var before := states[n - 1];
    if before.dispatcher == Admitted(order, runner) {
      o := AdmissionOf(cfg, states, steps, n - 1, order, runner);
    } else {
      o := RouteOf(cfg, states, steps, n - 1, order, runner);
      o := o.(admitted := n - 1);
    }
    o := o.(created := n);
    HoldsOn(cfg, states, steps, o.admitted, n - 1, Admitted(order, runner));
  }

  /** The row was inserted by that dispatch, and still names its runner, its ceiling and its start. */
  ghost predicate BornOf(cfg: Config, states: seq<State>, steps: seq<Step>, o: Origin, id: RunId, run: Run)
    requires IsHistory(cfg, states, steps)
  {
    && Originates(cfg, states, steps, o, run.runner) && run.spend.ceiling == o.order.ceiling
    && |states[o.created].runs| == id && run.spend.startedAt == states[o.created].now
  }

  lemma InsertedRow(cfg: Config, states: seq<State>, steps: seq<Step>, n: nat) returns (o: Origin)
    requires IsHistory(cfg, states, steps) && n < |steps| && |states[n + 1].runs| > |states[n].runs|
    ensures |states[n + 1].runs| == |states[n].runs| + 1
    ensures BornOf(cfg, states, steps, o, |states[n].runs|, states[n + 1].runs[|states[n].runs|])
  {
    RowsMove(cfg, states, steps, n);
    var d := states[n].dispatcher;
    o := AdmissionOf(cfg, states, steps, n, d.order, d.runner);
    assert states[n + 1].runs[|states[n].runs|] == NewRun(d.order, d.runner, states[n].now);
  }

  lemma {:induction false} OriginUpTo(cfg: Config, states: seq<State>, steps: seq<Step>, n: nat, id: RunId) returns (o: Origin)
    requires IsHistory(cfg, states, steps)
    requires n <= |steps| && id < |states[n].runs|
    ensures BornOf(cfg, states, steps, o, id, states[n].runs[id])
    decreases n
  {
    RowsMove(cfg, states, steps, n - 1);
    if id < |states[n - 1].runs| {
      o := OriginUpTo(cfg, states, steps, n - 1, id);
      assert SameOrigin(states[n - 1].runs[id], states[n].runs[id]);
    } else {
      o := InsertedRow(cfg, states, steps, n - 1);
    }
  }

  /**
   * In any state the machine reaches, whatever interleaved: every run, live, finished or deleted, was inserted
   * by one dispatch that loaded a pool counted on the rows of that moment, was routed to that runner by the
   * policy, and was then admitted by the spend gate on the rows of that moment with the ceiling it still names.
   */
  lemma EveryRunWasAdmitted(cfg: Config, steps: seq<Step>, id: RunId) returns (states: seq<State>, o: Origin)
    requires id < |Reach(cfg, steps).runs|
    ensures IsHistory(cfg, states, steps) && states[|steps|] == Reach(cfg, steps)
    ensures BornOf(cfg, states, steps, o, id, Reach(cfg, steps).runs[id])
  {
    states := HistoryOf(cfg, steps);
    o := OriginUpTo(cfg, states, steps, |steps|, id);
  }

  /** Work that names no ceiling never starts on a runner whose cost nothing reports. */
  lemma UnboundedRunsReportCost(cfg: Config, steps: seq<Step>, id: RunId) returns (states: seq<State>, o: Origin)
    requires id < |Reach(cfg, steps).runs| && Reach(cfg, steps).runs[id].spend.ceiling.None?
    ensures IsHistory(cfg, states, steps) && states[|steps|] == Reach(cfg, steps)
    ensures BornOf(cfg, states, steps, o, id, Reach(cfg, steps).runs[id])
    ensures steps[o.admitted] == AdmitDispatch(true)
    ensures cfg.ceiling.limit.Some? && !cfg.ceiling.malformed
  {
    states, o := EveryRunWasAdmitted(cfg, steps, id);
    var s := states[o.admitted];
    AdmittedExactly(cfg.ceiling, TallyOf(Ledger(s.runs), From(cfg, s.now), s.now), OrderBudget(None, steps[o.admitted].reportsCost));
  }

  // ---------------------------------------------------------------------------------------------
  // Outcomes
  // ---------------------------------------------------------------------------------------------

  /** The step that brings run `id` into this status, and what the row and its process must then be. */
  predicate Brings(s: State, step: Step, id: RunId, status: Status)
    requires id < |s.runs|
  {
    var r := s.runs[id];
    match status
    case Running =>
      || (step == ReportAgain(id) && (r.status.Stalled? || r.status.Blocked?))
      || (step.ResumeClaim? && r.status.Blocked? && ResumeOf(s, step.p).Cleared? && ResumeOf(s, step.p).id == id)
    case Stalled => step == Stall(id) && Occupying(r.status)
    case Blocked =>
      || (step == Block(id) && Occupying(r.status))
      || (step.ResumeRefused? && r.status.Running? && ResumeOf(s, step.p).Claimed? && ResumeOf(s, step.p).id == id)
    case Succeeded => step == Conclude(id, true) && Occupying(r.status)
    case Failed =>
      || (step == Conclude(id, false) && Occupying(r.status))
      || (r.status.Running? && step.SubmitFailed? && s.dispatcher == Submitting(id))
      || (r.status.Running? && step.ResumeFailed? && ResumeOf(s, step.p).Claimed? && ResumeOf(s, step.p).id == id)
      || (r.status.Running? && step.ResumeOpen? && ResumeOf(s, step.p).Opening? && ResumeOf(s, step.p).id == id
          && exists a | a in r.attempts :: a.number == ResumeOf(s, step.p).number)
    case Deleted => step == SubmitRefused(true) && s.dispatcher == Submitting(id)
    case Quarantined => false
  }

  lemma DispatchMovesStatus(cfg: Config, s: State, step: Step, id: RunId)
    requires id < |s.runs| && IsDispatchStep(step)
    ensures var status := DispatchStep(cfg, s, step).runs[id].status; status == s.runs[id].status || Brings(s, step, id, status)
    ensures forall status | Brings(s, step, id, status) :: DispatchStep(cfg, s, step).runs[id].status == status
  {
  }

  lemma ResumeMovesStatus(cfg: Config, s: State, step: Step, id: RunId)
    requires id < |s.runs| && IsResumeStep(step)
    ensures |ResumeStep(cfg, s, step).runs| == |s.runs|
    ensures var status := ResumeStep(cfg, s, step).runs[id].status; status == s.runs[id].status || Brings(s, step, id, status)
    ensures forall status | Brings(s, step, id, status) :: ResumeStep(cfg, s, step).runs[id].status == status
  {
  }

  lemma EventMovesStatus(s: State, step: Step, id: RunId)
    requires id < |s.runs| && !IsDispatchStep(step) && !IsResumeStep(step)
    ensures |EventStep(s, step).runs| == |s.runs|
    ensures var status := EventStep(s, step).runs[id].status; status == s.runs[id].status || Brings(s, step, id, status)
    ensures forall status | Brings(s, step, id, status) :: EventStep(s, step).runs[id].status == status
  {
  }

  /** A step changes a run's status exactly as `Brings` says: to each status by these steps and no others. */
  lemma StatusMoves(cfg: Config, s: State, step: Step, id: RunId)
    requires id < |s.runs|
    ensures |s.runs| <= |Apply(cfg, s, step).runs|
    ensures var status := Apply(cfg, s, step).runs[id].status; status == s.runs[id].status || Brings(s, step, id, status)
    ensures forall status | Brings(s, step, id, status) :: Apply(cfg, s, step).runs[id].status == status
  {
    StepKeepsRows(cfg, s, step);
    if IsDispatchStep(step) {
      DispatchMovesStatus(cfg, s, step, id);
    } else if IsResumeStep(step) {
      ResumeMovesStatus(cfg, s, step, id);
    } else {
      EventMovesStatus(s, step, id);
    }
  }

  /** A run that has succeeded or failed never runs again: nothing but the delete of its own refused submit moves it. */
  lemma {:induction false} ConcludedForGood(cfg: Config, s: State, steps: seq<Step>, id: RunId)
    requires id < |s.runs| && !Occupying(s.runs[id].status)
    ensures id < |After(cfg, s, steps).runs|
    ensures var status := After(cfg, s, steps).runs[id].status; status == s.runs[id].status || status.Deleted?
  {
    if steps != [] {
      var n := |steps| - 1;
      ConcludedForGood(cfg, s, steps[..n], id);
      StatusMoves(cfg, After(cfg, s, steps[..n]), steps[n], id);
    }
  }

  lemma StatusMovesAt(cfg: Config, states: seq<State>, steps: seq<Step>, n: nat, id: RunId)
    requires IsHistory(cfg, states, steps) && n < |steps| && id < |states[n + 1].runs|
    ensures id < |states[n].runs| ==>
              states[n + 1].runs[id].status == states[n].runs[id].status || Brings(states[n], steps[n], id, states[n + 1].runs[id].status)
    ensures id >= |states[n].runs| ==> states[n + 1].runs[id].status.Running?
  {
    assert Follows(cfg, states, steps, n);
    if id < |states[n].runs| {
      StatusMoves(cfg, states[n], steps[n], id);
    } else {
      RowsMove(cfg, states, steps, n);
    }
  }

  lemma {:induction false} OutcomeUpTo(cfg: Config, states: seq<State>, steps: seq<Step>, n: nat, id: RunId) returns (k: nat)
    requires IsHistory(cfg, states, steps)
    requires n <= |steps| && id < |states[n].runs| && !states[n].runs[id].status.Running?
    ensures k < n && id < |states[k].runs| && Brings(states[k], steps[k], id, states[n].runs[id].status)
    ensures forall i | k < i <= n ::
              id < |states[i].runs| && states[i].runs[id].status == states[n].runs[id].status
    decreases n
  {
    var before := states[n - 1];
    RowsMove(cfg, states, steps, n - 1);
    StatusMovesAt(cfg, states, steps, n - 1, id);
    if before.runs[id].status == states[n].runs[id].status {
      k := OutcomeUpTo(cfg, states, steps, n - 1, id);
    } else {
      k := n - 1;
    }
  }

  /**
   * Every status but the first has its cause: a run reads succeeded only since the event that concluded it so,
   * failed only since an event, its own submit or its own resume failed it, and deleted only since its own
   * submit was refused. None is ever quarantined.
   */
  lemma EveryOutcomeHasItsCause(cfg: Config, steps: seq<Step>, id: RunId) returns (states: seq<State>, k: nat)
    requires id < |Reach(cfg, steps).runs| && !Reach(cfg, steps).runs[id].status.Running?
    ensures IsHistory(cfg, states, steps) && states[|steps|] == Reach(cfg, steps)
    ensures k < |steps| && id < |states[k].runs| && Brings(states[k], steps[k], id, Reach(cfg, steps).runs[id].status)
    ensures forall i | k < i <= |steps| ::
              id < |states[i].runs| && states[i].runs[id].status == Reach(cfg, steps).runs[id].status
  {
    states := HistoryOf(cfg, steps);
    k := OutcomeUpTo(cfg, states, steps, |steps|, id);
  }

  /** The run's event loop, or the resume that has submitted it, closes what is open. */
  predicate ClosesAttempts(s: State, step: Step, id: RunId)
    requires id < |s.runs|
  {
    || (step == CloseAttempts(id) && (s.runs[id].status.Succeeded? || s.runs[id].status.Failed?))
    || (step.ResumeSubmitted? && ResumeOf(s, step.p).Claimed? && ResumeOf(s, step.p).id == id)
  }

  /** The resume that has submitted the run opens its attempt, unless the number is taken or the run is gone. */
  predicate OpensAttempt(s: State, step: Step, id: RunId)
    requires id < |s.runs|
  {
    && step.ResumeOpen? && ResumeOf(s, step.p).Opening? && ResumeOf(s, step.p).id == id && !s.runs[id].status.Deleted?
    && forall a | a in s.runs[id].attempts :: a.number != ResumeOf(s, step.p).number
  }

  lemma DispatchMovesAttempts(cfg: Config, s: State, step: Step, id: RunId)
    requires id < |s.runs|
    ensures id < |DispatchStep(cfg, s, step).runs|
    ensures DispatchStep(cfg, s, step).runs[id].attempts
            == if step == SubmitRefused(true) && s.dispatcher == Submitting(id) then [] else s.runs[id].attempts
  {
  }

  /** What these steps make of the attempts, number by number. */
  predicate Moved(s: State, step: Step, id: RunId, before: seq<Attempt>, after: seq<Attempt>)
    requires id < |s.runs|
  {
    if ClosesAttempts(s, step, id) then
      |after| == |before| && forall i | 0 <= i < |before| :: after[i].number == before[i].number && !after[i].open
    else if OpensAttempt(s, step, id) then after == before + [Attempt(ResumeOf(s, step.p).number, true)]
    else if step == SubmitRefused(true) && s.dispatcher == Submitting(id) then after == []
    else after == before
  }

  lemma ResumeMovesAttempts(cfg: Config, s: State, step: Step, id: RunId)
    requires id < |s.runs| && IsResumeStep(step)
    ensures |ResumeStep(cfg, s, step).runs| == |s.runs|
    ensures Moved(s, step, id, s.runs[id].attempts, ResumeStep(cfg, s, step).runs[id].attempts)
  {
  }

  lemma EventMovesAttempts(s: State, step: Step, id: RunId)
    requires id < |s.runs| && !IsDispatchStep(step) && !IsResumeStep(step)
    ensures |EventStep(s, step).runs| == |s.runs|
    ensures Moved(s, step, id, s.runs[id].attempts, EventStep(s, step).runs[id].attempts)
  {
  }

  /** What becomes of a run's attempts: nothing ever changes a number, and only these steps open or close one. */
  lemma AttemptsMove(cfg: Config, s: State, step: Step, id: RunId)
    requires id < |s.runs|
    ensures id < |Apply(cfg, s, step).runs|
    ensures Moved(s, step, id, s.runs[id].attempts, Apply(cfg, s, step).runs[id].attempts)
  {
    if IsDispatchStep(step) {
      DispatchMovesAttempts(cfg, s, step, id);
    } else if IsResumeStep(step) {
      ResumeMovesAttempts(cfg, s, step, id);
    } else {
      EventMovesAttempts(s, step, id);
    }
  }

  // ---------------------------------------------------------------------------------------------
  // Claims
  // ---------------------------------------------------------------------------------------------

  ghost predicate Waits(cfg: Config, states: seq<State>, steps: seq<Step>, p: Pid, k: nat, n: nat, r: Resume)
    requires IsHistory(cfg, states, steps)
  {
    k < n <= |steps| && forall i | k < i <= n :: ResumeOf(states[i], p) == r
  }

  ghost predicate ReadAt(cfg: Config, states: seq<State>, steps: seq<Step>, p: Pid, k: nat, n: nat, id: RunId, count: nat)
    requires IsHistory(cfg, states, steps)
  {
    && Waits(cfg, states, steps, p, k, n, Read(id, count))
    && steps[k] == ResumeRead(p, id) && HasStatus(states[k], id, Blocked)
    && states[k].runs[id].attemptCount == count
  }

  /** The other gates passed, and the spend gate admits the run's own ceiling on the rows of that moment. */
  ghost predicate ClearedAt(cfg: Config, states: seq<State>, steps: seq<Step>, p: Pid, k: nat, n: nat, id: RunId, count: nat)
    requires IsHistory(cfg, states, steps)
  {
    && Waits(cfg, states, steps, p, k, n, Cleared(id, count))
    && steps[k].ResumeClear? && steps[k].p == p && steps[k].gatesPass && id < |states[k].runs|
    && Gate(cfg, states[k], states[k].runs[id].spend.ceiling, steps[k].reportsCost).Admit?
  }

  datatype ClaimOrigin = ClaimOrigin(count: nat, read: nat, cleared: nat, claimed: nat)

  ghost predicate ClaimOriginates(cfg: Config, states: seq<State>, steps: seq<Step>, o: ClaimOrigin, c: Claim)
    requires IsHistory(cfg, states, steps)
  {
    && o.claimed < |steps|
    && ReadAt(cfg, states, steps, c.owner, o.read, o.cleared, c.id, o.count)
    && ClearedAt(cfg, states, steps, c.owner, o.cleared, o.claimed, c.id, o.count)
    && steps[o.claimed] == ResumeClaim(c.owner)
    && HasStatus(states[o.claimed], c.id, Blocked) && states[o.claimed].runs[c.id].parks == c.park
  }

  lemma WaitsOn(cfg: Config, states: seq<State>, steps: seq<Step>, p: Pid, k: nat, n: nat, r: Resume)
    requires IsHistory(cfg, states, steps)
    requires n < |steps| && ResumeOf(states[n + 1], p) == r
    requires k == n || Waits(cfg, states, steps, p, k, n, r)
    ensures Waits(cfg, states, steps, p, k, n + 1, r)
  {
    forall i | k < i <= n + 1 ensures ResumeOf(states[i], p) == r {
      if i <= n {
        assert Waits(cfg, states, steps, p, k, n, r);
      }
    }
  }

  lemma DispatchLeavesResumes(cfg: Config, s: State, step: Step)
    ensures DispatchStep(cfg, s, step).resumes == s.resumes && DispatchStep(cfg, s, step).claims == s.claims
  {
  }

  lemma ResumesLeaveOthers(cfg: Config, s: State, step: Step, p: Pid)
    requires IsResumeStep(step) && step.p != p
    ensures ResumeOf(ResumeStep(cfg, s, step), p) == ResumeOf(s, p)
  {
  }

  /** Only a resume's own steps move it, and only its winning claim adds to the claims. */
  lemma OnlyOwnSteps(cfg: Config, s: State, step: Step, p: Pid)
    ensures ResumeOf(Apply(cfg, s, step), p) != ResumeOf(s, p) ==> IsResumeStep(step) && step.p == p
  {
    if IsResumeStep(step) {
      if step.p != p {
        ResumesLeaveOthers(cfg, s, step, p);
      }
    } else {
      DispatchLeavesResumes(cfg, s, step);
      EventsKeepRows(s, step);
    }
  }

  lemma OnlyClaimsClaim(cfg: Config, s: State, step: Step)
    ensures Apply(cfg, s, step).claims == s.claims
            || (step.ResumeClaim? && ResumeOf(s, step.p).Cleared? && HasStatus(s, ResumeOf(s, step.p).id, Blocked)
                && Apply(cfg, s, step).claims
                   == s.claims + [Claim(ResumeOf(s, step.p).id, s.runs[ResumeOf(s, step.p).id].parks, step.p)])
  {
    if !IsResumeStep(step) {
      DispatchLeavesResumes(cfg, s, step);
      EventsKeepRows(s, step);
    }
  }

  /** The one step that can bring a resume to its read and to its clearance, and the one that adds a claim. */
  lemma ResumeMoves(cfg: Config, states: seq<State>, steps: seq<Step>, n: nat, p: Pid)
    requires IsHistory(cfg, states, steps) && n < |steps|
    ensures var (s, step, r) := (states[n], steps[n], ResumeOf(states[n + 1], p));
            r == ResumeOf(s, p)
            || match r
               case Read(id, count) =>
                 step == ResumeRead(p, id) && HasStatus(s, id, Blocked) && s.runs[id].attemptCount == count
               case Cleared(id, count) =>
                 && ResumeOf(s, p) == Read(id, count) && step.ResumeClear? && step.p == p && step.gatesPass && id < |s.runs|
                 && Gate(cfg, s, s.runs[id].spend.ceiling, step.reportsCost).Admit?
               case _ => true
  {
    assert Follows(cfg, states, steps, n);
    OnlyOwnSteps(cfg, states[n], steps[n], p);
  }

  lemma ClaimsMove(cfg: Config, states: seq<State>, steps: seq<Step>, n: nat)
    requires IsHistory(cfg, states, steps) && n < |steps|
    ensures var (s, step, s') := (states[n], steps[n], states[n + 1]);
            s'.claims == s.claims
            || (step.ResumeClaim? && ResumeOf(s, step.p).Cleared? && HasStatus(s, ResumeOf(s, step.p).id, Blocked)
                && s'.claims == s.claims + [Claim(ResumeOf(s, step.p).id, s.runs[ResumeOf(s, step.p).id].parks, step.p)])
  {
    assert Follows(cfg, states, steps, n);
    OnlyClaimsClaim(cfg, states[n], steps[n]);
  }

  lemma {:induction false} ReadOf(cfg: Config, states: seq<State>, steps: seq<Step>, p: Pid, n: nat, id: RunId, count: nat) returns (k: nat)
    requires IsHistory(cfg, states, steps)
    requires n <= |steps| && ResumeOf(states[n], p) == Read(id, count)
    ensures ReadAt(cfg, states, steps, p, k, n, id, count)
    decreases n
  {
    var before := states[n - 1];
    ResumeMoves(cfg, states, steps, n - 1, p);
    if ResumeOf(before, p) == Read(id, count) {
      k := ReadOf(cfg, states, steps, p, n - 1, id, count);
    } else {
      k := n - 1;
    }
    WaitsOn(cfg, states, steps, p, k, n - 1, Read(id, count));
  }

  lemma {:induction false} ClearanceOf(cfg: Config, states: seq<State>, steps: seq<Step>, p: Pid, n: nat, id: RunId, count: nat)
    returns (o: ClaimOrigin)
    requires IsHistory(cfg, states, steps)
    requires n < |steps| && ResumeOf(states[n], p) == Cleared(id, count)
    ensures o.count == count && o.claimed == n
    ensures ReadAt(cfg, states, steps, p, o.read, o.cleared, id, count) && ClearedAt(cfg, states, steps, p, o.cleared, n, id, count)
    decreases n
  {
    var before := states[n - 1];
    ResumeMoves(cfg, states, steps, n - 1, p);
    if ResumeOf(before, p) == Cleared(id, count) {
      o := ClearanceOf(cfg, states, steps, p, n - 1, id, count);
      o := o.(claimed := n);
    } else {
      var k := ReadOf(cfg, states, steps, p, n - 1, id, count);
      o := ClaimOrigin(count, k, n - 1, n);
    }
    WaitsOn(cfg, states, steps, p, o.cleared, n - 1, Cleared(id, count));
  }

  lemma NewClaim(cfg: Config, states: seq<State>, steps: seq<Step>, n: nat) returns (o: ClaimOrigin)
    requires IsHistory(cfg, states, steps) && n < |steps| && states[n + 1].claims != states[n].claims
    ensures |states[n + 1].claims| == |states[n].claims| + 1
    ensures ClaimOriginates(cfg, states, steps, o, states[n + 1].claims[|states[n].claims|])
  {
    ClaimsMove(cfg, states, steps, n);
    var p := steps[n].p;
    o := ClearanceOf(cfg, states, steps, p, n, ResumeOf(states[n], p).id, ResumeOf(states[n], p).count);
  }

  lemma {:induction false} ClaimUpTo(cfg: Config, states: seq<State>, steps: seq<Step>, n: nat, k: nat) returns (o: ClaimOrigin)
    requires IsHistory(cfg, states, steps)
    requires n <= |steps| && k < |states[n].claims|
    ensures ClaimOriginates(cfg, states, steps, o, states[n].claims[k])
    decreases n
  {
    ClaimsMove(cfg, states, steps, n - 1);
    if k < |states[n - 1].claims| {
      o := ClaimUpTo(cfg, states, steps, n - 1, k);
    } else {
      o := NewClaim(cfg, states, steps, n - 1);
    }
  }

  /**
   * Every winning claim was made by a resume that had read the run as blocked, with the count it then claims
   * on, had passed the other gates, and had the run's own ceiling admitted on the rows of that moment: a run
   * that names no ceiling is never resumed on a runner whose cost nothing reports.
   */
  lemma EveryClaimWasAdmitted(cfg: Config, steps: seq<Step>, k: nat) returns (states: seq<State>, o: ClaimOrigin)
    requires k < |Reach(cfg, steps).claims|
    ensures IsHistory(cfg, states, steps) && states[|steps|] == Reach(cfg, steps)
    ensures var c := Reach(cfg, steps).claims[k];
            && ClaimOriginates(cfg, states, steps, o, c)
            && (states[o.cleared].runs[c.id].spend.ceiling.None? ==> steps[o.cleared].reportsCost)
  {
    states := HistoryOf(cfg, steps);
    o := ClaimUpTo(cfg, states, steps, |steps|, k);
    var s, id := states[o.cleared], Reach(cfg, steps).claims[k].id;
    AdmittedExactly(cfg.ceiling, TallyOf(Ledger(s.runs), From(cfg, s.now), s.now),
                    OrderBudget(s.runs[id].spend.ceiling, steps[o.cleared].reportsCost));
  }
}
