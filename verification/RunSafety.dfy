/** What every run of the dispatch and resume machine keeps: slots, spend, and one resume per park. */
module RunSafety {
  import opened Base
  import opened DispatchPolicy
  import opened Spend
  import opened RunMachine

  // ---------------------------------------------------------------------------------------------
  // Only the dispatcher's insert can take a slot or raise what the window is counted for
  // ---------------------------------------------------------------------------------------------

  ghost predicate Inserts(s: State, step: Step)
  {
    step.CreateRun? && step.enabled && s.dispatcher.Admitted?
  }

  /** A row may lose its slot, be counted for less, or vanish; it never does the opposite. */
  ghost predicate RelaxedRow(r: Run, r': Run)
  {
    && r'.runner == r.runner
    && r'.spend.startedAt == r.spend.startedAt
    && (Occupying(r'.status) ==> Occupying(r.status))
    && (r.status.Deleted? ==> r'.status.Deleted?)
    && r'.lowest <= r.lowest
  }

  ghost predicate Relaxed(s: State, s': State)
  {
    && |s'.runs| == |s.runs|
    && s'.now >= s.now
    && forall i | 0 <= i < |s.runs| :: RelaxedRow(s.runs[i], s'.runs[i])
  }

  lemma DispatchRelaxes(cfg: Config, s: State, step: Step)
    requires !Inserts(s, step)
    ensures Relaxed(s, DispatchStep(cfg, s, step))
  {
  }

  lemma ResumeRelaxes(cfg: Config, s: State, step: Step)
    ensures Relaxed(s, ResumeStep(cfg, s, step))
    ensures ResumeStep(cfg, s, step).now == s.now && ResumeStep(cfg, s, step).dispatcher == s.dispatcher
  {
  }

  lemma EventRelaxes(s: State, step: Step)
    ensures Relaxed(s, EventStep(s, step))
    ensures EventStep(s, step).dispatcher == s.dispatcher
  {
  }

  lemma RelaxedTotals(cfg: Config, s: State, s': State)
    requires Relaxed(s, s')
    requires forall r | r in s.runs :: r.spend.startedAt <= s.now
    ensures forall k :: Total(Slots(k), s'.runs) <= Total(Slots(k), s.runs)
    ensures Total(AllSlots, s'.runs) <= Total(AllSlots, s.runs)
    ensures Total(Lowest(From(cfg, s'.now), s'.now), s'.runs) <= Total(Lowest(From(cfg, s.now), s.now), s.runs)
  {
    forall k ensures Total(Slots(k), s'.runs) <= Total(Slots(k), s.runs) {
      TotalMonotone(Slots(k), s.runs, Slots(k), s'.runs);
    }
    TotalMonotone(AllSlots, s.runs, AllSlots, s'.runs);
    TotalMonotone(Lowest(From(cfg, s.now), s.now), s.runs, Lowest(From(cfg, s'.now), s'.now), s'.runs);
  }

  // ---------------------------------------------------------------------------------------------
  // Slots and spend
  // ---------------------------------------------------------------------------------------------

  function Bound(cfg: Config): int
  {
    (if cfg.ceiling.limit.Some? then cfg.ceiling.limit.value else 0) + SLACK
  }

  function Counted(cfg: Config, s: State): int
  {
    Total(Lowest(From(cfg, s.now), s.now), s.runs)
  }

  ghost predicate RoomFor(cfg: Config, s: State, k: RunnerKey)
  {
    && Total(Slots(k), s.runs) < MaxConcurrency(cfg, k)
    && (cfg.globalMax.Some? ==> Total(AllSlots, s.runs) < cfg.globalMax.value)
  }

  function Authorized(order: Order): nat
  {
    if order.ceiling.Some? then order.ceiling.value else 0
  }

  /** What the dispatcher's snapshots still guarantee about the present state. */
  ghost predicate SnapshotsHold(cfg: Config, s: State)
  {
    match s.dispatcher
    case Loaded(order, pool) =>
      && DistinctKeys(pool)
      && forall e | e in pool ::
           && e.capabilities.maxConcurrency == MaxConcurrency(cfg, e.capabilities.key)
           && Total(Slots(e.capabilities.key), s.runs) <= e.liveRuns
    case Routed(order, runner) => RoomFor(cfg, s, runner)
    case Admitted(order, runner) => RoomFor(cfg, s, runner) && Counted(cfg, s) + Authorized(order) <= Bound(cfg)
    case _ => true
  }

  ghost predicate Safe(cfg: Config, s: State)
  {
    && (forall k :: Total(Slots(k), s.runs) <= MaxConcurrency(cfg, k))
    && (cfg.globalMax.Some? ==> Total(AllSlots, s.runs) <= cfg.globalMax.value)
    && Counted(cfg, s) <= Bound(cfg)
    && (forall r | r in s.runs :: r.spend.startedAt <= s.now)
    && SnapshotsHold(cfg, s)
  }

  lemma RelaxedKeepsRows(s: State, s': State)
    requires Relaxed(s, s') && forall r | r in s.runs :: r.spend.startedAt <= s.now
    ensures forall r | r in s'.runs :: r.spend.startedAt <= s'.now
  {
    forall r | r in s'.runs ensures r.spend.startedAt <= s'.now {
      var i :| 0 <= i < |s'.runs| && s'.runs[i] == r;
      assert s.runs[i] in s.runs;
    }
  }

  /** Whatever relaxes the rows and leaves the dispatcher alone keeps every bound and every snapshot. */
  lemma RelaxedKeepsSafe(cfg: Config, s: State, s': State)
    requires Safe(cfg, s) && Relaxed(s, s') && (s'.dispatcher == s.dispatcher || s'.dispatcher.Free? || s'.dispatcher.Submitting?)
    ensures Safe(cfg, s')
  {
    RelaxedTotals(cfg, s, s');
    RelaxedKeepsRows(s, s');
  }

  /** The exact total behind the rounded tally is the exposure of the window. */
  lemma {:induction false} LedgerIsExposure(runs: seq<Run>, from: int, to: int)
    ensures Reported(Ledger(runs), from, to) + Estimated(Ledger(runs), from, to) == Total(Exposure(from, to), runs)
  {
    if runs != [] {
      var n := |runs| - 1;
      LedgerIsExposure(runs[..n], from, to);
      var rest := Ledger(runs[..n]);
      if runs[n].status.Deleted? {
        assert Ledger(runs) == rest;
      } else {
        assert Ledger(runs) == rest + [runs[n].spend];
        assert Ledger(runs)[..|Ledger(runs)| - 1] == rest;
      }
    }
  }

  lemma GateBoundsExposure(cfg: Config, s: State, ceiling: Option<nat>, reportsCost: bool)
    requires Gate(cfg, s, ceiling, reportsCost).Admit?
    ensures Total(Exposure(From(cfg, s.now), s.now), s.runs) + (if ceiling.Some? then ceiling.value else 0) <= Bound(cfg)
  {
    LedgerIsExposure(s.runs, From(cfg, s.now), s.now);
    AdmissionBound(cfg.ceiling, TallyOf(Ledger(s.runs), From(cfg, s.now), s.now),
                   Total(Exposure(From(cfg, s.now), s.now), s.runs), OrderBudget(ceiling, reportsCost));
  }

  /** A run is never counted for less than the least it has been counted for, and a first report is traceable. */
  ghost predicate RowHistory(r: Run)
  {
    && r.lowest <= Charge(r.spend)
    && (r.spend.ceiling.Some? ==> r.lowest <= r.spend.ceiling.value)
    && (r.reports == 0 ==> r.spend.cost.None? && r.lowest == Charge(r.spend))
    && (r.reports == 1 && r.spend.ceiling.Some? ==>
          r.spend.cost.Some? && r.lowest == if r.spend.cost.value < r.spend.ceiling.value then r.spend.cost.value else r.spend.ceiling.value)
  }

  ghost predicate Histories(s: State)
  {
    forall i | 0 <= i < |s.runs| :: RowHistory(s.runs[i])
  }

  lemma HistoriesKept(cfg: Config, s: State, step: Step)
    requires Histories(s)
    ensures Histories(Apply(cfg, s, step))
  {
    if IsDispatchStep(step) {
      DispatchHistories(cfg, s, step);
    } else if IsResumeStep(step) {
      ResumeHistories(cfg, s, step);
    } else {
      EventHistories(s, step);
    }
  }

  lemma DispatchHistories(cfg: Config, s: State, step: Step)
    requires Histories(s)
    ensures Histories(DispatchStep(cfg, s, step))
  {
  }

  lemma ResumeHistories(cfg: Config, s: State, step: Step)
    requires Histories(s)
    ensures Histories(ResumeStep(cfg, s, step))
  {
  }

  lemma EventHistories(s: State, step: Step)
    requires Histories(s)
    ensures Histories(EventStep(s, step))
  {
  }

  /** Routing on the snapshots leaves room for the runner it chose. */
  lemma RouteLeavesRoom(cfg: Config, s: State, order: Order, pool: seq<PoolEntry>, allowPreview: bool)
    requires Safe(cfg, s) && s.dispatcher == Loaded(order, pool)
    ensures var d := Decide(order.input, pool, Limits(cfg.globalMax, Total(AllSlots, s.runs), allowPreview));
            d.Dispatch? ==> RoomFor(cfg, s, d.runner)
  {
    var limits := Limits(cfg.globalMax, Total(AllSlots, s.runs), allowPreview);
    if Decide(order.input, pool, limits).Dispatch? {
      var w := WinnerIsBest(order.input, pool, limits);
      DispatchExactly(order.input, pool, limits);
    }
  }

  lemma InsertKeepsSafe(cfg: Config, s: State, order: Order, runner: RunnerKey)
    requires Safe(cfg, s) && s.dispatcher == Admitted(order, runner)
    ensures Safe(cfg, s.(runs := s.runs + [NewRun(order, runner, s.now)], dispatcher := Submitting(|s.runs|)))
  {
    var r := NewRun(order, runner, s.now);
    forall k ensures Total(Slots(k), s.runs + [r]) <= MaxConcurrency(cfg, k) {
      TotalAppend(Slots(k), s.runs, r);
    }
    TotalAppend(AllSlots, s.runs, r);
    TotalAppend(Lowest(From(cfg, s.now), s.now), s.runs, r);
  }

  lemma RouteKeepsSafe(cfg: Config, s: State, allowPreview: bool, order: Order, pool: seq<PoolEntry>)
    requires Safe(cfg, s) && s.dispatcher == Loaded(order, pool)
    ensures Safe(cfg, DispatchStep(cfg, s, Route(allowPreview)))
  {
    RouteLeavesRoom(cfg, s, order, pool, allowPreview);
  }

  lemma AdmitKeepsSafe(cfg: Config, s: State, reportsCost: bool, order: Order, runner: RunnerKey)
    requires Safe(cfg, s) && Histories(s) && s.dispatcher == Routed(order, runner)
    ensures Safe(cfg, DispatchStep(cfg, s, AdmitDispatch(reportsCost)))
  {
    if Gate(cfg, s, order.ceiling, reportsCost).Admit? {
      GateBoundsExposure(cfg, s, order.ceiling, reportsCost);
      TotalMonotone(Exposure(From(cfg, s.now), s.now), s.runs, Lowest(From(cfg, s.now), s.now), s.runs);
    }
  }

  lemma DispatchKeepsSafe(cfg: Config, s: State, step: Step)
    requires Safe(cfg, s) && Histories(s)
    ensures Safe(cfg, DispatchStep(cfg, s, step))
  {
    match (step, s.dispatcher)
    case (Route(allowPreview), Loaded(order, pool)) => RouteKeepsSafe(cfg, s, allowPreview, order, pool);
    case (AdmitDispatch(reportsCost), Routed(order, runner)) => AdmitKeepsSafe(cfg, s, reportsCost, order, runner);
    case (CreateRun(enabled), Admitted(order, runner)) =>
      if enabled { InsertKeepsSafe(cfg, s, order, runner); }
    case (LoadPool(_, _), Free) =>
    case _ => LeavingKeepsSafe(cfg, s, step);
  }

  /** Every other dispatcher step changes no row, or relaxes the one it was submitting. */
  lemma LeavingKeepsSafe(cfg: Config, s: State, step: Step)
    requires Safe(cfg, s)
    requires s.dispatcher.Submitting? || DispatchStep(cfg, s, step) == s
    ensures Safe(cfg, DispatchStep(cfg, s, step))
  {
    DispatchRelaxes(cfg, s, step);
    RelaxedKeepsSafe(cfg, s, DispatchStep(cfg, s, step));
  }

  lemma StepKeepsSafe(cfg: Config, s: State, step: Step)
    requires Safe(cfg, s) && Histories(s)
    ensures Safe(cfg, Apply(cfg, s, step))
  {
    if IsDispatchStep(step) {
      DispatchKeepsSafe(cfg, s, step);
    } else if IsResumeStep(step) {
      ResumeRelaxes(cfg, s, step);
      RelaxedKeepsSafe(cfg, s, ResumeStep(cfg, s, step));
    } else {
      EventRelaxes(s, step);
      RelaxedKeepsSafe(cfg, s, EventStep(s, step));
    }
  }

  lemma {:induction false} AlwaysSafe(cfg: Config, steps: seq<Step>)
    ensures Safe(cfg, Reach(cfg, steps)) && Histories(Reach(cfg, steps))
  {
    if steps != [] {
      var before := steps[..|steps| - 1];
      AlwaysSafe(cfg, before);
      StepKeepsSafe(cfg, Reach(cfg, before), steps[|steps| - 1]);
      HistoriesKept(cfg, Reach(cfg, before), steps[|steps| - 1]);
    }
  }

  /** The runs that take a slot: those that are running, stalled or blocked, on this runner or on any. */
  ghost function Occupants(runs: seq<Run>, runner: Option<RunnerKey>): set<RunId>
  {
    set i: RunId | i < |runs| && Occupies(runs[i], runner)
  }

  predicate Occupies(r: Run, runner: Option<RunnerKey>)
  {
    r.status in {Running, Stalled, Blocked} && (runner.Some? ==> r.runner == runner.value)
  }

  lemma OneMoreOccupant(runs: seq<Run>, r: Run, runner: Option<RunnerKey>)
    ensures Occupants(runs + [r], runner) == Occupants(runs, runner) + if Occupies(r, runner) then {|runs|} else {}
  {
    forall i: RunId ensures i in Occupants(runs + [r], runner) <==> i in Occupants(runs, runner) || (i == |runs| && Occupies(r, runner)) {
      assert i < |runs| ==> (runs + [r])[i] == runs[i];
    }
  }

  /** The slots the machine counts are the runs that take one. */
  lemma {:induction false} SlotsAreOccupants(runs: seq<Run>, runner: Option<RunnerKey>)
    ensures Total(if runner.Some? then Slots(runner.value) else AllSlots, runs) == |Occupants(runs, runner)|
  {
    if runs == [] {
      assert Occupants(runs, runner) == {};
    } else {
      var n := |runs| - 1;
      SlotsAreOccupants(runs[..n], runner);
      OneMoreOccupant(runs[..n], runs[n], runner);
      assert runs == runs[..n] + [runs[n]];
    }
  }

  /**
   * Concurrency control, over every interleaving: no runner ever has more runs running, stalled or blocked than it
   * declares, and the fleet never more than its global limit, although every count the dispatcher acts on is stale.
   */
  lemma ConcurrencyLimitsHold(cfg: Config, steps: seq<Step>)
    ensures forall k :: |Occupants(Reach(cfg, steps).runs, Some(k))| <= MaxConcurrency(cfg, k)
    ensures cfg.globalMax.Some? ==> |Occupants(Reach(cfg, steps).runs, None)| <= cfg.globalMax.value
  {
    AlwaysSafe(cfg, steps);
    var runs := Reach(cfg, steps).runs;
    forall k ensures |Occupants(runs, Some(k))| == Total(Slots(k), runs) {
      SlotsAreOccupants(runs, Some(k));
    }
    SlotsAreOccupants(runs, None);
  }

  lemma {:induction false} ExposureSplits(runs: seq<Run>, from: int, to: int)
    requires forall i | 0 <= i < |runs| :: RowHistory(runs[i])
    ensures Total(Exposure(from, to), runs) == Total(Lowest(from, to), runs) + Total(Growth(from, to), runs)
  {
    if runs != [] {
      ExposureSplits(runs[..|runs| - 1], from, to);
    }
  }

  /**
   * The ceiling, over every interleaving and with no assumption on orders or cost reports: the window's
   * exact total exceeds the limit by less than a cent, however many runs it holds, plus whatever runs grew
   * beyond the least they were ever counted for.
   */
  lemma SpendStaysUnderCeiling(cfg: Config, steps: seq<Step>)
    ensures var s := Reach(cfg, steps);
            var from := From(cfg, s.now);
            Total(Exposure(from, s.now), s.runs) <= Bound(cfg) + Total(Growth(from, s.now), s.runs)
  {
    AlwaysSafe(cfg, steps);
    var s := Reach(cfg, steps);
    ExposureSplits(s.runs, From(cfg, s.now), s.now);
  }

  /** A run has never been counted for less than its present charge, or than its ceiling if that is lower. */
  predicate CountedInFull(r: Run)
  {
    r.lowest >= if r.spend.ceiling.Some? && r.spend.ceiling.value < Charge(r.spend) then r.spend.ceiling.value else Charge(r.spend)
  }

  ghost predicate AllCountedInFull(runs: seq<Run>, from: int, to: int)
  {
    forall i | 0 <= i < |runs| && !runs[i].status.Deleted? && InWindow(runs[i].spend, from, to) :: CountedInFull(runs[i])
  }

  lemma RowGrowthIsOverspendExactly(r: Run, from: int, to: int)
    requires RowHistory(r)
    ensures Weigh(Overspends(from, to), r) <= Weigh(Growth(from, to), r)
    ensures Weigh(Overspends(from, to), r) == Weigh(Growth(from, to), r)
            <==> (!r.status.Deleted? && InWindow(r.spend, from, to) ==> CountedInFull(r))
  {
  }

  /** The growth is the overspend exactly when no run in the window has been counted for less than it should. */
  lemma {:induction false} GrowthIsOverspendExactly(runs: seq<Run>, from: int, to: int)
    requires forall i | 0 <= i < |runs| :: RowHistory(runs[i])
    ensures Total(Overspends(from, to), runs) <= Total(Growth(from, to), runs)
    ensures Total(Growth(from, to), runs) == Total(Overspends(from, to), runs) <==> AllCountedInFull(runs, from, to)
  {
    if runs != [] {
      var n := |runs| - 1;
      GrowthIsOverspendExactly(runs[..n], from, to);
      RowGrowthIsOverspendExactly(runs[n], from, to);
      assert AllCountedInFull(runs, from, to)
        <==> AllCountedInFull(runs[..n], from, to) && (!runs[n].status.Deleted? && InWindow(runs[n].spend, from, to) ==> CountedInFull(runs[n]));
    }
  }

  /** Then nothing but the overspend the overrun rule reports can pass the ceiling. */
  lemma OnlyOverspendPassesCeiling(cfg: Config, steps: seq<Step>)
    requires var s := Reach(cfg, steps); AllCountedInFull(s.runs, From(cfg, s.now), s.now)
    ensures var s := Reach(cfg, steps);
            var from := From(cfg, s.now);
            Total(Exposure(from, s.now), s.runs) < Bound(cfg) - SLACK + CENT + Total(Overspends(from, s.now), s.runs)
  {
    AlwaysSafe(cfg, steps);
    SpendStaysUnderCeiling(cfg, steps);
    var s := Reach(cfg, steps);
    GrowthIsOverspendExactly(s.runs, From(cfg, s.now), s.now);
  }

  /** Every live run in the window names a ceiling and has had its cost reported at most once. */
  ghost predicate ReportedAtMostOnce(s: State, from: int)
  {
    forall r | r in s.runs && !r.status.Deleted? && InWindow(r.spend, from, s.now) :: r.spend.ceiling.Some? && r.reports <= 1
  }

  /** Costs reported once, as when a run ends, are always counted in full. */
  lemma SingleReportsCountInFull(cfg: Config, steps: seq<Step>)
    requires var s := Reach(cfg, steps); ReportedAtMostOnce(s, From(cfg, s.now))
    ensures var s := Reach(cfg, steps); AllCountedInFull(s.runs, From(cfg, s.now), s.now)
  {
    AlwaysSafe(cfg, steps);
    var s := Reach(cfg, steps);
    forall i | 0 <= i < |s.runs| && !s.runs[i].status.Deleted? && InWindow(s.runs[i].spend, From(cfg, s.now), s.now)
      ensures CountedInFull(s.runs[i])
    {
      assert s.runs[i] in s.runs && RowHistory(s.runs[i]);
    }
  }

  // ---------------------------------------------------------------------------------------------
  // One resume per park
  // ---------------------------------------------------------------------------------------------

  ghost predicate OneClaimPerPark(s: State)
  {
    && (forall i, j | 0 <= i < j < |s.claims| :: s.claims[i].id != s.claims[j].id || s.claims[i].park != s.claims[j].park)
    && forall c | c in s.claims ::
         && c.id < |s.runs|
         && c.park <= s.runs[c.id].parks
         && (s.runs[c.id].status.Blocked? ==> c.park < s.runs[c.id].parks)
  }

  lemma DispatchKeepsClaims(cfg: Config, s: State, step: Step)
    requires OneClaimPerPark(s)
    ensures OneClaimPerPark(DispatchStep(cfg, s, step))
  {
  }

  lemma ResumeKeepsClaims(cfg: Config, s: State, step: Step)
    requires OneClaimPerPark(s)
    ensures OneClaimPerPark(ResumeStep(cfg, s, step))
  {
  }

  lemma EventKeepsClaims(s: State, step: Step)
    requires OneClaimPerPark(s)
    ensures OneClaimPerPark(EventStep(s, step))
  {
  }

  /** Under every interleaving, each entry into `blocked` is ended by at most one resume's claim. */
  lemma {:induction false} EachParkResumedAtMostOnce(cfg: Config, steps: seq<Step>)
    ensures OneClaimPerPark(Reach(cfg, steps))
  {
    if steps != [] {
      var before := steps[..|steps| - 1];
      EachParkResumedAtMostOnce(cfg, before);
      var s, step := Reach(cfg, before), steps[|steps| - 1];
      if IsDispatchStep(step) {
        DispatchKeepsClaims(cfg, s, step);
      } else if IsResumeStep(step) {
        ResumeKeepsClaims(cfg, s, step);
      } else {
        EventKeepsClaims(s, step);
      }
    }
  }
}
