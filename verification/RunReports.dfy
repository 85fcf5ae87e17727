/** What later cost reports can do to the spend ceiling, and exactly when they cannot break it. */
module RunReports {
  import opened Base
  import opened DispatchPolicy
  import opened Spend
  import opened RunMachine
  import opened RunSafety

  predicate Reports(steps: seq<Step>)
  {
    forall i | 0 <= i < |steps| :: steps[i].ReportCost?
  }

  /** The window's exact total is below the limit, a cent, and the overspends of its runs. */
  predicate Bounded(cfg: Config, s: State)
  {
    var from := From(cfg, s.now);
    Total(Exposure(from, s.now), s.runs) < Bound(cfg) - SLACK + CENT + Total(Overspends(from, s.now), s.runs)
  }

  predicate Counts(r: Run, from: int, to: int)
  {
    !r.status.Deleted? && InWindow(r.spend, from, to)
  }

  ghost predicate AllNamed(runs: seq<Run>, from: int, to: int)
  {
    forall i | 0 <= i < |runs| && Counts(runs[i], from, to) :: runs[i].spend.ceiling.Some?
  }

  function CeilingOf(r: Run): nat
  {
    if r.spend.ceiling.Some? then r.spend.ceiling.value else 0
  }

  /** What the live runs of the window were authorized to spend, together. */
  function Ceilings(runs: seq<Run>, from: int, to: int): nat
  {
    if runs == [] then 0
    else
      var r := runs[|runs| - 1];
      Ceilings(runs[..|runs| - 1], from, to) + if Counts(r, from, to) then CeilingOf(r) else 0
  }

  /** Reports change what runs have cost, and nothing the window or the ceilings depend on. */
  ghost predicate SameTerms(s: State, s': State)
  {
    && s'.now == s.now && |s'.runs| == |s.runs|
    && forall i | 0 <= i < |s.runs| :: SameTerm(s.runs[i], s'.runs[i])
  }

  predicate SameTerm(r: Run, r': Run)
  {
    && (r'.status.Deleted? <==> r.status.Deleted?)
    && r'.spend.startedAt == r.spend.startedAt && r'.spend.ceiling == r.spend.ceiling
  }

  lemma {:induction false} ReportsKeepTerms(cfg: Config, s: State, steps: seq<Step>)
    requires Reports(steps)
    ensures SameTerms(s, After(cfg, s, steps))
  {
    if steps != [] {
      ReportsKeepTerms(cfg, s, steps[..|steps| - 1]);
      ReportKeepsTerms(cfg, After(cfg, s, steps[..|steps| - 1]), steps[|steps| - 1]);
    }
  }

  lemma ReportKeepsTerms(cfg: Config, s: State, step: Step)
    requires step.ReportCost?
    ensures SameTerms(s, Apply(cfg, s, step))
  {
  }

  lemma {:induction false} SameTermsSameCeilings(a: seq<Run>, b: seq<Run>, from: int, to: int)
    requires |a| == |b| && forall i | 0 <= i < |a| :: SameTerm(a[i], b[i])
    ensures Ceilings(a, from, to) == Ceilings(b, from, to)
  {
    if a != [] {
      SameTermsSameCeilings(a[..|a| - 1], b[..|b| - 1], from, to);
    }
  }

  // ---------------------------------------------------------------------------------------------
  // Named ceilings below the limit hold whatever is reported
  // ---------------------------------------------------------------------------------------------

  lemma {:induction false} ExposureWithinCeilings(runs: seq<Run>, from: int, to: int)
    requires AllNamed(runs, from, to)
    ensures Total(Exposure(from, to), runs) <= Ceilings(runs, from, to) + Total(Overspends(from, to), runs)
  {
    if runs != [] {
      assert AllNamed(runs[..|runs| - 1], from, to);
      ExposureWithinCeilings(runs[..|runs| - 1], from, to);
    }
  }

  lemma NamedCeilingsHold(cfg: Config, s: State, steps: seq<Step>)
    requires AllNamed(s.runs, From(cfg, s.now), s.now) && Ceilings(s.runs, From(cfg, s.now), s.now) < Bound(cfg) - SLACK + CENT
    requires Reports(steps)
    ensures Bounded(cfg, After(cfg, s, steps))
  {
    var s' := After(cfg, s, steps);
    ReportsKeepTerms(cfg, s, steps);
    SameTermsSameCeilings(s.runs, s'.runs, From(cfg, s.now), s.now);
    forall i | 0 <= i < |s'.runs| && Counts(s'.runs[i], From(cfg, s.now), s.now) ensures s'.runs[i].spend.ceiling.Some? {
      assert SameTerm(s.runs[i], s'.runs[i]);
    }
    ExposureWithinCeilings(s'.runs, From(cfg, s.now), s.now);
  }

  // ---------------------------------------------------------------------------------------------
  // Anything else some reports break
  // ---------------------------------------------------------------------------------------------

  lemma {:induction false} RowWithinTotal(m: Measure, runs: seq<Run>, i: nat)
    requires i < |runs|
    ensures Weigh(m, runs[i]) <= Total(m, runs)
  {
    if i < |runs| - 1 {
      RowWithinTotal(m, runs[..|runs| - 1], i);
    }
  }

  lemma AfterMore(cfg: Config, s: State, steps: seq<Step>, step: Step)
    ensures After(cfg, s, steps + [step]) == Apply(cfg, After(cfg, s, steps), step)
  {
    assert (steps + [step])[..|steps|] == steps;
  }

  /** A run with no ceiling can cost anything, and none of it is overspend. */
  lemma UnnamedRunBreaksBound(cfg: Config, s: State, i: nat) returns (steps: seq<Step>)
    requires i < |s.runs| && Counts(s.runs[i], From(cfg, s.now), s.now) && s.runs[i].spend.ceiling.None?
    ensures Reports(steps) && !Bounded(cfg, After(cfg, s, steps))
  {
    var from := From(cfg, s.now);
    var cost := ReportedOf(s.runs[i].spend) + Bound(cfg) + CENT + Total(Overspends(from, s.now), s.runs) + 1;
    steps := [ReportCost(i, cost)];
    var s' := After(cfg, s, steps);
    AfterMore(cfg, s, [], ReportCost(i, cost));
    assert [] + steps == steps;
    ReportedRow(cfg, s, i, cost);
    RowWithinTotal(Exposure(from, s.now), s'.runs, i);
    TotalMonotone(Overspends(from, s.now), s.runs, Overspends(from, s.now), s'.runs);
  }

  /** A report that raises a live run's cost sets it, and touches nothing else the window counts. */
  lemma ReportedRow(cfg: Config, s: State, i: nat, cost: nat)
    requires i < |s.runs| && !s.runs[i].status.Deleted?
    ensures var s' := Apply(cfg, s, ReportCost(i, cost));
            && s'.now == s.now && |s'.runs| == |s.runs| && SameTerm(s.runs[i], s'.runs[i])
            && (forall j | 0 <= j < |s.runs| && j != i :: s'.runs[j] == s.runs[j])
            && s'.runs[i].spend.cost.Some?
            && s'.runs[i].spend.cost.value == if s.runs[i].spend.cost.Some? && s.runs[i].spend.cost.value >= cost
                                              then s.runs[i].spend.cost.value else cost
  {
  }

  /** A report at its ceiling for each run in turn. */
  predicate AtCeilings(runs: seq<Run>, steps: seq<Step>)
  {
    |steps| <= |runs| && forall i | 0 <= i < |steps| :: steps[i] == ReportCost(i, CeilingOf(runs[i]))
  }

  predicate Full(r: Run)
  {
    r.status.Deleted? || (r.spend.cost.Some? && r.spend.cost.value >= CeilingOf(r))
  }

  ghost predicate FullUpTo(s: State, n: nat)
  {
    n <= |s.runs| && forall i | 0 <= i < n :: Full(s.runs[i])
  }

  lemma {:induction false} AllAtCeilings(cfg: Config, s: State, steps: seq<Step>)
    requires AtCeilings(s.runs, steps)
    ensures FullUpTo(After(cfg, s, steps), |steps|)
  {
    if steps != [] {
      var n := |steps| - 1;
      AllAtCeilings(cfg, s, steps[..n]);
      ReportsKeepTerms(cfg, s, steps[..n]);
      NextAtCeiling(cfg, s, After(cfg, s, steps[..n]), n);
    }
  }

  lemma NextAtCeiling(cfg: Config, s: State, s': State, i: nat)
    requires SameTerms(s, s') && i < |s.runs| && FullUpTo(s', i)
    ensures FullUpTo(Apply(cfg, s', ReportCost(i, CeilingOf(s.runs[i]))), i + 1)
  {
    assert SameTerm(s.runs[i], s'.runs[i]);
    if !s'.runs[i].status.Deleted? {
      ReportedRow(cfg, s', i, CeilingOf(s.runs[i]));
    }
  }

  lemma {:induction false} FullExposure(runs: seq<Run>, from: int, to: int)
    requires AllNamed(runs, from, to) && forall i | 0 <= i < |runs| :: Full(runs[i])
    ensures Total(Exposure(from, to), runs) == Ceilings(runs, from, to) + Total(Overspends(from, to), runs)
  {
    if runs != [] {
      assert AllNamed(runs[..|runs| - 1], from, to);
      FullExposure(runs[..|runs| - 1], from, to);
      assert Full(runs[|runs| - 1]);
    }
  }

  lemma LargeCeilingsBreakBound(cfg: Config, s: State) returns (steps: seq<Step>)
    requires AllNamed(s.runs, From(cfg, s.now), s.now) && Ceilings(s.runs, From(cfg, s.now), s.now) >= Bound(cfg) - SLACK + CENT
    ensures Reports(steps) && !Bounded(cfg, After(cfg, s, steps))
  {
    steps := seq(|s.runs|, i requires 0 <= i < |s.runs| => ReportCost(i, CeilingOf(s.runs[i])));
    var s' := After(cfg, s, steps);
    AllAtCeilings(cfg, s, steps);
    ReportsKeepTerms(cfg, s, steps);
    SameTermsSameCeilings(s.runs, s'.runs, From(cfg, s.now), s.now);
    forall i | 0 <= i < |s'.runs| && Counts(s'.runs[i], From(cfg, s.now), s.now) ensures s'.runs[i].spend.ceiling.Some? {
      assert SameTerm(s.runs[i], s'.runs[i]);
    }
    FullExposure(s'.runs, From(cfg, s.now), s.now);
  }

  /**
   * From any state at all, no cost reports can take the window past limit, a cent and its overspends, if and
   * only if every live run in it names a ceiling and those ceilings together stay below limit and a cent: the
   * sum of what was authorized, where the spend gate adds up what was reported.
   */
  lemma BoundSurvivesReportsExactly(cfg: Config, s: State)
    ensures (forall steps | Reports(steps) :: Bounded(cfg, After(cfg, s, steps)))
            <==> AllNamed(s.runs, From(cfg, s.now), s.now)
                 && Ceilings(s.runs, From(cfg, s.now), s.now) < Bound(cfg) - SLACK + CENT
  {
    var from := From(cfg, s.now);
    if !AllNamed(s.runs, from, s.now) {
      var i :| 0 <= i < |s.runs| && Counts(s.runs[i], from, s.now) && s.runs[i].spend.ceiling.None?;
      var steps := UnnamedRunBreaksBound(cfg, s, i);
    } else if Ceilings(s.runs, from, s.now) >= Bound(cfg) - SLACK + CENT {
      var steps := LargeCeilingsBreakBound(cfg, s);
    } else {
      forall steps | Reports(steps) ensures Bounded(cfg, After(cfg, s, steps)) {
        NamedCeilingsHold(cfg, s, steps);
      }
    }
  }

  // ---------------------------------------------------------------------------------------------
  // What moves the total
  // ---------------------------------------------------------------------------------------------

  /** What one step adds to a window's exact total. */
  function Moves(s: State, step: Step, from: int, to: int): int
  {
    match step
    case CreateRun(true) =>
      if s.dispatcher.Admitted? && from <= s.now <= to && s.dispatcher.order.ceiling.Some? then s.dispatcher.order.ceiling.value else 0
    case ReportCost(id, cost) =>
      if id < |s.runs| && Counts(s.runs[id], from, to) && (s.runs[id].spend.cost.None? || s.runs[id].spend.cost.value < cost)
      then cost - Charge(s.runs[id].spend) else 0
    case SubmitRefused(true) =>
      if s.dispatcher.Submitting? && s.dispatcher.id < |s.runs| && Counts(s.runs[s.dispatcher.id], from, to)
      then 0 - Charge(s.runs[s.dispatcher.id].spend) else 0
    case _ => 0
  }

  lemma {:induction false} TotalUpdate(m: Measure, runs: seq<Run>, i: nat, r: Run)
    requires i < |runs|
    ensures Total(m, runs[i := r]) == Total(m, runs) + Weigh(m, r) - Weigh(m, runs[i])
  {
    var n := |runs| - 1;
    if i == n {
      assert runs[i := r][..n] == runs[..n];
    } else {
      assert runs[i := r][..n] == runs[..n][i := r];
      TotalUpdate(m, runs[..n], i, r);
    }
  }

  /** Rows whose spend and deletion are as they were count the same. */
  lemma {:induction false} SameSpendSameTotal(a: seq<Run>, b: seq<Run>, from: int, to: int)
    requires |a| == |b| && forall i | 0 <= i < |a| :: a[i].spend == b[i].spend && (a[i].status.Deleted? <==> b[i].status.Deleted?)
    ensures Total(Exposure(from, to), a) == Total(Exposure(from, to), b)
  {
    if a != [] {
      SameSpendSameTotal(a[..|a| - 1], b[..|b| - 1], from, to);
    }
  }

  ghost predicate SpendKept(s: State, s': State)
  {
    && |s'.runs| == |s.runs|
    && forall i | 0 <= i < |s.runs| :: s'.runs[i].spend == s.runs[i].spend && (s'.runs[i].status.Deleted? <==> s.runs[i].status.Deleted?)
  }

  lemma ResumesKeepSpend(cfg: Config, s: State, step: Step)
    ensures SpendKept(s, ResumeStep(cfg, s, step))
  {
  }

  lemma EventsKeepSpend(s: State, step: Step)
    requires !step.ReportCost?
    ensures SpendKept(s, EventStep(s, step))
  {
  }

  lemma DispatchKeepsSpend(cfg: Config, s: State, step: Step)
    requires step != CreateRun(true) && step != SubmitRefused(true)
    ensures SpendKept(s, DispatchStep(cfg, s, step))
  {
  }

  lemma InsertMoves(cfg: Config, s: State, from: int, to: int)
    ensures Total(Exposure(from, to), Apply(cfg, s, CreateRun(true)).runs)
            == Total(Exposure(from, to), s.runs) + Moves(s, CreateRun(true), from, to)
  {
    if s.dispatcher.Admitted? {
      TotalAppend(Exposure(from, to), s.runs, NewRun(s.dispatcher.order, s.dispatcher.runner, s.now));
    }
  }

  lemma DeleteMoves(cfg: Config, s: State, from: int, to: int)
    ensures Total(Exposure(from, to), Apply(cfg, s, SubmitRefused(true)).runs)
            == Total(Exposure(from, to), s.runs) + Moves(s, SubmitRefused(true), from, to)
  {
    if s.dispatcher.Submitting? && s.dispatcher.id < |s.runs| {
      var id := s.dispatcher.id;
      TotalUpdate(Exposure(from, to), s.runs, id, s.runs[id].(status := Deleted, attempts := []));
    }
  }

  lemma ReportMoves(cfg: Config, s: State, id: RunId, cost: nat, from: int, to: int)
    ensures Total(Exposure(from, to), Apply(cfg, s, ReportCost(id, cost)).runs)
            == Total(Exposure(from, to), s.runs) + Moves(s, ReportCost(id, cost), from, to)
  {
    var runs' := Apply(cfg, s, ReportCost(id, cost)).runs;
    if id < |s.runs| {
      assert runs' == s.runs[id := runs'[id]];
      TotalUpdate(Exposure(from, to), s.runs, id, runs'[id]);
    }
  }

  /**
   * What moves the total the gate reads, step by step: a run inserted counts at once for the ceiling it names, a
   * cost reported above the last replaces what the run counted for, a run deleted counts for nothing, and no
   * other step of any process moves it.
   */
  lemma OnlyMoneyMovesTheTotal(cfg: Config, s: State, step: Step, from: int, to: int)
    ensures Total(Exposure(from, to), Apply(cfg, s, step).runs) == Total(Exposure(from, to), s.runs) + Moves(s, step, from, to)
  {
    if step == CreateRun(true) {
      InsertMoves(cfg, s, from, to);
    } else if step == SubmitRefused(true) {
      DeleteMoves(cfg, s, from, to);
    } else if step.ReportCost? {
      ReportMoves(cfg, s, step.id, step.cost, from, to);
    } else {
      ResumesKeepSpend(cfg, s, step);
      EventsKeepSpend(s, step);
      DispatchKeepsSpend(cfg, s, step);
      SameSpendSameTotal(s.runs, Apply(cfg, s, step).runs, from, to);
    }
  }
}
