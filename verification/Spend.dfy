/**
 * The spend gate: the ledger's tally (`spend-ledger.service.ts`), the admission rule
 * (`spend-admission.ts`) and the overrun rule (`budget-overrun.ts`).
 *
 * Amounts are integers in ten-thousandths of a dollar, the precision the cost columns are stored with;
 * instants are milliseconds.
 */
module Spend {
  import opened Base

  const CENT: int := 100
  const DAY_MS: int := 86400000

  /** `Math.round(x * 100) / 100`: to the nearest cent, halves upward. */
  function Round(x: int): int
  {
    (x + CENT / 2) / CENT * CENT
  }

  lemma RoundIsNear(x: int)
    ensures x - 49 <= Round(x) <= x + 50
    ensures Round(x) % CENT == 0
  {
  }

  /** A run as the ledger reads it. */
  datatype SpendRow = SpendRow(startedAt: int, cost: Option<nat>, ceiling: Option<nat>)

  datatype Tally = Tally(
    reported: int, estimated: int, total: int, runs: nat, runsWithoutCost: nat, unboundedRuns: nat)

  predicate InWindow(r: SpendRow, from: int, to: int)
  {
    from <= r.startedAt <= to
  }

  function ReportedOf(r: SpendRow): nat
  {
    if r.cost.Some? then r.cost.value else 0
  }

  function EstimatedOf(r: SpendRow): nat
  {
    if r.cost.None? && r.ceiling.Some? then r.ceiling.value else 0
  }

  /** What a run counts for: its reported cost, else the most it was authorized to spend. */
  function Charge(r: SpendRow): nat
  {
    ReportedOf(r) + EstimatedOf(r)
  }

  function Reported(rows: seq<SpendRow>, from: int, to: int): nat
  {
    if rows == [] then 0
    else Reported(rows[..|rows| - 1], from, to)
         + if InWindow(rows[|rows| - 1], from, to) then ReportedOf(rows[|rows| - 1]) else 0
  }

  function Estimated(rows: seq<SpendRow>, from: int, to: int): nat
  {
    if rows == [] then 0
    else Estimated(rows[..|rows| - 1], from, to)
         + if InWindow(rows[|rows| - 1], from, to) then EstimatedOf(rows[|rows| - 1]) else 0
  }

  function CountWindow(rows: seq<SpendRow>, from: int, to: int, unreported: bool, unbounded: bool): nat
  {
    if rows == [] then 0
    else
      var r := rows[|rows| - 1];
      CountWindow(rows[..|rows| - 1], from, to, unreported, unbounded)
      + if InWindow(r, from, to) && (unreported ==> r.cost.None?) && (unbounded ==> r.ceiling.None?) then 1 else 0
  }

  /** The window's totals, each rounded once, and the counts of what could not be measured. */
  function TallyOf(rows: seq<SpendRow>, from: int, to: int): Tally
  {
    var reported, estimated := Reported(rows, from, to), Estimated(rows, from, to);
    Tally(Round(reported), Round(estimated), Round(reported + estimated),
          CountWindow(rows, from, to, false, false),
          CountWindow(rows, from, to, true, false),
          CountWindow(rows, from, to, true, true))
  }

  /** `tally`: one pass over the runs started in the trailing window. */
  method TallySpend(rows: seq<SpendRow>, days: nat, now: int) returns (t: Tally)
    ensures t == TallyOf(rows, now - days * DAY_MS, now)
  {
    var from := now - days * DAY_MS;
    var reported, estimated := 0, 0;
    var runs, runsWithoutCost, unboundedRuns := 0, 0, 0;
    for i := 0 to |rows|
      invariant reported == Reported(rows[..i], from, now) && estimated == Estimated(rows[..i], from, now)
      invariant runs == CountWindow(rows[..i], from, now, false, false)
      invariant runsWithoutCost == CountWindow(rows[..i], from, now, true, false)
      invariant unboundedRuns == CountWindow(rows[..i], from, now, true, true)
    {
      var run := rows[i];
      assert rows[..i + 1][..i] == rows[..i];
      if InWindow(run, from, now) {
        runs := runs + 1;
        if run.cost.Some? {
          reported := reported + run.cost.value;
        } else {
          runsWithoutCost := runsWithoutCost + 1;
          if run.ceiling.None? {
            unboundedRuns := unboundedRuns + 1;
          } else {
            estimated := estimated + run.ceiling.value;
          }
        }
      }
    }
    assert rows[..|rows|] == rows;
    t := Tally(Round(reported), Round(estimated), Round(reported + estimated), runs, runsWithoutCost, unboundedRuns);
  }

  /** What a run counts for, and in which column: what it reported, or failing that what it may spend, or nothing. */
  lemma ChargeExactly(r: SpendRow)
    ensures r.cost.Some? ==> Charge(r) == r.cost.value && EstimatedOf(r) == 0
    ensures r.cost.None? && r.ceiling.Some? ==> Charge(r) == r.ceiling.value && ReportedOf(r) == 0
    ensures r.cost.None? && r.ceiling.None? ==> Charge(r) == 0
  {
  }

  predicate IsCounted(r: SpendRow, from: int, to: int, unreported: bool, unbounded: bool)
  {
    from <= r.startedAt <= to && (unreported ==> r.cost.None?) && (unbounded ==> r.ceiling.None?)
  }

  ghost function CountedRows(rows: seq<SpendRow>, from: int, to: int, unreported: bool, unbounded: bool): set<nat>
  {
    set i: nat | i < |rows| && IsCounted(rows[i], from, to, unreported, unbounded)
  }

  lemma {:induction false} WindowCounts(rows: seq<SpendRow>, from: int, to: int, unreported: bool, unbounded: bool)
    ensures CountWindow(rows, from, to, unreported, unbounded) == |CountedRows(rows, from, to, unreported, unbounded)|
  {
    if rows == [] {
      assert CountedRows(rows, from, to, unreported, unbounded) == {};
    } else {
      var n := |rows| - 1;
      WindowCounts(rows[..n], from, to, unreported, unbounded);
      var before := CountedRows(rows[..n], from, to, unreported, unbounded);
      if IsCounted(rows[n], from, to, unreported, unbounded) {
        assert CountedRows(rows, from, to, unreported, unbounded) == before + {n};
      } else {
        assert CountedRows(rows, from, to, unreported, unbounded) == before;
      }
    }
  }

  ghost predicate AllReported(rows: seq<SpendRow>, from: int, to: int, reported: bool)
  {
    forall i | 0 <= i < |rows| && InWindow(rows[i], from, to) :: rows[i].cost.Some? == reported
  }

  /** Runs that all reported are in one column, runs that all did not are in the other. */
  lemma {:induction false} ColumnsSeparate(rows: seq<SpendRow>, from: int, to: int)
    ensures AllReported(rows, from, to, true) ==> Estimated(rows, from, to) == 0
    ensures AllReported(rows, from, to, false) ==> Reported(rows, from, to) == 0
  {
    if rows != [] {
      var n := |rows| - 1;
      ColumnsSeparate(rows[..n], from, to);
      assert AllReported(rows, from, to, true) ==> AllReported(rows[..n], from, to, true);
      assert AllReported(rows, from, to, false) ==> AllReported(rows[..n], from, to, false);
    }
  }

  /**
   * What the tally says: the runs of the window, those among them that reported no cost, and those of these that
   * name no ceiling either; its total is within a cent of its two columns' sum, and what was reported and what is
   * only estimated stand in different columns.
   */
  lemma TallyCountsExactly(rows: seq<SpendRow>, from: int, to: int)
    ensures var t := TallyOf(rows, from, to);
            && t.runs == |set i: nat | i < |rows| && from <= rows[i].startedAt <= to|
            && t.runsWithoutCost == |set i: nat | i < |rows| && from <= rows[i].startedAt <= to && rows[i].cost.None?|
            && t.unboundedRuns
               == |set i: nat | i < |rows| && from <= rows[i].startedAt <= to && rows[i].cost.None? && rows[i].ceiling.None?|
            && -CENT <= t.total - (t.reported + t.estimated) <= CENT
            && (AllReported(rows, from, to, true) ==> t.estimated == 0)
            && (AllReported(rows, from, to, false) ==> t.reported == 0)
  {
    ColumnsSeparate(rows, from, to);
    WindowCounts(rows, from, to, false, false);
    WindowCounts(rows, from, to, true, false);
    WindowCounts(rows, from, to, true, true);
    assert CountedRows(rows, from, to, false, false) == set i: nat | i < |rows| && from <= rows[i].startedAt <= to;
    assert CountedRows(rows, from, to, true, false)
           == set i: nat | i < |rows| && from <= rows[i].startedAt <= to && rows[i].cost.None?;
    assert CountedRows(rows, from, to, true, true)
           == set i: nat | i < |rows| && from <= rows[i].startedAt <= to && rows[i].cost.None? && rows[i].ceiling.None?;
    RoundIsNear(Reported(rows, from, to));
    RoundIsNear(Estimated(rows, from, to));
    RoundIsNear(Reported(rows, from, to) + Estimated(rows, from, to));
  }

  // ---------------------------------------------------------------------------------------------
  // Admission
  // ---------------------------------------------------------------------------------------------

  datatype HardCeiling = HardCeiling(limit: Option<nat>, windowDays: nat, malformed: bool)

  datatype OrderBudget = OrderBudget(ceiling: Option<nat>, runnerReportsCost: bool)

  datatype SpendRefusal = NoHardSpendCeilingConfigured | HardSpendCeilingReached | WorkOrderCannotBeBudgeted

  datatype SpendVerdict = Admit(headroom: int) | Refuse(refusal: SpendRefusal)

  function DecideSpendAdmission(ceiling: HardCeiling, tally: Tally, order: OrderBudget): SpendVerdict
  {
    if ceiling.malformed || ceiling.limit.None? then Refuse(NoHardSpendCeilingConfigured)
    else
      var limit := ceiling.limit.value;
      if tally.total >= limit then Refuse(HardSpendCeilingReached)
      else
        var headroom := Round(limit - tally.total);
        if order.ceiling.None? then
          if !order.runnerReportsCost then Refuse(WorkOrderCannotBeBudgeted) else Admit(headroom)
        else if Round(tally.total + order.ceiling.value) > limit then Refuse(HardSpendCeilingReached)
        else Admit(headroom)
  }

  /** The most two roundings to the cent can hide: 98 ten-thousandths, just under one cent. */
  const SLACK: int := 98

  /**
   * What an admission is worth, against the exact window total `exact` behind the rounded tally. An
   * admitted order fits under the limit with less than a cent to spare; an order refused for its
   * projection would have come within a cent of the limit or passed it.
   */
  lemma AdmissionBound(ceiling: HardCeiling, tally: Tally, exact: nat, order: OrderBudget)
    requires tally.total == Round(exact)
    ensures DecideSpendAdmission(ceiling, tally, order).Admit? ==>
              && ceiling.limit.Some? && !ceiling.malformed
              && exact < ceiling.limit.value + CENT / 2
              && (order.ceiling.Some? ==> exact + order.ceiling.value <= ceiling.limit.value + SLACK)
    ensures ceiling.limit.Some? && !ceiling.malformed && order.ceiling.Some?
            && exact + order.ceiling.value <= ceiling.limit.value - CENT && exact + CENT / 2 < ceiling.limit.value ==>
              DecideSpendAdmission(ceiling, tally, order).Admit?
  {
    RoundIsNear(exact);
    if order.ceiling.Some? {
      RoundIsNear(tally.total + order.ceiling.value);
    }
  }

  /** Rounded to the cent, an amount fits under a limit exactly when it is below the limit's whole cents and a half. */
  lemma RoundFitsExactly(x: int, limit: int)
    ensures Round(x) <= limit <==> x < limit / CENT * CENT + CENT / 2
  {
  }

  /**
   * Which order is admitted, and which refusal the others are given: an unreadable ceiling comes first, then a
   * spent one, then an order nothing bounds on a runner whose cost nothing reports, then a projection that
   * does not fit. What is offered is the rest of the limit, to the cent.
   */
  lemma AdmittedExactly(ceiling: HardCeiling, tally: Tally, order: OrderBudget)
    ensures var v := DecideSpendAdmission(ceiling, tally, order);
            var readable := ceiling.limit.Some? && !ceiling.malformed;
            var room := readable && tally.total < ceiling.limit.value;
            var fits := room && order.ceiling.Some?
                        && tally.total + order.ceiling.value < ceiling.limit.value / CENT * CENT + CENT / 2;
            && (v.Admit? <==> fits || (room && order.ceiling.None? && order.runnerReportsCost))
            && (v == Refuse(NoHardSpendCeilingConfigured) <==> !readable)
            && (v == Refuse(WorkOrderCannotBeBudgeted) <==> room && order.ceiling.None? && !order.runnerReportsCost)
            && (v == Refuse(HardSpendCeilingReached) <==> readable && (!room || (order.ceiling.Some? && !fits)))
            && (v.Admit? ==> v.headroom % CENT == 0 && -CENT / 2 < v.headroom - (ceiling.limit.value - tally.total) <= CENT / 2)
  {
    if ceiling.limit.Some? {
      RoundIsNear(ceiling.limit.value - tally.total);
      if order.ceiling.Some? {
        RoundFitsExactly(tally.total + order.ceiling.value, ceiling.limit.value);
      }
    }
  }

  /** The slack is attained: with $0.0049 spent, a $0.0149 order is admitted under a $0.01 limit. */
  lemma SlackIsTight()
    ensures var rows := [SpendRow(0, Some(49), None)];
            && DecideSpendAdmission(HardCeiling(Some(100), 30, false), TallyOf(rows, 0, 0), OrderBudget(Some(149), true)).Admit?
            && Reported(rows, 0, 0) + 149 == 100 + SLACK
  {
    var rows := [SpendRow(0, Some(49), None)];
    assert rows[..0] == [];
    assert Reported(rows, 0, 0) == 49 && Estimated(rows, 0, 0) == 0;
  }

  // ---------------------------------------------------------------------------------------------
  // Overruns
  // ---------------------------------------------------------------------------------------------

  datatype OverrunVerdict = Within | Over(overspend: int, stoppable: bool)

  function DecideBudgetOverrun(cost: Option<nat>, ceiling: Option<nat>, live: bool): OverrunVerdict
  {
    if cost.None? || ceiling.None? || cost.value <= ceiling.value then Within
    else Over(Round(cost.value - ceiling.value), live)
  }

  /** How far a run's reported cost passed the ceiling it was authorized for, exactly. */
  function Overspend(r: SpendRow): nat
  {
    if r.cost.Some? && r.ceiling.Some? && r.cost.value > r.ceiling.value then r.cost.value - r.ceiling.value else 0
  }

  /** An overrun is reported exactly when there is an overspend, and names it to the cent. */
  lemma OverrunNamesOverspend(r: SpendRow, live: bool)
    ensures DecideBudgetOverrun(r.cost, r.ceiling, live).Over? <==> Overspend(r) > 0
    ensures DecideBudgetOverrun(r.cost, r.ceiling, live).Over? ==>
              var v := DecideBudgetOverrun(r.cost, r.ceiling, live);
              v.stoppable == live && Overspend(r) - 49 <= v.overspend <= Overspend(r) + 50
  {
    RoundIsNear(Overspend(r));
  }
}
