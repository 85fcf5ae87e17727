/** Dead time over a window (`dead-time.ts`): clipped sums that partition exactly into days. */
module DeadWindow {
  import opened Base
  import opened DeadTime
  import opened DeadTimeLaws

  const HOUR_MS := 60 * 60 * 1000
  const DAY_MS := 24 * HOUR_MS

  function Max(a: int, b: int): int { if a >= b then a else b }

  function Min(a: int, b: int): int { if a <= b then a else b }

  /** How much of an interval falls inside `[from, to)`; an open one runs to `to`. */
  function OverlapMs(v: Interval, from: int, to: int): nat
  {
    var start := Max(v.startedAt, from);
    var end := Min(if v.endedAt.Some? then v.endedAt.value else to, to);
    Max(0, end - start)
  }

  datatype DeadTimeWindow = DeadTimeWindow(
    hoursPerDay: Option<real>, stalledHoursPerDay: Option<real>, parkedHoursPerDay: Option<real>,
    perDayHours: seq<real>, intervals: nat, openIntervals: nat)

  /** The overlap of all intervals of the given kinds. */
  function Overlaps(ledger: seq<Interval>, kinds: set<Kind>, from: int, to: int): nat
  {
    if ledger == [] then 0
    else
      var v := ledger[|ledger| - 1];
      Overlaps(ledger[..|ledger| - 1], kinds, from, to) + if v.kind in kinds then OverlapMs(v, from, to) else 0
  }

  const EITHER: set<Kind> := {Stalled, Parked}

  function DayStart(from: int, day: int): int
  {
    from + day * DAY_MS
  }

  /** What all intervals lose on one day of the window. */
  function OnDay(ledger: seq<Interval>, from: int, day: int): nat
  {
    Overlaps(ledger, EITHER, DayStart(from, day), DayStart(from, day) + DAY_MS)
  }

  function Contributing(ledger: seq<Interval>, from: int, to: int): seq<Interval>
  {
    if ledger == [] then []
    else
      var v := ledger[|ledger| - 1];
      Contributing(ledger[..|ledger| - 1], from, to) + if OverlapMs(v, from, to) > 0 then [v] else []
  }

  /** A mean over the stated number of days; over no days it is not a number. */
  function MeanHours(ms: nat, days: nat): Option<real>
  {
    if days == 0 then None else Some(ms as real / HOUR_MS as real / days as real)
  }

  function SumTo(values: seq<real>, n: nat): real
    requires n <= |values|
  {
    if n == 0 then 0.0 else SumTo(values, n - 1) + values[n - 1]
  }

  /**
   * `deadTimeInWindow`. Each mean times the days is its kind's overlap with the whole window, each day's value
   * is the overlap with that day, and the counts are of the intervals that contribute and of those still open.
   */
  method DeadTimeInWindow(ledger: seq<Interval>, from: int, days: nat) returns (w: DeadTimeWindow)
    ensures var to := from + days * DAY_MS;
            && w.hoursPerDay == MeanHours(Overlaps(ledger, EITHER, from, to), days)
            && w.stalledHoursPerDay == MeanHours(Overlaps(ledger, {Stalled}, from, to), days)
            && w.parkedHoursPerDay == MeanHours(Overlaps(ledger, {Parked}, from, to), days)
            && w.intervals == |Contributing(ledger, from, to)|
            && w.openIntervals == OpenCount(Contributing(ledger, from, to))
    ensures |w.perDayHours| == days
    ensures forall d | 0 <= d < days :: w.perDayHours[d] == OnDay(ledger, from, d) as real / HOUR_MS as real
  {
    var to := from + days * DAY_MS;
    var totalMs, stalledMs, parkedMs: nat := 0, 0, 0;
    var contributing, openIntervals: nat := 0, 0;
    for i := 0 to |ledger|
      invariant totalMs == Overlaps(ledger[..i], EITHER, from, to)
      invariant stalledMs == Overlaps(ledger[..i], {Stalled}, from, to)
      invariant parkedMs == Overlaps(ledger[..i], {Parked}, from, to)
      invariant contributing == |Contributing(ledger[..i], from, to)|
      invariant openIntervals == OpenCount(Contributing(ledger[..i], from, to))
    {
      var interval := ledger[i];
      assert ledger[..i + 1][..i] == ledger[..i];
      var ms := OverlapMs(interval, from, to);
      if ms <= 0 {
        assert Contributing(ledger[..i + 1], from, to) == Contributing(ledger[..i], from, to);
        continue;
      }
      assert Contributing(ledger[..i + 1], from, to) == Contributing(ledger[..i], from, to) + [interval];
      OpenCountAppend(Contributing(ledger[..i], from, to), interval);
      contributing := contributing + 1;
      totalMs := totalMs + ms;
      if interval.kind == Stalled {
        stalledMs := stalledMs + ms;
      } else {
        parkedMs := parkedMs + ms;
      }
      if interval.endedAt.None? {
        openIntervals := openIntervals + 1;
      }
    }
    assert ledger[..|ledger|] == ledger;
    var perDayHours := DayByDay(ledger, from, days);
    w := DeadTimeWindow(MeanHours(totalMs, days), MeanHours(stalledMs, days), MeanHours(parkedMs, days),
                        perDayHours, contributing, openIntervals);
  }

  method DayByDay(ledger: seq<Interval>, from: int, days: nat) returns (perDayHours: seq<real>)
    ensures |perDayHours| == days
    ensures forall d | 0 <= d < days :: perDayHours[d] == OnDay(ledger, from, d) as real / HOUR_MS as real
  {
    perDayHours := [];
    for day := 0 to days
      invariant |perDayHours| == day
      invariant forall d | 0 <= d < day :: perDayHours[d] == OnDay(ledger, from, d) as real / HOUR_MS as real
    {
      var bucketMs := 0;
      for i := 0 to |ledger|
        invariant bucketMs == Overlaps(ledger[..i], EITHER, DayStart(from, day), DayStart(from, day) + DAY_MS)
      {
        assert ledger[..i + 1][..i] == ledger[..i];
        var interval := ledger[i];
        assert interval.kind.Stalled? || interval.kind.Parked?;
        bucketMs := bucketMs + OverlapMs(interval, DayStart(from, day), DayStart(from, day) + DAY_MS);
      }
      assert ledger[..|ledger|] == ledger;
      perDayHours := perDayHours + [bucketMs as real / HOUR_MS as real];
    }
  }

  // ---------------------------------------------------------------------------------------------
  // What is measured: the milliseconds lost
  // ---------------------------------------------------------------------------------------------

  /** The interval covers this millisecond: it has begun and has not ended. */
  predicate Lost(v: Interval, t: int)
  {
    v.startedAt <= t && (v.endedAt.None? || t < v.endedAt.value)
  }

  ghost function LostIn(v: Interval, from: int, to: int): set<int>
  {
    set t | from <= t < to && Lost(v, t)
  }

  /** The overlap of an interval with a window is the number of milliseconds of the window it covers. */
  lemma {:induction false} OverlapCounts(v: Interval, from: int, to: int)
    requires from <= to
    ensures OverlapMs(v, from, to) == |LostIn(v, from, to)|
    decreases -from + to
  {
    if from == to {
      assert LostIn(v, from, to) == {};
    } else {
      OverlapCounts(v, from, to - 1);
      OverlapSplits(v, from, to - 1, to);
      if Lost(v, to - 1) {
        assert LostIn(v, from, to) == LostIn(v, from, to - 1) + {to - 1};
      } else {
        assert LostIn(v, from, to) == LostIn(v, from, to - 1);
      }
    }
  }

  /** One interval at one millisecond. */
  datatype Loss = Loss(interval: nat, at: int)

  /** Every interval of the given kinds with every millisecond of the window that it covers. */
  ghost function LostPairs(ledger: seq<Interval>, kinds: set<Kind>, from: int, to: int): set<Loss>
  {
    set i, t | 0 <= i < |ledger| && from <= t < to && ledger[i].kind in kinds && Lost(ledger[i], t) :: Loss(i, t)
  }

  ghost function LossesOf(n: nat, v: Interval, from: int, to: int): set<Loss>
  {
    set t | from <= t < to && Lost(v, t) :: Loss(n, t)
  }

  lemma {:induction false} LossesCount(n: nat, v: Interval, from: int, to: int)
    requires from <= to
    ensures |LossesOf(n, v, from, to)| == OverlapMs(v, from, to)
    decreases -from + to
  {
    if from == to {
      assert LossesOf(n, v, from, to) == {};
    } else {
      LossesCount(n, v, from, to - 1);
      OverlapSplits(v, from, to - 1, to);
      if Lost(v, to - 1) {
        assert LossesOf(n, v, from, to) == LossesOf(n, v, from, to - 1) + {Loss(n, to - 1)};
      } else {
        assert LossesOf(n, v, from, to) == LossesOf(n, v, from, to - 1);
      }
    }
  }

  /** The overlap of a ledger counts each interval for each millisecond it covers. */
  lemma {:induction false} OverlapsCount(ledger: seq<Interval>, kinds: set<Kind>, from: int, to: int)
    requires from <= to
    ensures Overlaps(ledger, kinds, from, to) == |LostPairs(ledger, kinds, from, to)|
  {
    if ledger != [] {
      var n := |ledger| - 1;
      OverlapsCount(ledger[..n], kinds, from, to);
      LossesCount(n, ledger[n], from, to);
      LostPairsGrow(ledger, kinds, from, to);
    } else {
      assert LostPairs(ledger, kinds, from, to) == {};
    }
  }

  lemma LostPairsGrow(ledger: seq<Interval>, kinds: set<Kind>, from: int, to: int)
    requires ledger != []
    ensures var n := |ledger| - 1;
            |LostPairs(ledger, kinds, from, to)|
            == |LostPairs(ledger[..n], kinds, from, to)| + if ledger[n].kind in kinds then |LossesOf(n, ledger[n], from, to)| else 0
  {
    var n := |ledger| - 1;
    var before := LostPairs(ledger[..n], kinds, from, to);
    var added := LossesOf(n, ledger[n], from, to);
    assert before !! added;
    if ledger[n].kind in kinds {
      assert LostPairs(ledger, kinds, from, to) == before + added;
    } else {
      assert LostPairs(ledger, kinds, from, to) == before;
    }
  }

  ghost predicate Touches(v: Interval, from: int, to: int)
  {
    exists t | from <= t < to :: Lost(v, t)
  }

  /** The intervals that cover some millisecond of the window; on request, only those still open. */
  ghost function Touching(ledger: seq<Interval>, from: int, to: int, onlyOpen: bool): set<nat>
  {
    set i: nat | i < |ledger| && Touches(ledger[i], from, to) && (onlyOpen ==> ledger[i].endedAt.None?)
  }

  lemma TouchingGrows(ledger: seq<Interval>, from: int, to: int, onlyOpen: bool)
    requires ledger != []
    ensures var n := |ledger| - 1;
            |Touching(ledger, from, to, onlyOpen)|
            == |Touching(ledger[..n], from, to, onlyOpen)|
               + if Touches(ledger[n], from, to) && (onlyOpen ==> ledger[n].endedAt.None?) then 1 else 0
  {
    var n := |ledger| - 1;
    var before := Touching(ledger[..n], from, to, onlyOpen);
    assert forall i: nat | i < n :: ledger[..n][i] == ledger[i];
    if Touches(ledger[n], from, to) && (onlyOpen ==> ledger[n].endedAt.None?) {
      assert Touching(ledger, from, to, onlyOpen) == before + {n};
    } else {
      assert Touching(ledger, from, to, onlyOpen) == before;
    }
  }

  /** The intervals counted are those that cover some millisecond of the window, each once; likewise those open. */
  lemma {:induction false} ContributingCount(ledger: seq<Interval>, from: int, to: int)
    requires from <= to
    ensures |Contributing(ledger, from, to)| == |Touching(ledger, from, to, false)|
    ensures OpenCount(Contributing(ledger, from, to)) == |Touching(ledger, from, to, true)|
  {
    if ledger != [] {
      var n := |ledger| - 1;
      ContributingCount(ledger[..n], from, to);
      TouchesExactly(ledger[n], from, to);
      TouchingGrows(ledger, from, to, false);
      TouchingGrows(ledger, from, to, true);
      var rest := Contributing(ledger[..n], from, to);
      OpenCountAppend(rest, ledger[n]);
      assert rest + [] == rest;
    }
  }

  lemma TouchesExactly(v: Interval, from: int, to: int)
    requires from <= to
    ensures OverlapMs(v, from, to) > 0 <==> Touches(v, from, to)
  {
    OverlapCounts(v, from, to);
    if OverlapMs(v, from, to) > 0 {
      assert LostIn(v, from, to) != {};
      var t :| t in LostIn(v, from, to);
    } else {
      assert LostIn(v, from, to) == {};
    }
  }

  // ---------------------------------------------------------------------------------------------
  // Nothing is lost or counted twice
  // ---------------------------------------------------------------------------------------------

  /** Adjacent windows share an interval exactly, open or closed, and even one that ends before it starts. */
  lemma OverlapSplits(v: Interval, a: int, b: int, c: int)
    requires a <= b <= c
    ensures OverlapMs(v, a, c) == OverlapMs(v, a, b) + OverlapMs(v, b, c)
  {
  }

  lemma {:induction false} OverlapsSplit(ledger: seq<Interval>, kinds: set<Kind>, a: int, b: int, c: int)
    requires a <= b <= c
    ensures Overlaps(ledger, kinds, a, c) == Overlaps(ledger, kinds, a, b) + Overlaps(ledger, kinds, b, c)
  {
    if ledger != [] {
      OverlapSplits(ledger[|ledger| - 1], a, b, c);
      OverlapsSplit(ledger[..|ledger| - 1], kinds, a, b, c);
    }
  }

  lemma {:induction false} OverlapsOfNothing(ledger: seq<Interval>, kinds: set<Kind>, a: int)
    ensures Overlaps(ledger, kinds, a, a) == 0
  {
    if ledger != [] {
      OverlapsOfNothing(ledger[..|ledger| - 1], kinds, a);
    }
  }

  function SumOfDays(ledger: seq<Interval>, from: int, n: nat): nat
  {
    if n == 0 then 0 else SumOfDays(ledger, from, n - 1) + OnDay(ledger, from, n - 1)
  }

  /** For any intervals and any number of days, the days sum to the window. */
  lemma {:induction false} DaysSumToWindow(ledger: seq<Interval>, from: int, days: nat)
    ensures SumOfDays(ledger, from, days) == Overlaps(ledger, EITHER, from, from + days * DAY_MS)
  {
    if days == 0 {
      OverlapsOfNothing(ledger, EITHER, from);
    } else {
      DaysSumToWindow(ledger, from, days - 1);
      assert DayStart(from, days - 1) + DAY_MS == from + days * DAY_MS;
      OverlapsSplit(ledger, EITHER, from, DayStart(from, days - 1), from + days * DAY_MS);
    }
  }

  /** Every lost millisecond is either stalled or parked. */
  lemma {:induction false} StalledPlusParked(ledger: seq<Interval>, from: int, to: int)
    ensures Overlaps(ledger, {Stalled}, from, to) + Overlaps(ledger, {Parked}, from, to) == Overlaps(ledger, EITHER, from, to)
  {
    if ledger != [] {
      StalledPlusParked(ledger[..|ledger| - 1], from, to);
    }
  }

  lemma {:induction false} DailyHoursSum(ledger: seq<Interval>, from: int, perDayHours: seq<real>, n: nat)
    requires n <= |perDayHours|
    requires forall d | 0 <= d < |perDayHours| :: perDayHours[d] == OnDay(ledger, from, d) as real / HOUR_MS as real
    ensures SumTo(perDayHours, n) == SumOfDays(ledger, from, n) as real / HOUR_MS as real
  {
    if n > 0 {
      DailyHoursSum(ledger, from, perDayHours, n - 1);
    }
  }

  /** The reported mean is the mean of the reported days, and its two halves make it up. */
  lemma MeanIsMeanOfDays(ledger: seq<Interval>, from: int, days: nat, perDayHours: seq<real>)
    requires days > 0 && |perDayHours| == days
    requires forall d | 0 <= d < days :: perDayHours[d] == OnDay(ledger, from, d) as real / HOUR_MS as real
    ensures var to := from + days * DAY_MS;
            && MeanHours(Overlaps(ledger, EITHER, from, to), days) == Some(SumTo(perDayHours, days) / days as real)
            && MeanHours(Overlaps(ledger, EITHER, from, to), days).value
               == MeanHours(Overlaps(ledger, {Stalled}, from, to), days).value + MeanHours(Overlaps(ledger, {Parked}, from, to), days).value
  {
    DailyHoursSum(ledger, from, perDayHours, days);
    DaysSumToWindow(ledger, from, days);
    StalledPlusParked(ledger, from, from + days * DAY_MS);
    var to := from + days * DAY_MS;
    HalvesAdd(Overlaps(ledger, {Stalled}, from, to) as real, Overlaps(ledger, {Parked}, from, to) as real, HOUR_MS as real, days as real);
  }

  lemma HalvesAdd(a: real, b: real, h: real, d: real)
    requires h > 0.0 && d > 0.0
    ensures (a + b) / h / d == a / h / d + b / h / d
  {
    assert (a + b) / h == a / h + b / h;
    DivideSum(a / h, b / h, d);
  }

  lemma DivideSum(x: real, y: real, d: real)
    requires d > 0.0
    ensures (x + y) / d == x / d + y / d
  {
  }

  // ---------------------------------------------------------------------------------------------
  // One run cannot be dead for longer than the day
  // ---------------------------------------------------------------------------------------------

  function OfRun(ledger: seq<Interval>, id: RunId): seq<Interval>
  {
    if ledger == [] then []
    else OfRun(ledger[..|ledger| - 1], id) + if ledger[|ledger| - 1].runId == id then [ledger[|ledger| - 1]] else []
  }

  function Clip(t: int, from: int, to: int): nat
  {
    Max(0, Min(t, to) - from)
  }

  /** Intervals of a run that are over by `t` cover no more of the window than lies before `t`. */
  lemma {:induction false} PastFits(ledger: seq<Interval>, id: RunId, t: int, from: int, to: int)
    requires Tidy(ledger)
    requires forall i | 0 <= i < |ledger| && ledger[i].runId == id :: ledger[i].endedAt.Some? && ledger[i].endedAt.value <= t
    ensures Overlaps(OfRun(ledger, id), EITHER, from, to) <= Clip(t, from, to)
  {
    if ledger != [] {
      var n := |ledger| - 1;
      var v, rest := ledger[n], ledger[..n];
      assert Tidy(rest);
      if v.runId == id {
        PastFits(rest, id, v.startedAt, from, to);
        assert OfRun(ledger, id)[..|OfRun(rest, id)|] == OfRun(rest, id);
      } else {
        assert OfRun(ledger, id) == OfRun(rest, id);
        PastFits(rest, id, t, from, to);
      }
    }
  }

  /** One run's dead time in any window is at most the window. */
  lemma {:induction false} OneRunFits(ledger: seq<Interval>, id: RunId, from: int, to: int)
    requires Tidy(ledger) && from <= to
    ensures Overlaps(OfRun(ledger, id), EITHER, from, to) <= to - from
  {
    if ledger != [] {
      var n := |ledger| - 1;
      var v, rest := ledger[n], ledger[..n];
      assert Tidy(rest);
      if v.runId == id {
        PastFits(rest, id, v.startedAt, from, to);
        assert OfRun(ledger, id)[..|OfRun(rest, id)|] == OfRun(rest, id);
      } else {
        assert OfRun(ledger, id) == OfRun(rest, id);
        OneRunFits(rest, id, from, to);
      }
    }
  }

  /** Whatever timely sweeps have recorded, no run is dead for more than 24 hours of any day. */
  lemma NoDayOverTwentyFourHours(sweeps: seq<Sweep>, id: RunId, from: int, day: int)
    requires AllTimely(sweeps)
    ensures OnDay(OfRun(LedgerAfter(sweeps), id), from, day) <= DAY_MS
  {
    AlwaysTidy(sweeps);
    OneRunFits(LedgerAfter(sweeps), id, DayStart(from, day), DayStart(from, day) + DAY_MS);
  }
}
