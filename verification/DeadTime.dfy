/**
 * The dead-time ledger (`dead-time.service.ts`): each sweep's observations reconciled into a table of
 * intervals, whatever state the table was in.
 */
module DeadTime {
  import opened Base

  type RunId = nat

  datatype Kind = Stalled | Parked

  datatype EndedBy = Resumed | Concluded | Quarantined

  /** A `dead_intervals` row. */
  datatype Interval = Interval(runId: RunId, kind: Kind, startedAt: int, endedAt: Option<int>, endedBy: Option<EndedBy>)

  datatype RunStatus = IsRunning | IsStalled | IsBlocked | IsSucceeded | IsFailed | IsQuarantined

  /** What the query attaches to an interval: its run as it stood at that moment. */
  datatype RunRow = RunRow(status: RunStatus, lastEventAt: Option<int>, endedAt: Option<int>)

  datatype Observation = Observation(runId: RunId, kind: Kind, since: int)

  /**
   * One sweep: what it observed, which runs it looked at, and the runs themselves. `listed` is the query for
   * open intervals, in whatever order the database returned it.
   */
  datatype Sweep = Sweep(
    observations: seq<Observation>, judged: set<RunId>, now: int, runs: RunId -> RunRow, listed: seq<nat>)

  datatype LedgerResult = LedgerResult(begun: nat, resumed: nat, concluded: nat, quarantined: nat, stillOpen: nat)

  predicate Live(s: RunStatus)
  {
    s.IsRunning? || s.IsStalled? || s.IsBlocked?
  }

  function Latest(a: int, b: int): int
  {
    if a >= b then a else b
  }

  function OrElse(t: Option<int>, now: int): int
  {
    if t.Some? then t.value else now
  }

  /** The observation the pass goes by for a run: the last one listed. */
  function ObservedIn(observations: seq<Observation>, id: RunId): Option<Observation>
  {
    if observations == [] then None
    else if observations[|observations| - 1].runId == id then Some(observations[|observations| - 1])
    else ObservedIn(observations[..|observations| - 1], id)
  }

  function Observed(sw: Sweep, id: RunId): Option<Observation>
  {
    ObservedIn(sw.observations, id)
  }

  // ---------------------------------------------------------------------------------------------
  // What a pass owes each interval
  // ---------------------------------------------------------------------------------------------

  datatype Verdict = Keep | End(at: int, cause: EndedBy) | Replace(observation: Observation)

  /** What becomes of an interval found open. */
  function Judge(v: Interval, sw: Sweep): Verdict
  {
    var run := sw.runs(v.runId);
    if !Live(run.status) then
      End(Latest(OrElse(run.endedAt, sw.now), v.startedAt), if run.status.IsQuarantined? then Quarantined else Concluded)
    else
      match Observed(sw, v.runId)
      case Some(o) => if o.kind == v.kind && o.since <= v.startedAt then Keep else Replace(o)
      case None =>
        if v.runId in sw.judged then End(Latest(OrElse(run.lastEventAt, sw.now), v.startedAt), Resumed) else Keep
  }

  function Closed(v: Interval, at: int, cause: EndedBy): Interval
  {
    v.(endedAt := Some(at), endedBy := Some(cause))
  }

  function Opened(o: Observation): Interval
  {
    Interval(o.runId, o.kind, o.since, None, None)
  }

  function Settle(v: Interval, sw: Sweep): Interval
  {
    if v.endedAt.Some? then v
    else
      match Judge(v, sw)
      case Keep => v
      case End(at, cause) => Closed(v, at, cause)
      case Replace(o) => Closed(v, o.since, Resumed)
  }

  predicate HasOpen(ledger: seq<Interval>, id: RunId)
  {
    exists k | 0 <= k < |ledger| :: ledger[k].runId == id && ledger[k].endedAt.None?
  }

  /** The listing holds each open interval once. */
  ghost predicate IsListing(ledger: seq<Interval>, listed: seq<nat>)
  {
    && (forall i | 0 <= i < |listed| :: listed[i] < |ledger| && ledger[listed[i]].endedAt.None?)
    && (forall i, j | 0 <= i < j < |listed| :: listed[i] != listed[j])
    && (forall k | 0 <= k < |ledger| && ledger[k].endedAt.None? :: k in listed)
  }

  function Settled(ledger: seq<Interval>, sw: Sweep): (settled: seq<Interval>)
    ensures |settled| == |ledger| && forall k | 0 <= k < |ledger| :: settled[k] == Settle(ledger[k], sw)
  {
    seq(|ledger|, k requires 0 <= k < |ledger| => Settle(ledger[k], sw))
  }

  /** The intervals opened in place of listed ones that a newer observation ended. */
  function Reopened(ledger: seq<Interval>, sw: Sweep, listed: seq<nat>): seq<Interval>
    requires forall i | 0 <= i < |listed| :: listed[i] < |ledger|
  {
    if listed == [] then []
    else
      var verdict := Judge(ledger[listed[|listed| - 1]], sw);
      Reopened(ledger, sw, listed[..|listed| - 1]) + if verdict.Replace? then [Opened(verdict.observation)] else []
  }

  /** The intervals opened for observed runs that had none open. */
  function Begun(ledger: seq<Interval>, observations: seq<Observation>): seq<Interval>
  {
    if observations == [] then []
    else
      var o := observations[|observations| - 1];
      Begun(ledger, observations[..|observations| - 1]) + if HasOpen(ledger, o.runId) then [] else [Opened(o)]
  }

  /** The ledger after one pass. */
  ghost function Pass(ledger: seq<Interval>, sw: Sweep): seq<Interval>
    requires IsListing(ledger, sw.listed)
  {
    Settled(ledger, sw) + Reopened(ledger, sw, sw.listed) + Begun(ledger, sw.observations)
  }

  function OpenCount(ledger: seq<Interval>): nat
  {
    if ledger == [] then 0
    else OpenCount(ledger[..|ledger| - 1]) + if ledger[|ledger| - 1].endedAt.None? then 1 else 0
  }

  /** How many intervals open in `before` are closed in `after` for this cause. */
  function EndedCount(before: seq<Interval>, after: seq<Interval>, cause: EndedBy): nat
    requires |before| <= |after|
  {
    if before == [] then 0
    else
      var n := |before| - 1;
      EndedCount(before[..n], after, cause)
      + if before[n].endedAt.None? && after[n].endedAt.Some? && after[n].endedBy == Some(cause) then 1 else 0
  }

  lemma OpenCountAppend(ledger: seq<Interval>, v: Interval)
    ensures OpenCount(ledger + [v]) == OpenCount(ledger) + if v.endedAt.None? then 1 else 0
  {
    assert (ledger + [v])[..|ledger|] == ledger;
  }

  lemma {:induction false} OpenCountClose(ledger: seq<Interval>, k: nat, v: Interval)
    requires k < |ledger| && ledger[k].endedAt.None? && v.endedAt.Some?
    ensures OpenCount(ledger[k := v]) == OpenCount(ledger) - 1
  {
    var n := |ledger| - 1;
    if k == n {
      assert ledger[k := v][..n] == ledger[..n];
    } else {
      assert ledger[k := v][..n] == ledger[..n][k := v];
      OpenCountClose(ledger[..n], k, v);
    }
  }

  lemma {:induction false} EndedCountClose(before: seq<Interval>, after: seq<Interval>, k: nat, v: Interval, cause: EndedBy)
    requires k < |before| <= |after| && before[k].endedAt.None? && after[k].endedAt.None? && v.endedAt.Some?
    ensures EndedCount(before, after[k := v], cause) == EndedCount(before, after, cause) + if v.endedBy == Some(cause) then 1 else 0
  {
    var n := |before| - 1;
    if k == n {
      EndedCountFrame(before[..n], after, after[k := v], cause);
    } else {
      EndedCountClose(before[..n], after, k, v, cause);
    }
  }

  lemma {:induction false} EndedCountFrame(before: seq<Interval>, after: seq<Interval>, after': seq<Interval>, cause: EndedBy)
    requires |before| <= |after| && |before| <= |after'| && forall k | 0 <= k < |before| :: after[k] == after'[k]
    ensures EndedCount(before, after, cause) == EndedCount(before, after', cause)
  {
    if before != [] {
      EndedCountFrame(before[..|before| - 1], after, after', cause);
    }
  }

  lemma {:induction false} EndedCountSame(before: seq<Interval>, cause: EndedBy)
    ensures EndedCount(before, before, cause) == 0
  {
    if before != [] {
      EndedCountSame(before[..|before| - 1], cause);
      EndedCountFrame(before[..|before| - 1], before, before[..|before| - 1], cause);
    }
  }

  lemma {:induction false} NothingOpen(ledger: seq<Interval>)
    requires forall k | 0 <= k < |ledger| :: ledger[k].endedAt.Some?
    ensures OpenCount(ledger) == 0
  {
    if ledger != [] {
      NothingOpen(ledger[..|ledger| - 1]);
    }
  }

  lemma {:induction false} ListingCounts(ledger: seq<Interval>, listed: seq<nat>)
    requires IsListing(ledger, listed)
    ensures |listed| == OpenCount(ledger)
    decreases |listed|
  {
    if listed == [] {
      NothingOpen(ledger);
    } else {
      var n := |listed| - 1;
      var k := listed[n];
      var closed := ledger[k := Closed(ledger[k], 0, Resumed)];
      assert IsListing(closed, listed[..n]) by {
        forall j | 0 <= j < |closed| && closed[j].endedAt.None? ensures j in listed[..n] {
          assert j in listed;
        }
      }
      ListingCounts(closed, listed[..n]);
      OpenCountClose(ledger, k, Closed(ledger[k], 0, Resumed));
    }
  }

  // ---------------------------------------------------------------------------------------------
  // The service
  // ---------------------------------------------------------------------------------------------

  /** Where the first loop stands after the first `i` listed intervals. */
  ghost predicate Midway(before: seq<Interval>, current: seq<Interval>, sw: Sweep, i: nat)
    requires IsListing(before, sw.listed) && i <= |sw.listed|
  {
    && |current| >= |before|
    && current[|before|..] == Reopened(before, sw, sw.listed[..i])
    && (forall j | 0 <= j < i :: current[sw.listed[j]] == Settle(before[sw.listed[j]], sw))
    && (forall k | 0 <= k < |before| && k !in sw.listed[..i] :: current[k] == before[k])
  }

  /** The counters agree with the ledger they were counted on; `unseen` open rows are yet to be decided about. */
  ghost predicate Counted(before: seq<Interval>, current: seq<Interval>, r: LedgerResult, unseen: nat)
  {
    && |current| == |before| + r.begun
    && r.resumed == EndedCount(before, current, Resumed)
    && r.concluded == EndedCount(before, current, Concluded)
    && r.quarantined == EndedCount(before, current, Quarantined)
    && OpenCount(current) == r.stillOpen + unseen
  }

  lemma OpenedCounts(before: seq<Interval>, current: seq<Interval>, r: LedgerResult, unseen: nat, o: Observation)
    requires |before| <= |current| && Counted(before, current, r, unseen)
    ensures Counted(before, current + [Opened(o)], r.(begun := r.begun + 1, stillOpen := r.stillOpen + 1), unseen)
  {
    var v := Opened(o);
    OpenCountAppend(current, v);
    forall cause ensures EndedCount(before, current + [v], cause) == EndedCount(before, current, cause) {
      EndedCountFrame(before, current, current + [v], cause);
    }
  }

  lemma ClosedCounts(before: seq<Interval>, current: seq<Interval>, r: LedgerResult, unseen: nat, k: nat, at: int, cause: EndedBy)
    requires k < |before| <= |current| && before[k].endedAt.None? && current[k] == before[k] && Counted(before, current, r, unseen + 1)
    ensures Counted(before, current[k := Closed(before[k], at, cause)],
                    match cause
                    case Resumed => r.(resumed := r.resumed + 1)
                    case Concluded => r.(concluded := r.concluded + 1)
                    case Quarantined => r.(quarantined := r.quarantined + 1),
                    unseen)
  {
    OpenCountClose(current, k, Closed(before[k], at, cause));
    forall c ensures EndedCount(before, current[k := Closed(before[k], at, cause)], c)
                     == EndedCount(before, current, c) + if c == cause then 1 else 0
    {
      EndedCountClose(before, current, k, Closed(before[k], at, cause), c);
    }
  }

  lemma MidwayKeeps(before: seq<Interval>, current: seq<Interval>, sw: Sweep, i: nat)
    requires IsListing(before, sw.listed) && i < |sw.listed| && Midway(before, current, sw, i)
    requires Judge(before[sw.listed[i]], sw).Keep?
    ensures Midway(before, current, sw, i + 1)
  {
    assert sw.listed[..i + 1][..i] == sw.listed[..i];
    assert sw.listed[i] !in sw.listed[..i];
    assert forall k | k !in sw.listed[..i + 1] :: k !in sw.listed[..i];
  }

  lemma MidwayEnds(before: seq<Interval>, current: seq<Interval>, sw: Sweep, i: nat)
    requires IsListing(before, sw.listed) && i < |sw.listed| && Midway(before, current, sw, i)
    requires !Judge(before[sw.listed[i]], sw).Keep?
    ensures var k, verdict := sw.listed[i], Judge(before[sw.listed[i]], sw);
            var closed := current[k := Settle(before[k], sw)];
            && current[k] == before[k]
            && (verdict.End? ==> Midway(before, closed, sw, i + 1))
            && (verdict.Replace? ==> Midway(before, closed + [Opened(verdict.observation)], sw, i + 1))
  {
    var k := sw.listed[i];
    var closed := current[k := Settle(before[k], sw)];
    assert sw.listed[..i + 1][..i] == sw.listed[..i];
    assert k !in sw.listed[..i];
    assert forall j | j !in sw.listed[..i + 1] :: j !in sw.listed[..i];
    assert closed[|before|..] == current[|before|..];
    if Judge(before[k], sw).Replace? {
      var grown := closed + [Opened(Judge(before[k], sw).observation)];
      assert grown[|before|..] == closed[|before|..] + [Opened(Judge(before[k], sw).observation)];
    }
  }

  lemma MidwayDone(before: seq<Interval>, current: seq<Interval>, sw: Sweep)
    requires IsListing(before, sw.listed) && Midway(before, current, sw, |sw.listed|)
    ensures current == Settled(before, sw) + Reopened(before, sw, sw.listed)
  {
    assert sw.listed[..|sw.listed|] == sw.listed;
    forall k | 0 <= k < |before| ensures current[k] == Settle(before[k], sw) {
      if before[k].endedAt.None? {
        var j :| 0 <= j < |sw.listed| && sw.listed[j] == k;
      }
    }
  }

  class DeadTimeService {
    var intervals: seq<Interval>

    constructor ()
      ensures intervals == []
    {
      intervals := [];
    }

    /** The guarded close: only an interval still open takes an end. */
    method Close(k: nat, at: int, cause: EndedBy)
      requires k < |intervals|
      modifies this
      ensures intervals == if old(intervals)[k].endedAt.None? then old(intervals)[k := Closed(old(intervals)[k], at, cause)] else old(intervals)
    {
      if intervals[k].endedAt.None? {
        intervals := intervals[k := Closed(intervals[k], at, cause)];
      }
    }

    method Open(o: Observation)
      modifies this
      ensures intervals == old(intervals) + [Opened(o)]
    {
      intervals := intervals + [Opened(o)];
    }

    /**
     * `record`: the ledger becomes what the pass owes each interval and each observation, `stillOpen` is the number
     * of rows left open, and every other counter is the number of rows it names.
     */
    method Record(sw: Sweep) returns (r: LedgerResult)
      requires IsListing(intervals, sw.listed)
      modifies this
      ensures intervals == Pass(old(intervals), sw)
      ensures |old(intervals)| <= |intervals| && Counted(old(intervals), intervals, r, 0)
    {
      r := LedgerResult(0, 0, 0, 0, 0);
      var snapshot := intervals;
      var handled: set<RunId> := {};
      forall cause ensures EndedCount(snapshot, snapshot, cause) == 0 {
        EndedCountSame(snapshot, cause);
      }
      ListingCounts(snapshot, sw.listed);
      for i := 0 to |sw.listed|
        invariant Midway(snapshot, intervals, sw, i) && Counted(snapshot, intervals, r, |sw.listed| - i)
        invariant handled == set j | 0 <= j < i :: snapshot[sw.listed[j]].runId
      {
        var k := sw.listed[i];
        var interval := snapshot[k];
        handled := handled + {interval.runId};
        r := Reconcile(snapshot, sw, i, r);
      }
      MidwayDone(snapshot, intervals, sw);
      r := BeginObserved(snapshot, sw, handled, r);
    }

    /** The second loop: observed runs nothing was decided about get an interval. */
    method BeginObserved(snapshot: seq<Interval>, sw: Sweep, handled: set<RunId>, counts: LedgerResult) returns (r: LedgerResult)
      requires IsListing(snapshot, sw.listed) && handled == set j | 0 <= j < |sw.listed| :: snapshot[sw.listed[j]].runId
      requires |snapshot| <= |intervals| && Counted(snapshot, intervals, counts, 0)
      modifies this
      ensures intervals == old(intervals) + Begun(snapshot, sw.observations)
      ensures |snapshot| <= |intervals| && Counted(snapshot, intervals, r, 0)
    {
      r := counts;
      for i := 0 to |sw.observations|
        invariant intervals == old(intervals) + Begun(snapshot, sw.observations[..i]) && Counted(snapshot, intervals, r, 0)
      {
        var o := sw.observations[i];
        assert sw.observations[..i + 1][..i] == sw.observations[..i];
        HandledMeansOpen(snapshot, sw, handled, o.runId);
        if o.runId !in handled {
          OpenedCounts(snapshot, intervals, r, 0, o);
          Open(o);
          r := r.(begun := r.begun + 1, stillOpen := r.stillOpen + 1);
        }
      }
      assert sw.observations[..|sw.observations|] == sw.observations;
    }

    /** The first loop's body: one listed interval. */
    method Reconcile(snapshot: seq<Interval>, sw: Sweep, i: nat, counts: LedgerResult) returns (r: LedgerResult)
      requires IsListing(snapshot, sw.listed) && i < |sw.listed|
      requires Midway(snapshot, intervals, sw, i) && Counted(snapshot, intervals, counts, |sw.listed| - i)
      modifies this
      ensures Midway(snapshot, intervals, sw, i + 1) && |snapshot| <= |intervals| && Counted(snapshot, intervals, r, |sw.listed| - (i + 1))
    {
      var interval := snapshot[sw.listed[i]];
      var run := sw.runs(interval.runId);
      if !Live(run.status) {
        var at := Latest(OrElse(run.endedAt, sw.now), interval.startedAt);
        r := EndListed(snapshot, sw, i, at, if run.status.IsQuarantined? then Quarantined else Concluded, counts);
        return;
      }
      var observation := Observed(sw, interval.runId);
      if observation.Some? && !(observation.value.kind == interval.kind && observation.value.since <= interval.startedAt) {
        r := ReplaceListed(snapshot, sw, i, observation.value, counts);
        return;
      }
      if observation.None? && interval.runId in sw.judged {
        r := EndListed(snapshot, sw, i, Latest(OrElse(run.lastEventAt, sw.now), interval.startedAt), Resumed, counts);
        return;
      }
      MidwayKeeps(snapshot, intervals, sw, i);
      r := counts.(stillOpen := counts.stillOpen + 1);
    }

    /** Close a listed interval, and count how it ended. */
    method EndListed(snapshot: seq<Interval>, sw: Sweep, i: nat, at: int, cause: EndedBy, counts: LedgerResult) returns (r: LedgerResult)
      requires IsListing(snapshot, sw.listed) && i < |sw.listed| && Judge(snapshot[sw.listed[i]], sw) == End(at, cause)
      requires Midway(snapshot, intervals, sw, i) && Counted(snapshot, intervals, counts, |sw.listed| - i)
      modifies this
      ensures Midway(snapshot, intervals, sw, i + 1) && |snapshot| <= |intervals| && Counted(snapshot, intervals, r, |sw.listed| - (i + 1))
    {
      var k := sw.listed[i];
      MidwayEnds(snapshot, intervals, sw, i);
      ClosedCounts(snapshot, intervals, counts, |sw.listed| - (i + 1), k, at, cause);
      Close(k, at, cause);
      match cause {
        case Resumed => r := counts.(resumed := counts.resumed + 1);
        case Concluded => r := counts.(concluded := counts.concluded + 1);
        case Quarantined => r := counts.(quarantined := counts.quarantined + 1);
      }
    }

    /** A new period of non-progress: the old interval ends where the new one starts. */
    method ReplaceListed(snapshot: seq<Interval>, sw: Sweep, i: nat, o: Observation, counts: LedgerResult) returns (r: LedgerResult)
      requires IsListing(snapshot, sw.listed) && i < |sw.listed| && Judge(snapshot[sw.listed[i]], sw) == Replace(o)
      requires Midway(snapshot, intervals, sw, i) && Counted(snapshot, intervals, counts, |sw.listed| - i)
      modifies this
      ensures Midway(snapshot, intervals, sw, i + 1) && |snapshot| <= |intervals| && Counted(snapshot, intervals, r, |sw.listed| - (i + 1))
    {
      var k := sw.listed[i];
      MidwayEnds(snapshot, intervals, sw, i);
      ClosedCounts(snapshot, intervals, counts, |sw.listed| - (i + 1), k, o.since, Resumed);
      Close(k, o.since, Resumed);
      r := counts.(resumed := counts.resumed + 1);
      OpenedCounts(snapshot, intervals, r, |sw.listed| - (i + 1), o);
      Open(o);
      r := r.(begun := r.begun + 1, stillOpen := r.stillOpen + 1);
    }
  }

  lemma HandledMeansOpen(ledger: seq<Interval>, sw: Sweep, handled: set<RunId>, id: RunId)
    requires IsListing(ledger, sw.listed)
    requires handled == set j | 0 <= j < |sw.listed| :: ledger[sw.listed[j]].runId
    ensures id in handled <==> HasOpen(ledger, id)
  {
    if HasOpen(ledger, id) {
      var k :| 0 <= k < |ledger| && ledger[k].runId == id && ledger[k].endedAt.None?;
      var j :| 0 <= j < |sw.listed| && sw.listed[j] == k;
    }
  }
}
