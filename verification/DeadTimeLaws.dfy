/** What one pass of the dead-time ledger, and any sequence of passes, guarantees. */
module DeadTimeLaws {
  import opened Base
  import opened DeadTime

  ghost predicate DistinctRuns(observations: seq<Observation>)
  {
    forall i, j | 0 <= i < j < |observations| :: observations[i].runId != observations[j].runId
  }

  ghost predicate OneOpen(ledger: seq<Interval>)
  {
    forall i, j | 0 <= i < j < |ledger| && ledger[i].endedAt.None? && ledger[j].endedAt.None? :: ledger[i].runId != ledger[j].runId
  }

  ghost predicate RunsApart(rows: seq<Interval>)
  {
    forall i, j | 0 <= i < j < |rows| :: rows[i].runId != rows[j].runId
  }

  lemma ApartWithOneMore(rows: seq<Interval>, v: Interval)
    requires RunsApart(rows) && forall i | 0 <= i < |rows| :: rows[i].runId != v.runId
    ensures RunsApart(rows + [v])
  {
  }

  // ---------------------------------------------------------------------------------------------
  // Where the new rows come from
  // ---------------------------------------------------------------------------------------------

  lemma {:induction false} ObservedIsListed(observations: seq<Observation>, id: RunId)
    ensures match ObservedIn(observations, id)
            case Some(o) => o.runId == id && o in observations
            case None => forall o | o in observations :: o.runId != id
  {
    if observations != [] {
      ObservedIsListed(observations[..|observations| - 1], id);
    }
  }

  /** Of several observations of a run, the last one listed counts. */
  lemma {:induction false} LastObservationCounts(observations: seq<Observation>, i: nat)
    requires i < |observations| && forall j | i < j < |observations| :: observations[j].runId != observations[i].runId
    ensures ObservedIn(observations, observations[i].runId) == Some(observations[i])
  {
    var n := |observations| - 1;
    if i < n {
      LastObservationCounts(observations[..n], i);
    }
  }

  lemma {:induction false} DistinctObserved(observations: seq<Observation>, o: Observation)
    requires DistinctRuns(observations) && o in observations
    ensures ObservedIn(observations, o.runId) == Some(o)
  {
    ObservedIsListed(observations, o.runId);
  }

  /** Row `v` replaces the open interval at `m`. */
  ghost predicate Replaces(ledger: seq<Interval>, sw: Sweep, v: Interval, m: nat)
  {
    && m < |ledger| && ledger[m].endedAt.None? && ledger[m].runId == v.runId
    && Live(sw.runs(v.runId).status) && Observed(sw, v.runId).Some?
    && Judge(ledger[m], sw) == Replace(Observed(sw, v.runId).value)
    && v == Opened(Observed(sw, v.runId).value)
  }

  ghost predicate Begins(ledger: seq<Interval>, sw: Sweep, v: Interval)
  {
    !HasOpen(ledger, v.runId) && exists o | o in sw.observations :: v == Opened(o)
  }

  lemma {:induction false} ReopenedReplaces(ledger: seq<Interval>, sw: Sweep, listed: seq<nat>, i: nat)
    requires forall j | 0 <= j < |listed| :: listed[j] < |ledger| && ledger[listed[j]].endedAt.None?
    requires i < |Reopened(ledger, sw, listed)|
    ensures exists m | m in listed :: Replaces(ledger, sw, Reopened(ledger, sw, listed)[i], m)
  {
    var n := |listed| - 1;
    ObservedIsListed(sw.observations, ledger[listed[n]].runId);
    if i < |Reopened(ledger, sw, listed[..n])| {
      ReopenedReplaces(ledger, sw, listed[..n], i);
      var m :| m in listed[..n] && Replaces(ledger, sw, Reopened(ledger, sw, listed[..n])[i], m);
      assert m in listed;
    } else {
      assert Replaces(ledger, sw, Reopened(ledger, sw, listed)[i], listed[n]);
    }
  }

  lemma {:induction false} ReopenedApart(ledger: seq<Interval>, sw: Sweep, listed: seq<nat>)
    requires OneOpen(ledger)
    requires forall j | 0 <= j < |listed| :: listed[j] < |ledger| && ledger[listed[j]].endedAt.None?
    requires forall i, j | 0 <= i < j < |listed| :: listed[i] != listed[j]
    ensures RunsApart(Reopened(ledger, sw, listed))
  {
    if listed != [] {
      var n := |listed| - 1;
      var before, r := Reopened(ledger, sw, listed[..n]), Reopened(ledger, sw, listed);
      ReopenedApart(ledger, sw, listed[..n]);
      if |r| > |before| {
        forall i | 0 <= i < |before| ensures before[i].runId != r[|before|].runId {
          ReopenedReplaces(ledger, sw, listed[..n], i);
          var m :| m in listed[..n] && Replaces(ledger, sw, before[i], m);
          ObservedIsListed(sw.observations, ledger[listed[n]].runId);
          assert ledger[m].runId != ledger[listed[n]].runId;
        }
        ApartWithOneMore(before, r[|before|]);
        assert r == before + [r[|before|]];
      }
    }
  }

  lemma {:induction false} BegunBegins(ledger: seq<Interval>, sw: Sweep, n: nat, i: nat)
    requires n <= |sw.observations| && i < |Begun(ledger, sw.observations[..n])|
    ensures Begins(ledger, sw, Begun(ledger, sw.observations[..n])[i])
    ensures exists j | 0 <= j < n :: sw.observations[j].runId == Begun(ledger, sw.observations[..n])[i].runId
  {
    assert n > 0;
    assert sw.observations[..n][..n - 1] == sw.observations[..n - 1];
    if i < |Begun(ledger, sw.observations[..n - 1])| {
      BegunBegins(ledger, sw, n - 1, i);
    } else {
      assert sw.observations[n - 1] in sw.observations;
    }
  }

  lemma {:induction false} BegunApart(ledger: seq<Interval>, sw: Sweep, n: nat)
    requires n <= |sw.observations| && DistinctRuns(sw.observations)
    ensures RunsApart(Begun(ledger, sw.observations[..n]))
  {
    if n > 0 {
      assert sw.observations[..n][..n - 1] == sw.observations[..n - 1];
      BegunApart(ledger, sw, n - 1);
      var before := Begun(ledger, sw.observations[..n - 1]);
      forall i | 0 <= i < |before| ensures before[i].runId != sw.observations[n - 1].runId {
        BegunBegins(ledger, sw, n - 1, i);
      }
      ApartWithOneMore(before, Opened(sw.observations[n - 1]));
    }
  }

  /** Every observed run with nothing open gets an interval. */
  lemma {:induction false} BegunCovers(ledger: seq<Interval>, observations: seq<Observation>, o: Observation)
    requires o in observations && !HasOpen(ledger, o.runId)
    ensures Opened(o) in Begun(ledger, observations)
  {
    var n := |observations| - 1;
    if o != observations[n] {
      BegunCovers(ledger, observations[..n], o);
    }
  }

  lemma {:induction false} ReopenedCovers(ledger: seq<Interval>, sw: Sweep, listed: seq<nat>, m: nat)
    requires forall j | 0 <= j < |listed| :: listed[j] < |ledger|
    requires m in listed && Judge(ledger[m], sw).Replace?
    ensures Opened(Judge(ledger[m], sw).observation) in Reopened(ledger, sw, listed)
  {
    var n := |listed| - 1;
    if m != listed[n] {
      ReopenedCovers(ledger, sw, listed[..n], m);
    }
  }

  /** Each row a pass adds replaces an open interval of its run, or begins one where none was open. */
  lemma NewRow(ledger: seq<Interval>, sw: Sweep, k: nat)
    requires IsListing(ledger, sw.listed) && |ledger| <= k < |Pass(ledger, sw)|
    ensures var v := Pass(ledger, sw)[k];
            (exists m :: Replaces(ledger, sw, v, m)) || Begins(ledger, sw, v)
  {
    var reopened := Reopened(ledger, sw, sw.listed);
    var v := Pass(ledger, sw)[k];
    if k - |ledger| < |reopened| {
      assert v == reopened[k - |ledger|];
      ReopenedReplaces(ledger, sw, sw.listed, k - |ledger|);
    } else {
      assert sw.observations[..|sw.observations|] == sw.observations;
      assert v == Begun(ledger, sw.observations)[k - |ledger| - |reopened|];
      BegunBegins(ledger, sw, |sw.observations|, k - |ledger| - |reopened|);
    }
  }

  /** The rows a pass adds belong to different runs. */
  lemma NewRowsApart(ledger: seq<Interval>, sw: Sweep, i: nat, j: nat)
    requires IsListing(ledger, sw.listed) && OneOpen(ledger) && DistinctRuns(sw.observations)
    requires |ledger| <= i < j < |Pass(ledger, sw)|
    ensures Pass(ledger, sw)[i].runId != Pass(ledger, sw)[j].runId
  {
    var reopened, begun := Reopened(ledger, sw, sw.listed), Begun(ledger, sw.observations);
    ReopenedApart(ledger, sw, sw.listed);
    assert sw.observations[..|sw.observations|] == sw.observations;
    BegunApart(ledger, sw, |sw.observations|);
    forall a, b | 0 <= a < |reopened| && 0 <= b < |begun| ensures reopened[a].runId != begun[b].runId {
      ReopenedNotBegun(ledger, sw, a, b);
    }
    PartsApart(Settled(ledger, sw), reopened, begun, i, j);
  }

  lemma ReopenedNotBegun(ledger: seq<Interval>, sw: Sweep, a: nat, b: nat)
    requires IsListing(ledger, sw.listed)
    requires a < |Reopened(ledger, sw, sw.listed)| && b < |Begun(ledger, sw.observations)|
    ensures Reopened(ledger, sw, sw.listed)[a].runId != Begun(ledger, sw.observations)[b].runId
  {
    ReopenedReplaces(ledger, sw, sw.listed, a);
    var m :| m in sw.listed && Replaces(ledger, sw, Reopened(ledger, sw, sw.listed)[a], m);
    assert HasOpen(ledger, ledger[m].runId);
    assert sw.observations[..|sw.observations|] == sw.observations;
    BegunBegins(ledger, sw, |sw.observations|, b);
  }

  lemma PartsApart(old': seq<Interval>, reopened: seq<Interval>, begun: seq<Interval>, i: nat, j: nat)
    requires RunsApart(reopened) && RunsApart(begun)
    requires forall a, b | 0 <= a < |reopened| && 0 <= b < |begun| :: reopened[a].runId != begun[b].runId
    requires |old'| <= i < j < |old' + reopened + begun|
    ensures (old' + reopened + begun)[i].runId != (old' + reopened + begun)[j].runId
  {
    var n := |old'| + |reopened|;
    assert forall k | |old'| <= k < n :: (old' + reopened + begun)[k] == reopened[k - |old'|];
    assert forall k | n <= k < n + |begun| :: (old' + reopened + begun)[k] == begun[k - n];
  }

  // ---------------------------------------------------------------------------------------------
  // One pass
  // ---------------------------------------------------------------------------------------------

  /** After a pass a run has an open interval exactly when it should, from any ledger at all. */
  lemma OpenAfterPass(ledger: seq<Interval>, sw: Sweep, id: RunId)
    requires IsListing(ledger, sw.listed)
    ensures HasOpen(Pass(ledger, sw), id)
            <==> if HasOpen(ledger, id) then Live(sw.runs(id).status) && (Observed(sw, id).Some? || id !in sw.judged)
                 else Observed(sw, id).Some?
  {
    ObservedIsListed(sw.observations, id);
    if HasOpen(ledger, id) {
      OpenRunAfterPass(ledger, sw, id);
    } else {
      IdleRunAfterPass(ledger, sw, id);
    }
  }

  lemma OpenRunAfterPass(ledger: seq<Interval>, sw: Sweep, id: RunId)
    requires IsListing(ledger, sw.listed) && HasOpen(ledger, id)
    ensures HasOpen(Pass(ledger, sw), id) <==> Live(sw.runs(id).status) && (Observed(sw, id).Some? || id !in sw.judged)
  {
    var after := Pass(ledger, sw);
    ObservedIsListed(sw.observations, id);
    var m :| 0 <= m < |ledger| && ledger[m].runId == id && ledger[m].endedAt.None?;
    assert after[m] == Settle(ledger[m], sw);
    match Judge(ledger[m], sw) {
      case Keep =>
        assert after[m].runId == id && after[m].endedAt.None?;
      case Replace(o) =>
        ReopenedCovers(ledger, sw, sw.listed, m);
        assert Opened(o) in after;
      case End(_, _) =>
        forall k | 0 <= k < |after| && after[k].runId == id ensures after[k].endedAt.Some? {
          if k < |ledger| {
            assert after[k] == Settle(ledger[k], sw);
          } else {
            NewRow(ledger, sw, k);
          }
        }
    }
  }

  lemma IdleRunAfterPass(ledger: seq<Interval>, sw: Sweep, id: RunId)
    requires IsListing(ledger, sw.listed) && !HasOpen(ledger, id)
    ensures HasOpen(Pass(ledger, sw), id) <==> Observed(sw, id).Some?
  {
    var after := Pass(ledger, sw);
    ObservedIsListed(sw.observations, id);
    if Observed(sw, id).Some? {
      var o := Observed(sw, id).value;
      BegunCovers(ledger, sw.observations, o);
      assert Opened(o) in after;
    } else {
      forall k | 0 <= k < |after| && after[k].runId == id ensures after[k].endedAt.Some? {
        if k < |ledger| {
          assert after[k] == Settle(ledger[k], sw);
        } else {
          NewRow(ledger, sw, k);
        }
      }
    }
  }

  /** A judged live run ends the pass with an open interval exactly when the sweep observed it. */
  lemma JudgedRunsAgree(ledger: seq<Interval>, sw: Sweep, id: RunId)
    requires IsListing(ledger, sw.listed) && id in sw.judged && Live(sw.runs(id).status)
    ensures HasOpen(Pass(ledger, sw), id) <==> Observed(sw, id).Some?
  {
    OpenAfterPass(ledger, sw, id);
  }

  /**
   * No finished run is left open exactly when every observed run with nothing open yet is still live: a run
   * that concluded after the sweep looked, before anything was open for it, is given an open interval.
   */
  lemma NoFinishedRunLeftOpen(ledger: seq<Interval>, sw: Sweep)
    requires IsListing(ledger, sw.listed)
    ensures (forall id :: HasOpen(Pass(ledger, sw), id) ==> Live(sw.runs(id).status))
            <==> (forall o | o in sw.observations && !HasOpen(ledger, o.runId) :: Live(sw.runs(o.runId).status))
  {
    forall id ensures HasOpen(Pass(ledger, sw), id)
                      <==> if HasOpen(ledger, id) then Live(sw.runs(id).status) && (Observed(sw, id).Some? || id !in sw.judged)
                           else Observed(sw, id).Some?
    {
      OpenAfterPass(ledger, sw, id);
    }
    forall id ensures Observed(sw, id).Some? <==> exists o | o in sw.observations :: o.runId == id {
      ObservedIsListed(sw.observations, id);
    }
  }

  /**
   * And never for longer than until the next pass: that one, whether or not it judges or observes the run,
   * leaves it nothing open, and each interval it found open ends with the run, or where it began if later.
   */
  lemma FinishedRunIsClosedNext(ledger: seq<Interval>, sw: Sweep, id: RunId)
    requires IsListing(ledger, sw.listed) && HasOpen(ledger, id) && !Live(sw.runs(id).status)
    ensures !HasOpen(Pass(ledger, sw), id)
    ensures forall k | 0 <= k < |ledger| && ledger[k].runId == id && ledger[k].endedAt.None? ::
              Pass(ledger, sw)[k] == Closed(ledger[k], Latest(OrElse(sw.runs(id).endedAt, sw.now), ledger[k].startedAt),
                                            if sw.runs(id).status.IsQuarantined? then Quarantined else Concluded)
  {
    OpenAfterPass(ledger, sw, id);
  }

  /** So what one pass leaves open on a finished run, the next one closes, judged or not. */
  lemma TwoPassesLeaveNothingOpen(ledger: seq<Interval>, sw: Sweep, next: Sweep, id: RunId)
    requires IsListing(ledger, sw.listed) && IsListing(Pass(ledger, sw), next.listed)
    requires HasOpen(Pass(ledger, sw), id) && !Live(next.runs(id).status)
    ensures !HasOpen(Pass(Pass(ledger, sw), next), id)
  {
    FinishedRunIsClosedNext(Pass(ledger, sw), next, id);
  }

  /**
   * A run found alive and well: each interval open for it ends at the event that brought it back, not at the
   * sweep, and never before it began; without an event on record, at the sweep.
   */
  lemma RecoveredRunIsClosed(ledger: seq<Interval>, sw: Sweep, k: nat)
    requires IsListing(ledger, sw.listed) && k < |ledger| && ledger[k].endedAt.None?
    requires var id := ledger[k].runId; id in sw.judged && Live(sw.runs(id).status) && Observed(sw, id).None?
    ensures var (v, w) := (ledger[k], Pass(ledger, sw)[k]);
            && w == v.(endedAt := w.endedAt, endedBy := Some(Resumed)) && w.endedAt.Some?
            && match sw.runs(v.runId).lastEventAt
               case Some(event) =>
                 v.startedAt <= w.endedAt.value && event <= w.endedAt.value && w.endedAt.value in {event, v.startedAt}
               case None =>
                 v.startedAt <= w.endedAt.value && sw.now <= w.endedAt.value && w.endedAt.value in {sw.now, v.startedAt}
  {
    assert Pass(ledger, sw)[k] == Settle(ledger[k], sw);
  }

  /**
   * A live run observed again: an interval of the same kind that began no earlier than reported goes on untouched;
   * any other ends where the observation begins, and one of the observed kind begins there.
   */
  lemma ObservedRunGoesOn(ledger: seq<Interval>, sw: Sweep, k: nat)
    requires IsListing(ledger, sw.listed) && k < |ledger| && ledger[k].endedAt.None?
    requires Live(sw.runs(ledger[k].runId).status) && Observed(sw, ledger[k].runId).Some?
    ensures var (v, o, after) := (ledger[k], Observed(sw, ledger[k].runId).value, Pass(ledger, sw));
            if o.kind == v.kind && o.since <= v.startedAt
            then after[k] == v && (OneOpen(ledger) ==> forall j | |ledger| <= j < |after| :: after[j].runId != v.runId)
            else after[k] == v.(endedAt := Some(o.since), endedBy := Some(Resumed))
                 && exists j | |ledger| <= j < |after| :: after[j] == Interval(v.runId, o.kind, o.since, None, None)
  {
    var (v, o, after) := (ledger[k], Observed(sw, ledger[k].runId).value, Pass(ledger, sw));
    ObservedIsListed(sw.observations, v.runId);
    assert after[k] == Settle(v, sw);
    if o.kind == v.kind && o.since <= v.startedAt {
      assert Judge(v, sw).Keep?;
      forall j | |ledger| <= j < |after| && OneOpen(ledger) ensures after[j].runId != v.runId {
        NewRow(ledger, sw, j);
      }
    } else {
      ReopenedCovers(ledger, sw, sw.listed, k);
      var i :| 0 <= i < |Reopened(ledger, sw, sw.listed)| && Reopened(ledger, sw, sw.listed)[i] == Opened(o);
      assert after[|ledger| + i] == Opened(o);
    }
  }

  /** A run observed with nothing open gets an interval of the observed kind from the reported instant on. */
  lemma ObservedRunBegins(ledger: seq<Interval>, sw: Sweep, o: Observation)
    requires IsListing(ledger, sw.listed) && o in sw.observations && !HasOpen(ledger, o.runId)
    ensures exists j | |ledger| <= j < |Pass(ledger, sw)| :: Pass(ledger, sw)[j] == Interval(o.runId, o.kind, o.since, None, None)
  {
    BegunCovers(ledger, sw.observations, o);
    var b :| 0 <= b < |Begun(ledger, sw.observations)| && Begun(ledger, sw.observations)[b] == Opened(o);
    assert Pass(ledger, sw)[|ledger| + |Reopened(ledger, sw, sw.listed)| + b] == Opened(o);
  }

  /** A live run the sweep neither looked at nor observed keeps exactly the intervals it had. */
  lemma UnjudgedRunsUntouched(ledger: seq<Interval>, sw: Sweep, id: RunId)
    requires IsListing(ledger, sw.listed) && id !in sw.judged && Live(sw.runs(id).status) && Observed(sw, id).None?
    ensures forall k | 0 <= k < |ledger| && ledger[k].runId == id :: Pass(ledger, sw)[k] == ledger[k]
    ensures forall k | |ledger| <= k < |Pass(ledger, sw)| :: Pass(ledger, sw)[k].runId != id
  {
    ObservedIsListed(sw.observations, id);
    forall k | |ledger| <= k < |Pass(ledger, sw)| ensures Pass(ledger, sw)[k].runId != id {
      NewRow(ledger, sw, k);
    }
  }

  /** One open interval per run stays one open interval per run. */
  lemma OneOpenKept(ledger: seq<Interval>, sw: Sweep)
    requires IsListing(ledger, sw.listed) && OneOpen(ledger) && DistinctRuns(sw.observations)
    ensures OneOpen(Pass(ledger, sw))
  {
    var after := Pass(ledger, sw);
    forall i, j | 0 <= i < j < |after| && after[i].endedAt.None? && after[j].endedAt.None?
      ensures after[i].runId != after[j].runId
    {
      if i >= |ledger| {
        NewRowsApart(ledger, sw, i, j);
      } else {
        assert after[i] == Settle(ledger[i], sw);
        if j >= |ledger| {
          NewRow(ledger, sw, j);
        } else {
          assert after[j] == Settle(ledger[j], sw);
        }
      }
    }
  }

  ghost predicate SameSweep(a: Sweep, b: Sweep)
  {
    a.observations == b.observations && a.judged == b.judged && forall id :: a.runs(id) == b.runs(id)
  }

  /** After a pass that observed only live runs, the same sweep finds nothing to decide about any open row. */
  lemma OpenRowsAreKept(ledger: seq<Interval>, sw: Sweep, again: Sweep, k: nat)
    requires IsListing(ledger, sw.listed) && SameSweep(sw, again) && DistinctRuns(sw.observations)
    requires forall o | o in sw.observations :: Live(sw.runs(o.runId).status)
    requires k < |Pass(ledger, sw)| && Pass(ledger, sw)[k].endedAt.None?
    ensures Judge(Pass(ledger, sw)[k], again).Keep?
  {
    var v := Pass(ledger, sw)[k];
    if k >= |ledger| {
      NewRow(ledger, sw, k);
      if Begins(ledger, sw, v) {
        var o :| o in sw.observations && v == Opened(o);
        DistinctObserved(sw.observations, o);
      }
    } else {
      assert v == Settle(ledger[k], sw);
    }
  }

  lemma {:induction false} NothingReopened(ledger: seq<Interval>, sw: Sweep, listed: seq<nat>)
    requires forall i | 0 <= i < |listed| :: listed[i] < |ledger| && Judge(ledger[listed[i]], sw).Keep?
    ensures Reopened(ledger, sw, listed) == []
  {
    if listed != [] {
      NothingReopened(ledger, sw, listed[..|listed| - 1]);
    }
  }

  lemma {:induction false} NothingBegun(ledger: seq<Interval>, observations: seq<Observation>)
    requires forall o | o in observations :: HasOpen(ledger, o.runId)
    ensures Begun(ledger, observations) == []
  {
    if observations != [] {
      NothingBegun(ledger, observations[..|observations| - 1]);
    }
  }

  /** The pass is idempotent: the same sweep again, at any time and in any listing order, changes no row. */
  lemma SecondPassChangesNothing(ledger: seq<Interval>, sw: Sweep, again: Sweep)
    requires IsListing(ledger, sw.listed) && DistinctRuns(sw.observations)
    requires forall o | o in sw.observations :: Live(sw.runs(o.runId).status)
    requires SameSweep(sw, again) && IsListing(Pass(ledger, sw), again.listed)
    ensures Pass(Pass(ledger, sw), again) == Pass(ledger, sw)
  {
    var after := Pass(ledger, sw);
    forall k | 0 <= k < |after| && after[k].endedAt.None? ensures Judge(after[k], again).Keep? {
      OpenRowsAreKept(ledger, sw, again, k);
    }
    NothingReopened(after, again, again.listed);
    forall o | o in again.observations ensures HasOpen(after, o.runId) {
      DistinctObserved(sw.observations, o);
      OpenAfterPass(ledger, sw, o.runId);
    }
    NothingBegun(after, again.observations);
    assert Settled(after, again) == after;
  }

  // ---------------------------------------------------------------------------------------------
  // Many passes
  // ---------------------------------------------------------------------------------------------

  /**
   * Of two intervals of a run the later row starts at or after the earlier one's end, and none ends before it
   * starts. So a run's intervals are disjoint and in order, and at most one, its last, is open.
   */
  ghost predicate Tidy(ledger: seq<Interval>)
  {
    && (forall i, j | 0 <= i < j < |ledger| && ledger[i].runId == ledger[j].runId ::
          ledger[i].endedAt.Some? && ledger[i].endedAt.value <= ledger[j].startedAt)
    && (forall i | 0 <= i < |ledger| && ledger[i].endedAt.Some? :: ledger[i].startedAt <= ledger[i].endedAt.value)
  }

  /**
   * What a sweep must not do: report a new period as starting before the open one it replaces, or a first one
   * as starting before the run's last recorded end.
   */
  ghost predicate Timely(ledger: seq<Interval>, sw: Sweep)
  {
    forall k | 0 <= k < |ledger| && Observed(sw, ledger[k].runId).Some? :: TimelyFor(ledger, sw, k, Observed(sw, ledger[k].runId).value)
  }

  ghost predicate TimelyFor(ledger: seq<Interval>, sw: Sweep, k: nat, o: Observation)
    requires k < |ledger|
  {
    && (ledger[k].endedAt.None? && Judge(ledger[k], sw) == Replace(o) ==> ledger[k].startedAt <= o.since)
    && (ledger[k].endedAt.Some? && !HasOpen(ledger, ledger[k].runId) ==> ledger[k].endedAt.value <= o.since)
  }

  lemma TimelyKeepsTidy(ledger: seq<Interval>, sw: Sweep)
    requires IsListing(ledger, sw.listed) && DistinctRuns(sw.observations) && Tidy(ledger) && Timely(ledger, sw)
    ensures Tidy(Pass(ledger, sw))
  {
    var after := Pass(ledger, sw);
    forall i, j | 0 <= i < j < |after| && after[i].runId == after[j].runId
      ensures after[i].endedAt.Some? && after[i].endedAt.value <= after[j].startedAt
    {
      EarlierEndsFirst(ledger, sw, i, j);
    }
    forall i | 0 <= i < |after| && after[i].endedAt.Some? ensures after[i].startedAt <= after[i].endedAt.value {
      EndsAfterItBegan(ledger, sw, i);
    }
  }

  lemma EarlierEndsFirst(ledger: seq<Interval>, sw: Sweep, i: nat, j: nat)
    requires IsListing(ledger, sw.listed) && DistinctRuns(sw.observations) && Tidy(ledger) && Timely(ledger, sw)
    requires i < j < |Pass(ledger, sw)| && Pass(ledger, sw)[i].runId == Pass(ledger, sw)[j].runId
    ensures Pass(ledger, sw)[i].endedAt.Some? && Pass(ledger, sw)[i].endedAt.value <= Pass(ledger, sw)[j].startedAt
  {
    var after := Pass(ledger, sw);
    if j < |ledger| {
      assert after[i] == Settle(ledger[i], sw) && after[j] == Settle(ledger[j], sw);
    } else if i < |ledger| {
      assert after[i] == Settle(ledger[i], sw);
      OldBeforeNew(ledger, sw, i, j);
    } else {
      NewRowsApart(ledger, sw, i, j);
    }
  }

  lemma EndsAfterItBegan(ledger: seq<Interval>, sw: Sweep, i: nat)
    requires IsListing(ledger, sw.listed) && Tidy(ledger) && Timely(ledger, sw)
    requires i < |Pass(ledger, sw)| && Pass(ledger, sw)[i].endedAt.Some?
    ensures Pass(ledger, sw)[i].startedAt <= Pass(ledger, sw)[i].endedAt.value
  {
    if i < |ledger| {
      assert Pass(ledger, sw)[i] == Settle(ledger[i], sw);
      ObservedIsListed(sw.observations, ledger[i].runId);
      assert Observed(sw, ledger[i].runId).Some? ==> TimelyFor(ledger, sw, i, Observed(sw, ledger[i].runId).value);
    } else {
      NewRow(ledger, sw, i);
    }
  }

  lemma OldBeforeNew(ledger: seq<Interval>, sw: Sweep, i: nat, j: nat)
    requires IsListing(ledger, sw.listed) && DistinctRuns(sw.observations) && Tidy(ledger) && Timely(ledger, sw)
    requires i < |ledger| <= j < |Pass(ledger, sw)| && ledger[i].runId == Pass(ledger, sw)[j].runId
    ensures var v := Settle(ledger[i], sw); v.endedAt.Some? && v.endedAt.value <= Pass(ledger, sw)[j].startedAt
  {
    var v := Pass(ledger, sw)[j];
    NewRow(ledger, sw, j);
    if Begins(ledger, sw, v) {
      var o :| o in sw.observations && v == Opened(o);
      DistinctObserved(sw.observations, o);
      assert TimelyFor(ledger, sw, i, o);
    } else {
      var m :| Replaces(ledger, sw, v, m);
      assert TimelyFor(ledger, sw, m, Observed(sw, v.runId).value);
      if i != m {
        assert i < m;
        assert ledger[i].endedAt.Some?;
      }
    }
  }

  /** A tidy ledger stays tidy exactly when the sweep is timely. */
  lemma TidyExactlyWhenTimely(ledger: seq<Interval>, sw: Sweep)
    requires IsListing(ledger, sw.listed) && DistinctRuns(sw.observations) && Tidy(ledger)
    ensures Tidy(Pass(ledger, sw)) <==> Timely(ledger, sw)
  {
    if Timely(ledger, sw) {
      TimelyKeepsTidy(ledger, sw);
    }
    if Tidy(Pass(ledger, sw)) {
      forall k | 0 <= k < |ledger| && Observed(sw, ledger[k].runId).Some?
        ensures TimelyFor(ledger, sw, k, Observed(sw, ledger[k].runId).value)
      {
        UntimelyShows(ledger, sw, k);
      }
    }
  }

  lemma UntimelyShows(ledger: seq<Interval>, sw: Sweep, k: nat)
    requires IsListing(ledger, sw.listed) && Tidy(Pass(ledger, sw))
    requires k < |ledger| && Observed(sw, ledger[k].runId).Some?
    ensures TimelyFor(ledger, sw, k, Observed(sw, ledger[k].runId).value)
  {
    var after, o := Pass(ledger, sw), Observed(sw, ledger[k].runId).value;
    ObservedIsListed(sw.observations, ledger[k].runId);
    assert after[k] == Settle(ledger[k], sw);
    if ledger[k].endedAt.Some? && !HasOpen(ledger, ledger[k].runId) {
      BegunCovers(ledger, sw.observations, o);
      var b :| 0 <= b < |Begun(ledger, sw.observations)| && Begun(ledger, sw.observations)[b] == Opened(o);
      var j := |ledger| + |Reopened(ledger, sw, sw.listed)| + b;
      assert after[j] == Opened(o);
    }
  }

  /** The ledger after any number of passes, from an empty table. */
  ghost function LedgerAfter(sweeps: seq<Sweep>): seq<Interval>
  {
    if sweeps == [] then []
    else
      var before := LedgerAfter(sweeps[..|sweeps| - 1]);
      var sw := sweeps[|sweeps| - 1];
      if IsListing(before, sw.listed) then Pass(before, sw) else before
  }

  /** Each sweep observes a run once, and is timely for the ledger it finds. */
  ghost predicate AllTimely(sweeps: seq<Sweep>)
  {
    sweeps != [] ==>
      var n := |sweeps| - 1;
      AllTimely(sweeps[..n]) && DistinctRuns(sweeps[n].observations) && Timely(LedgerAfter(sweeps[..n]), sweeps[n])
  }

  lemma {:induction false} AlwaysTidy(sweeps: seq<Sweep>)
    requires AllTimely(sweeps)
    ensures Tidy(LedgerAfter(sweeps))
  {
    if sweeps != [] {
      var n := |sweeps| - 1;
      AlwaysTidy(sweeps[..n]);
      if IsListing(LedgerAfter(sweeps[..n]), sweeps[n].listed) {
        TimelyKeepsTidy(LedgerAfter(sweeps[..n]), sweeps[n]);
      }
    }
  }

  /** Whatever the sweeps report, a run has at most one open interval. */
  lemma {:induction false} AlwaysOneOpen(sweeps: seq<Sweep>)
    requires forall i | 0 <= i < |sweeps| :: DistinctRuns(sweeps[i].observations)
    ensures OneOpen(LedgerAfter(sweeps))
  {
    if sweeps != [] {
      var n := |sweeps| - 1;
      AlwaysOneOpen(sweeps[..n]);
      if IsListing(LedgerAfter(sweeps[..n]), sweeps[n].listed) {
        OneOpenKept(LedgerAfter(sweeps[..n]), sweeps[n]);
      }
    }
  }

  // ---------------------------------------------------------------------------------------------
  // Overlapping passes
  // ---------------------------------------------------------------------------------------------

  /** A write of some pass; several passes' writes may interleave. */
  datatype Write = CloseWrite(k: nat, at: int, cause: EndedBy) | OpenWrite(o: Observation)

  function Exec(ledger: seq<Interval>, w: Write): seq<Interval>
  {
    match w
    case CloseWrite(k, at, cause) =>
      if k < |ledger| && ledger[k].endedAt.None? then ledger[k := Closed(ledger[k], at, cause)] else ledger
    case OpenWrite(o) => ledger + [Opened(o)]
  }

  function ExecAll(ledger: seq<Interval>, writes: seq<Write>): seq<Interval>
  {
    if writes == [] then ledger else Exec(ExecAll(ledger, writes[..|writes| - 1]), writes[|writes| - 1])
  }

  /** However passes overlap, the first close of an interval is never moved, and no start ever is. */
  lemma {:induction false} FirstCloseStands(ledger: seq<Interval>, writes: seq<Write>)
    ensures var after := ExecAll(ledger, writes);
            && |ledger| <= |after|
            && forall k | 0 <= k < |ledger| ::
                 && after[k].runId == ledger[k].runId && after[k].kind == ledger[k].kind && after[k].startedAt == ledger[k].startedAt
                 && (ledger[k].endedAt.Some? ==> after[k] == ledger[k])
  {
    if writes != [] {
      FirstCloseStands(ledger, writes[..|writes| - 1]);
    }
  }

  // ---------------------------------------------------------------------------------------------
  // Inputs that show the conditions are needed
  // ---------------------------------------------------------------------------------------------

  /** A run observed as stalled that has meanwhile succeeded is given an open interval, until the next pass. */
  lemma FinishedRunIsOpened()
    ensures var sw := Sweep([Observation(0, Stalled, 5)], {0}, 9, (id: RunId) => RunRow(IsSucceeded, Some(6), Some(7)), []);
            IsListing([], sw.listed) && HasOpen(Pass([], sw), 0) && !Live(sw.runs(0).status)
  {
    var sw := Sweep([Observation(0, Stalled, 5)], {0}, 9, (id: RunId) => RunRow(IsSucceeded, Some(6), Some(7)), []);
    assert !HasOpen([], 0);
    assert Observed(sw, 0) == Some(Observation(0, Stalled, 5));
    OpenAfterPass([], sw, 0);
  }

  /** A change of kind reported as starting before the open interval ends that interval before it began. */
  lemma ChangedKindEndsEarly()
    ensures var ledger := [Interval(0, Stalled, 10, None, None)];
            var sw := Sweep([Observation(0, Parked, 5)], {0}, 20, (id: RunId) => RunRow(IsBlocked, Some(5), None), [0]);
            IsListing(ledger, sw.listed) && Pass(ledger, sw)[0] == Interval(0, Stalled, 10, Some(5), Some(Resumed))
  {
    var ledger := [Interval(0, Stalled, 10, None, None)];
    var sw := Sweep([Observation(0, Parked, 5)], {0}, 20, (id: RunId) => RunRow(IsBlocked, Some(5), None), [0]);
    assert Observed(sw, 0) == Some(Observation(0, Parked, 5));
    assert IsListing(ledger, sw.listed);
    assert Judge(ledger[0], sw) == Replace(Observation(0, Parked, 5));
    assert Pass(ledger, sw)[0] == Settle(ledger[0], sw);
  }
}
