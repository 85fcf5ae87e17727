/**
 * What the counters of the sweeps and of the backfill passes say, over every run of the approval machine: each
 * row the clock settled was counted once, on its side, and each link was counted by where its escalation came from.
 */
module ApprovalTallies {
  import opened Base
  import opened TimeoutPolicy
  import opened Markers
  import opened Approvals
  import opened ApprovalSafety
  import opened ApprovalBacklog

  // ---------------------------------------------------------------------------------------------
  // Sweeps
  // ---------------------------------------------------------------------------------------------

  /** A counter of the clock's resolutions. */
  function ClockCount(proc: Proc, approve: bool): nat
  {
    if proc.Sweeping? then (if approve then proc.sweep.autoApproved else proc.sweep.autoDenied) else 0
  }

  /** What a sweep's write adds to that counter. */
  function ClockGain(s: State, step: Step, approve: bool): int
  {
    if step.SweepWrite? then ClockCount(ProcOf(Apply(s, step), step.p), approve) - ClockCount(ProcOf(s, step.p), approve) else 0
  }

  /** What all sweeps together have counted. */
  function ClockTotal(steps: seq<Step>, approve: bool): int
  {
    if steps == [] then 0
    else
      var n := |steps| - 1;
      ClockTotal(steps[..n], approve) + ClockGain(Reach(steps[..n]), steps[n], approve)
  }

  predicate SettledByClock(r: Row, approve: bool)
  {
    if approve then r.status.AutoApproved? else r.status.AutoDenied?
  }

  ghost function ClockSettled(rows: seq<Row>, approve: bool): set<RowId>
  {
    set i: RowId | i < |rows| && SettledByClock(rows[i], approve)
  }

  /** What the clock has settled stays so, and nothing else is so. */
  ghost predicate ClockIdle(s: State, s': State)
  {
    && |s.rows| <= |s'.rows|
    && (forall i, approve | 0 <= i < |s.rows| :: SettledByClock(s'.rows[i], approve) == SettledByClock(s.rows[i], approve))
    && (forall i, approve | |s.rows| <= i < |s'.rows| :: !SettledByClock(s'.rows[i], approve))
  }

  lemma GateLeavesClock(s: State, step: Step)
    ensures ClockIdle(s, GateStep(s, step))
  {
  }

  lemma DecisionsLeaveClock(s: State, step: Step)
    ensures ClockIdle(s, DecideStep(s, step))
  {
  }

  lemma BackfillsLeaveClock(s: State, step: Step)
    ensures ClockIdle(s, BackfillStep(s, step))
  {
  }

  lemma OthersLeaveClock(s: State, step: Step)
    requires !step.SweepWrite?
    ensures ClockIdle(s, Apply(s, step))
  {
    GateLeavesClock(s, step);
    DecisionsLeaveClock(s, step);
    BackfillsLeaveClock(s, step);
  }

  lemma IdleClockSettlesNothing(s: State, s': State, approve: bool)
    requires ClockIdle(s, s')
    ensures ClockSettled(s'.rows, approve) == ClockSettled(s.rows, approve)
  {
  }

  /** The sweep's write changes the row at the head of its batch, and only if it is still pending. */
  lemma WriteByClock(s: State, p: Pid)
    requires Good(s) && ProcOf(s, p).Sweeping? && ProcOf(s, p).due != []
    ensures var (w, s') := (ProcOf(s, p), Apply(s, SweepWrite(p)));
            var (id, approve) := (w.due[0].id, w.due[0].policy.AutoApprove?);
            && id < |s.rows| && ProcOf(s', p).Sweeping?
            && if s.rows[id].status.Pending? then
                 && s'.rows == s.rows[id := Resolve(s.rows[id], ClockWrite(approve, w.now))]
                 && forall side :: ClockCount(ProcOf(s', p), side) == ClockCount(w, side) + if side == approve then 1 else 0
               else s'.rows == s.rows && forall side :: ClockCount(ProcOf(s', p), side) == ClockCount(w, side)
  {
    assert ProcGood(s, ProcOf(s, p));
    assert DueGood(s, ProcOf(s, p).now, ProcOf(s, p).due[0]);
  }

  lemma ResolvedByClock(r: Row, w: Write, approve: bool)
    requires w.ClockWrite?
    ensures SettledByClock(Resolve(r, w), approve) <==> w.approve == approve
  {
  }

  lemma SettledUpdate(rows: seq<Row>, id: RowId, r: Row, approve: bool)
    requires id < |rows| && !SettledByClock(rows[id], approve)
    ensures |ClockSettled(rows[id := r], approve)| == |ClockSettled(rows, approve)| + if SettledByClock(r, approve) then 1 else 0
  {
    if SettledByClock(r, approve) {
      assert ClockSettled(rows[id := r], approve) == ClockSettled(rows, approve) + {id};
    } else {
      assert ClockSettled(rows[id := r], approve) == ClockSettled(rows, approve);
    }
  }

  lemma OneMoreByClock(rows: seq<Row>, id: RowId, w: Write, approve: bool)
    requires id < |rows| && rows[id].status.Pending? && w.ClockWrite?
    ensures |ClockSettled(rows[id := Resolve(rows[id], w)], approve)| == |ClockSettled(rows, approve)| + if w.approve == approve then 1 else 0
  {
    ResolvedByClock(rows[id], w, approve);
    SettledUpdate(rows, id, Resolve(rows[id], w), approve);
  }

  lemma StepCountsByClock(s: State, step: Step, approve: bool)
    requires Good(s)
    ensures |ClockSettled(Apply(s, step).rows, approve)| == |ClockSettled(s.rows, approve)| + ClockGain(s, step, approve)
  {
    if !step.SweepWrite? {
      OthersLeaveClock(s, step);
      IdleClockSettlesNothing(s, Apply(s, step), approve);
    } else if ProcOf(s, step.p).Sweeping? && ProcOf(s, step.p).due != [] {
      var w := ProcOf(s, step.p);
      WriteByClock(s, step.p);
      if s.rows[w.due[0].id].status.Pending? {
        OneMoreByClock(s.rows, w.due[0].id, ClockWrite(w.due[0].policy.AutoApprove?, w.now), approve);
      }
    } else {
      assert Apply(s, step) == s;
    }
  }

  /**
   * In every reachable state, the rows that silence approved number exactly what all sweeps together have counted
   * as approved, and likewise those it denied: none is counted twice, on the wrong side, or not at all.
   */
  lemma {:induction false} SweepsCountWhatTheySettle(steps: seq<Step>, approve: bool)
    ensures |ClockSettled(Reach(steps).rows, approve)| == ClockTotal(steps, approve)
  {
    if steps == [] {
      assert ClockSettled(INITIAL.rows, approve) == {};
    } else {
      var n := |steps| - 1;
      SweepsCountWhatTheySettle(steps[..n], approve);
      AlwaysGood(steps[..n]);
      StepCountsByClock(Reach(steps[..n]), steps[n], approve);
    }
  }

  // ---------------------------------------------------------------------------------------------
  // Backfill passes
  // ---------------------------------------------------------------------------------------------

  /** The unescalated parked rows of the window that are older than this one. */
  ghost function Older(rows: seq<Row>, now: int, k: RowId): set<RowId>
    requires k < |rows|
  {
    set j | 0 <= j < |rows| && IsStale(rows[j], now) && rows[j].createdAt < rows[k].createdAt
  }

  /** A row whose age no other shares is left to a later pass exactly when a full batch of older ones waits. */
  lemma LeftToLaterPassExactly(rows: seq<Row>, now: int, stale: seq<RowId>, k: RowId)
    requires IsStaleBatch(rows, now, stale) && k < |rows| && IsStale(rows[k], now)
    requires forall j | 0 <= j < |rows| && j != k && IsStale(rows[j], now) :: rows[j].createdAt != rows[k].createdAt
    ensures k !in stale <==> |Older(rows, now, k)| >= BACKFILL_BATCH_LIMIT
  {
    var older, taken := Older(rows, now, k), IdsOf(stale);
    DistinctIdsCount(stale);
    if k !in stale {
      forall id | id in taken ensures id in older {
        var i :| 0 <= i < |stale| && stale[i] == id;
        assert rows[stale[i]].createdAt <= rows[k].createdAt;
      }
      SubsetBound(taken, older);
    } else {
      var i :| 0 <= i < |stale| && stale[i] == k;
      forall j | 0 <= j < |rows| && IsStale(rows[j], now) && j !in stale ensures rows[k].createdAt <= rows[j].createdAt {
        assert rows[stale[i]].createdAt <= rows[j].createdAt;
      }
      assert older <= taken - {k};
      SubsetBound(older, taken - {k});
    }
  }

  /** The states that some steps pass through, the first and the last included. */
  ghost predicate IsHistory(states: seq<State>, steps: seq<Step>)
  {
    && |states| == |steps| + 1 && states[0] == INITIAL
    && forall i | 0 <= i < |steps| :: Follows(states, steps, i)
  }

  ghost predicate Follows(states: seq<State>, steps: seq<Step>, i: nat)
    requires i < |steps| && |states| == |steps| + 1
  {
    states[i + 1] == Apply(states[i], steps[i])
  }

  /** Every run of the machine has its history, which ends in the state the run reaches. */
  lemma {:induction false} HistoryOf(steps: seq<Step>) returns (states: seq<State>)
    ensures IsHistory(states, steps) && states[|steps|] == Reach(steps)
  {
    states := [INITIAL];
    if steps != [] {
      var n := |steps| - 1;
      var before := HistoryOf(steps[..n]);
      states := before + [Reach(steps)];
      forall i | 0 <= i < |steps| ensures Follows(states, steps, i) {
        assert i < n ==> Follows(before, steps[..n], i);
      }
    }
  }

  /** Which step gave the pass of `p` this escalation for this row: its own raise, or its own search. */
  ghost predicate Sourced(s: State, step: Step, p: Pid, id: RowId, esc: EscId)
  {
    && id < |s.rows|
    && ((step.BackfillRaise? && step.p == p && step.ok && esc == |s.escs|)
        || (step == BackfillFind(p, true) && FindEscalation(s.escs, s.rows[id].uuid) == Some(esc)))
  }

  /** Only its own steps move a pass, and only its raise or its search brings it to a link. */
  lemma PassMoves(s: State, step: Step, p: Pid)
    requires Good(s)
    ensures var proc := ProcOf(Apply(s, step), p);
            proc.Backfilling? && proc.stage.ToLink? && proc != ProcOf(s, p) ==>
              && proc.stale != [] && Sourced(s, step, p, proc.stale[0], proc.stage.esc)
              && (proc.stage.raisedHere <==> step.BackfillRaise?)
  {
    assert ProcGood(s, ProcOf(s, p));
    if IsGateStep(step) {
      GateLeavesPasses(s, step, p);
    } else if IsDecideStep(step) {
      DecisionsLeavePasses(s, step, p);
    }
  }

  lemma GateLeavesPasses(s: State, step: Step, p: Pid)
    ensures ProcOf(GateStep(s, step), p).Backfilling? ==> ProcOf(GateStep(s, step), p) == ProcOf(s, p)
  {
  }

  lemma DecisionsLeavePasses(s: State, step: Step, p: Pid)
    ensures ProcOf(DecideStep(s, step), p).Backfilling? ==> ProcOf(DecideStep(s, step), p) == ProcOf(s, p)
  {
  }

  lemma PassMovesAt(states: seq<State>, steps: seq<Step>, n: nat, p: Pid)
    requires IsHistory(states, steps) && n < |steps| && Good(states[n])
    ensures var proc := ProcOf(states[n + 1], p);
            proc.Backfilling? && proc.stage.ToLink? && proc != ProcOf(states[n], p) ==>
              && proc.stale != [] && Sourced(states[n], steps[n], p, proc.stale[0], proc.stage.esc)
              && (proc.stage.raisedHere <==> steps[n].BackfillRaise?)
  {
    assert Follows(states, steps, n);
    PassMoves(states[n], steps[n], p);
  }

  lemma {:induction false} GoodThroughout(states: seq<State>, steps: seq<Step>, n: nat)
    requires IsHistory(states, steps) && n <= |steps|
    ensures Good(states[n])
    decreases n
  {
    if n > 0 {
      GoodThroughout(states, steps, n - 1);
      assert Follows(states, steps, n - 1);
      StepKeepsGood(states[n - 1], steps[n - 1]);
    }
  }

  lemma {:induction false} SourceOf(states: seq<State>, steps: seq<Step>, n: nat, p: Pid) returns (k: nat)
    requires IsHistory(states, steps) && n <= |steps| && ProcOf(states[n], p).Backfilling? && ProcOf(states[n], p).stage.ToLink?
    ensures var proc := ProcOf(states[n], p);
            && k < n && proc.stale != [] && Sourced(states[k], steps[k], p, proc.stale[0], proc.stage.esc)
            && (proc.stage.raisedHere <==> steps[k].BackfillRaise?)
            && forall i | k < i <= n :: ProcOf(states[i], p) == proc
    decreases n
  {
    GoodThroughout(states, steps, n - 1);
    PassMovesAt(states, steps, n - 1, p);
    if ProcOf(states[n - 1], p) == ProcOf(states[n], p) {
      k := SourceOf(states, steps, n - 1, p);
    } else {
      k := n - 1;
    }
  }

  /** What a link adds to its pass's counters, and to the row. */
  lemma LinkCounts(s: State, p: Pid, ok: bool)
    requires Good(s) && ProcOf(s, p).Backfilling? && ProcOf(s, p).stage.ToLink? && ProcOf(s, p).stale != []
    ensures var (w, s') := (ProcOf(s, p), Apply(s, BackfillLink(p, ok)));
            var (id, t) := (w.stale[0], w.backfill);
            && ProcOf(s', p).Backfilling? && |s'.rows| == |s.rows| && id < |s.rows|
            && (ok && Linkable(s, id) ==> s'.rows[id].escalation == Some(w.stage.esc))
            && ProcOf(s', p).backfill == if !ok then t.(failed := t.failed + 1)
                                         else if !Linkable(s, id) then t.(raced := t.raced + 1)
                                         else if w.stage.raisedHere then t.(raised := t.raised + 1)
                                         else t.(linked := t.linked + 1)
  {
    assert ProcGood(s, ProcOf(s, p));
  }

  /**
   * Every link of every pass is counted by what happened. A failed write counts as failed, and a row no longer
   * open for it as raced; otherwise the row now points at an escalation, and the link counts as raised if the
   * pass itself had raised that one for the row, and as linked if the pass had found it by the row's marker.
   */
  lemma LinksAreCountedBySource(steps: seq<Step>, n: nat, p: Pid, ok: bool) returns (states: seq<State>, k: nat)
    requires n < |steps| && steps[n] == BackfillLink(p, ok)
    requires ProcOf(Reach(steps[..n]), p).Backfilling? && ProcOf(Reach(steps[..n]), p).stage.ToLink?
    ensures IsHistory(states, steps) && states[n] == Reach(steps[..n])
    ensures var (w, w') := (ProcOf(states[n], p), ProcOf(states[n + 1], p));
            && k < n && w.stale != [] && w'.Backfilling? && w.stale[0] < |states[n + 1].rows|
            && Sourced(states[k], steps[k], p, w.stale[0], w.stage.esc)
            && (ok && Linkable(states[n], w.stale[0]) ==> states[n + 1].rows[w.stale[0]].escalation == Some(w.stage.esc))
            && w'.backfill == (var t := w.backfill;
                               if !ok then t.(failed := t.failed + 1)
                               else if !Linkable(states[n], w.stale[0]) then t.(raced := t.raced + 1)
                               else if steps[k].BackfillRaise? then t.(raised := t.raised + 1)
                               else t.(linked := t.linked + 1))
  {
    states := HistoryOf(steps);
    ReachedAt(states, steps, n);
    k := SourceOf(states, steps, n, p);
    GoodThroughout(states, steps, n);
    LinkCounts(states[n], p, ok);
    assert Follows(states, steps, n);
  }

  lemma {:induction false} ReachedAt(states: seq<State>, steps: seq<Step>, n: nat)
    requires IsHistory(states, steps) && n <= |steps|
    ensures states[n] == Reach(steps[..n])
    decreases n
  {
    if n > 0 {
      ReachedAt(states, steps, n - 1);
      assert Follows(states, steps, n - 1);
      assert steps[..n][..n - 1] == steps[..n - 1];
    }
  }
}
