/** A backlog of lapsed approvals drains by a full batch with every completed sweep (`sweepTimeouts`). */
module ApprovalBacklog {
  import opened Base
  import opened TimeoutPolicy
  import opened Markers
  import opened Approvals
  import opened ApprovalSafety

  /** The rows still unresolved whose deadline is at or before `t`. */
  ghost function Behind(rows: seq<Row>, t: int): set<RowId>
  {
    set i | 0 <= i < |rows| && IsDue(rows[i], t)
  }

  /** A raise whose clock makes the new row due by `t` already. */
  predicate Backdates(step: Step, t: int)
  {
    step.Raise? && step.request.now + TIMEOUT_WINDOW <= t
  }

  /**
   * One sweep from its query to its end, with whatever else happens before the query and around the writes:
   * raises, decisions, supersessions, backfills, and other sweeps.
   */
  datatype Round = Round(before: seq<Step>, p: Pid, now: int, due: seq<RowId>, rest: seq<Step>)

  ghost function AfterQuery(s: State, r: Round): State
  {
    Apply(After(s, r.before), SweepRead(r.p, r.now, r.due))
  }

  ghost function AfterRound(s: State, r: Round): State
  {
    After(AfterQuery(s, r), r.rest)
  }

  /** How many of the steps are such raises. */
  function Backdated(steps: seq<Step>, t: int): nat
  {
    if steps == [] then 0 else Backdated(steps[..|steps| - 1], t) + if Backdates(steps[|steps| - 1], t) then 1 else 0
  }

  function BackdatedIn(rounds: seq<Round>, t: int): nat
  {
    if rounds == [] then 0
    else Backdated(rounds[0].before, t) + Backdated(rounds[0].rest, t) + BackdatedIn(rounds[1..], t)
  }

  /** The sweep's query runs at or after `t`, and its process has finished by the end of the round. */
  ghost predicate Completed(s: State, r: Round, t: int)
  {
    && ProcOf(After(s, r.before), r.p).Idle? && IsDueBatch(After(s, r.before).rows, r.now, r.due) && r.now >= t
    && ProcOf(AfterRound(s, r), r.p).Idle?
  }

  ghost function AfterRounds(s: State, rounds: seq<Round>): State
    decreases |rounds|
  {
    if rounds == [] then s else AfterRounds(AfterRound(s, rounds[0]), rounds[1..])
  }

  ghost predicate AllCompleted(s: State, rounds: seq<Round>, t: int)
    decreases |rounds|
  {
    rounds != [] ==> Completed(s, rounds[0], t) && AllCompleted(AfterRound(s, rounds[0]), rounds[1..], t)
  }

  // ---------------------------------------------------------------------------------------------
  // Nothing falls behind again, but for backdated raises
  // ---------------------------------------------------------------------------------------------

  /** No row becomes due by `t`, and a new row is only if its raise was backdated. */
  ghost predicate NoneFallsBehind(s: State, s': State, backdated: bool, t: int)
  {
    && |s.rows| <= |s'.rows|
    && (forall i | 0 <= i < |s.rows| :: IsDue(s'.rows[i], t) ==> IsDue(s.rows[i], t))
    && (forall i | |s.rows| <= i < |s'.rows| :: IsDue(s'.rows[i], t) ==> backdated && i == |s.rows|)
  }

  lemma GateLetsNoneFall(s: State, step: Step, t: int)
    ensures NoneFallsBehind(s, GateStep(s, step), Backdates(step, t), t)
  {
  }

  lemma OthersLetNoneFall(s: State, step: Step, t: int)
    ensures NoneFallsBehind(s, DecideStep(s, step), false, t)
    ensures NoneFallsBehind(s, SweepStep(s, step), false, t)
    ensures NoneFallsBehind(s, BackfillStep(s, step), false, t)
  {
  }

  lemma StepLetsNoneFall(s: State, step: Step, t: int)
    ensures NoneFallsBehind(s, Apply(s, step), Backdates(step, t), t)
  {
    GateLetsNoneFall(s, step, t);
    OthersLetNoneFall(s, step, t);
  }

  /** Outside any set of rows, the backlog grows by no more than the backdated raises. */
  lemma {:induction false} BehindMeanwhile(s: State, steps: seq<Step>, t: int, taken: set<RowId>)
    ensures |Behind(After(s, steps).rows, t) - taken| <= |Behind(s.rows, t) - taken| + Backdated(steps, t)
  {
    if steps != [] {
      var n := |steps| - 1;
      var before, after := After(s, steps[..n]), After(s, steps);
      BehindMeanwhile(s, steps[..n], t, taken);
      StepLetsNoneFall(before, steps[n], t);
      var grown := if Backdates(steps[n], t) then {|before.rows|} else {};
      assert Behind(after.rows, t) - taken <= (Behind(before.rows, t) - taken) + grown;
      SubsetBound(Behind(after.rows, t) - taken, (Behind(before.rows, t) - taken) + grown);
      UnionBound(Behind(before.rows, t) - taken, grown);
    }
  }

  lemma UnionBound(a: set<RowId>, b: set<RowId>)
    ensures |a + b| <= |a| + |b|
  {
    assert a + b == a + (b - a);
    SubsetBound(b - a, b);
  }

  lemma {:induction false} GoodMeanwhile(s: State, steps: seq<Step>)
    requires Good(s)
    ensures Good(After(s, steps))
  {
    if steps != [] {
      GoodMeanwhile(s, steps[..|steps| - 1]);
      StepKeepsGood(After(s, steps[..|steps| - 1]), steps[|steps| - 1]);
    }
  }

  // ---------------------------------------------------------------------------------------------
  // A sweep settles its whole batch
  // ---------------------------------------------------------------------------------------------

  predicate Settled(s: State, id: RowId)
  {
    id < |s.rows| && !s.rows[id].status.Pending?
  }

  /** Row `id` is settled, or still ahead of the sweep that process `p` is running. */
  predicate OnItsWay(s: State, p: Pid, id: RowId)
  {
    Settled(s, id) || (id < |s.rows| && ProcOf(s, p).Sweeping? && exists i | 0 <= i < |ProcOf(s, p).due| :: ProcOf(s, p).due[i].id == id)
  }

  lemma SettledStays(s: State, step: Step, id: RowId)
    requires Settled(s, id)
    ensures Settled(Apply(s, step), id)
  {
    GateStaysSettled(s, step, id);
    OthersStaySettled(s, step, id);
  }

  lemma GateStaysSettled(s: State, step: Step, id: RowId)
    requires Settled(s, id)
    ensures Settled(GateStep(s, step), id)
  {
  }

  lemma OthersStaySettled(s: State, step: Step, id: RowId)
    requires Settled(s, id)
    ensures Settled(DecideStep(s, step), id) && Settled(SweepStep(s, step), id) && Settled(BackfillStep(s, step), id)
  {
  }

  lemma OthersLeaveSweepAlone(s: State, step: Step, p: Pid)
    requires ProcOf(s, p).Sweeping? && step != SweepWrite(p) && step != SweepEnd(p)
    ensures ProcOf(Apply(s, step), p) == ProcOf(s, p) && |s.rows| <= |Apply(s, step).rows|
  {
  }

  lemma WriteSettlesFirst(s: State, p: Pid)
    requires Good(s) && ProcOf(s, p).Sweeping? && ProcOf(s, p).due != []
    ensures var s' := Apply(s, SweepWrite(p));
            Settled(s', ProcOf(s, p).due[0].id)
            && ProcOf(s', p).Sweeping? && ProcOf(s', p).due == ProcOf(s, p).due[1..] && |s'.rows| == |s.rows|
  {
    assert ProcGood(s, ProcOf(s, p));
    assert DueGood(s, ProcOf(s, p).now, ProcOf(s, p).due[0]);
  }

  lemma StaysOnItsWay(s: State, step: Step, p: Pid, id: RowId)
    requires Good(s) && OnItsWay(s, p, id)
    ensures OnItsWay(Apply(s, step), p, id)
  {
    if Settled(s, id) {
      SettledStays(s, step, id);
    } else {
      var proc := ProcOf(s, p);
      var i :| 0 <= i < |proc.due| && proc.due[i].id == id;
      if step == SweepWrite(p) {
        WriteSettlesFirst(s, p);
        if i > 0 {
          assert proc.due[1..][i - 1].id == id;
        }
      } else if step == SweepEnd(p) {
        assert Apply(s, step) == s;
      } else {
        OthersLeaveSweepAlone(s, step, p);
      }
    }
  }

  lemma {:induction false} StaysOnItsWayMeanwhile(s: State, steps: seq<Step>, p: Pid, id: RowId)
    requires Good(s) && OnItsWay(s, p, id)
    ensures OnItsWay(After(s, steps), p, id)
  {
    if steps != [] {
      var n := |steps| - 1;
      StaysOnItsWayMeanwhile(s, steps[..n], p, id);
      GoodMeanwhile(s, steps[..n]);
      StaysOnItsWay(After(s, steps[..n]), steps[n], p, id);
    }
  }

  lemma RoundSettlesBatch(s: State, r: Round, t: int, i: nat)
    requires Good(s) && Completed(s, r, t) && i < |r.due|
    ensures Settled(AfterRound(s, r), r.due[i])
  {
    var start, read := After(s, r.before), AfterQuery(s, r);
    GoodMeanwhile(s, r.before);
    StepKeepsGood(start, SweepRead(r.p, r.now, r.due));
    assert ProcOf(read, r.p).due[i].id == r.due[i];
    assert OnItsWay(read, r.p, r.due[i]);
    StaysOnItsWayMeanwhile(read, r.rest, r.p, r.due[i]);
  }

  // ---------------------------------------------------------------------------------------------
  // The backlog
  // ---------------------------------------------------------------------------------------------

  function IdsOf(ids: seq<RowId>): (taken: set<RowId>)
    ensures forall id :: id in taken <==> id in ids
  {
    set i | 0 <= i < |ids| :: ids[i]
  }

  lemma {:induction false} DistinctIdsCount(ids: seq<RowId>)
    requires forall i, j | 0 <= i < j < |ids| :: ids[i] != ids[j]
    ensures |IdsOf(ids)| == |ids|
  {
    if ids != [] {
      var n := |ids| - 1;
      DistinctIdsCount(ids[..n]);
      assert IdsOf(ids) == IdsOf(ids[..n]) + {ids[n]};
    }
  }

  /** The query takes everything behind, or a full batch of nothing else: what it skips was due no earlier. */
  lemma BatchCoversBacklog(rows: seq<Row>, now: int, due: seq<RowId>, t: int)
    requires IsDueBatch(rows, now, due) && now >= t
    ensures Behind(rows, t) <= IdsOf(due) || (|due| == SWEEP_BATCH_LIMIT && IdsOf(due) <= Behind(rows, t))
  {
    if !(Behind(rows, t) <= IdsOf(due)) {
      var k :| k in Behind(rows, t) && k !in IdsOf(due);
      assert IsDue(rows[k], now) && k !in due;
      forall id | id in IdsOf(due) ensures id in Behind(rows, t) {
        var i :| 0 <= i < |due| && due[i] == id;
        assert rows[due[i]].timeoutAt.value <= rows[k].timeoutAt.value;
      }
    }
  }

  /** The due rows whose deadline is before this row's. */
  ghost function Ahead(rows: seq<Row>, now: int, k: RowId): set<RowId>
    requires k < |rows| && IsDue(rows[k], now)
  {
    set j | 0 <= j < |rows| && IsDue(rows[j], now) && rows[j].timeoutAt.value < rows[k].timeoutAt.value
  }

  /** A due row whose deadline no other shares is left out of a sweep exactly when a full batch is ahead of it. */
  lemma LeftOutExactly(rows: seq<Row>, now: int, due: seq<RowId>, k: RowId)
    requires IsDueBatch(rows, now, due) && k < |rows| && IsDue(rows[k], now)
    requires forall j | 0 <= j < |rows| && j != k && IsDue(rows[j], now) :: rows[j].timeoutAt != rows[k].timeoutAt
    ensures k !in due <==> |Ahead(rows, now, k)| >= SWEEP_BATCH_LIMIT
  {
    var ahead, taken := Ahead(rows, now, k), IdsOf(due);
    DistinctIdsCount(due);
    if k !in due {
      forall id | id in taken ensures id in ahead {
        var i :| 0 <= i < |due| && due[i] == id;
        assert rows[due[i]].timeoutAt.value <= rows[k].timeoutAt.value;
      }
      SubsetBound(taken, ahead);
    } else {
      var i :| 0 <= i < |due| && due[i] == k;
      forall j | 0 <= j < |rows| && IsDue(rows[j], now) && j !in due ensures rows[k].timeoutAt.value <= rows[j].timeoutAt.value {
        assert rows[due[i]].timeoutAt.value <= rows[j].timeoutAt.value;
      }
      assert ahead <= taken - {k};
      SubsetBound(ahead, taken - {k});
    }
  }

  lemma SubsetBound(small: set<RowId>, big: set<RowId>)
    requires small <= big
    ensures |small| <= |big|
  {
    assert big == small + (big - small);
    assert |big| == |small| + |big - small|;
  }

  lemma {:induction false} SettledMeanwhile(s: State, steps: seq<Step>, id: RowId)
    requires Settled(s, id)
    ensures Settled(After(s, steps), id)
  {
    if steps != [] {
      SettledMeanwhile(s, steps[..|steps| - 1], id);
      SettledStays(After(s, steps[..|steps| - 1]), steps[|steps| - 1], id);
    }
  }

  ghost predicate AllSettled(s: State, ids: set<RowId>)
  {
    forall id | id in ids :: Settled(s, id)
  }

  /** What was behind before some steps is afterwards settled, or behind still. */
  lemma BehindOrSettled(s: State, s': State, t: int)
    requires Evolves(s, s')
    ensures forall id | id in Behind(s.rows, t) :: Settled(s', id) || id in Behind(s'.rows, t)
  {
    forall id | id in Behind(s.rows, t) ensures Settled(s', id) || id in Behind(s'.rows, t) {
      assert RowEvolves(s.rows[id], s'.rows[id]);
    }
  }

  lemma RoundEvolves(s: State, r: Round)
    ensures Evolves(s, After(s, r.before)) && Evolves(After(s, r.before), AfterRound(s, r)) && Evolves(s, AfterRound(s, r))
  {
    ResolutionIsForever(s, r.before);
    StepEvolves(After(s, r.before), SweepRead(r.p, r.now, r.due));
    ResolutionIsForever(AfterQuery(s, r), r.rest);
    EvolvesTwice(After(s, r.before), AfterQuery(s, r), AfterRound(s, r));
    EvolvesTwice(s, After(s, r.before), AfterRound(s, r));
  }

  /**
   * One completed sweep at or after `t` settles everything that was behind, or leaves a full batch fewer
   * behind than before, not counting what raises with a backdated clock have put there since.
   */
  lemma RoundDrains(s: State, r: Round, t: int)
    requires Good(s) && Completed(s, r, t)
    ensures Good(AfterRound(s, r))
    ensures AllSettled(AfterRound(s, r), Behind(s.rows, t))
            || |Behind(AfterRound(s, r).rows, t)| + SWEEP_BATCH_LIMIT
               <= |Behind(s.rows, t)| + Backdated(r.before, t) + Backdated(r.rest, t)
  {
    var start, read, taken := After(s, r.before), AfterQuery(s, r), IdsOf(r.due);
    GoodMeanwhile(s, r.before);
    StepKeepsGood(start, SweepRead(r.p, r.now, r.due));
    GoodMeanwhile(read, r.rest);
    TakenAreSettled(s, r, t);
    BatchCoversBacklog(start.rows, r.now, r.due, t);
    if Behind(start.rows, t) <= taken {
      CoveredIsSettled(s, r, t);
    } else {
      DistinctIdsCount(r.due);
      QueryChangesNoRow(start, r.p, r.now, r.due);
      FullBatchDrains(s, r.before, read, r.rest, taken, t);
    }
  }

  lemma BehindGrows(s: State, steps: seq<Step>, t: int)
    ensures |Behind(After(s, steps).rows, t)| <= |Behind(s.rows, t)| + Backdated(steps, t)
  {
    BehindMeanwhile(s, steps, t, {});
    assert Behind(s.rows, t) - {} == Behind(s.rows, t);
    assert Behind(After(s, steps).rows, t) - {} == Behind(After(s, steps).rows, t);
  }

  lemma SettledNotBehind(s: State, taken: set<RowId>, t: int)
    requires AllSettled(s, taken)
    ensures Behind(s.rows, t) - taken == Behind(s.rows, t)
  {
    forall id | id in taken ensures id !in Behind(s.rows, t) {
      assert Settled(s, id);
    }
  }

  lemma FullBatchDrains(s: State, before: seq<Step>, read: State, rest: seq<Step>, taken: set<RowId>, t: int)
    requires read.rows == After(s, before).rows && AllSettled(After(read, rest), taken)
    requires taken <= Behind(read.rows, t) && |taken| == SWEEP_BATCH_LIMIT
    ensures |Behind(After(read, rest).rows, t)| + SWEEP_BATCH_LIMIT
            <= |Behind(s.rows, t)| + Backdated(before, t) + Backdated(rest, t)
  {
    BehindGrows(s, before, t);
    BehindMeanwhile(read, rest, t, taken);
    SettledNotBehind(After(read, rest), taken, t);
    TakenAway(Behind(read.rows, t), taken);
  }

  lemma QueryChangesNoRow(s: State, p: Pid, now: int, due: seq<RowId>)
    ensures Apply(s, SweepRead(p, now, due)).rows == s.rows
  {
  }

  lemma TakenAway(behind: set<RowId>, taken: set<RowId>)
    requires taken <= behind
    ensures |behind - taken| == |behind| - |taken|
  {
    assert behind == taken + (behind - taken);
  }

  lemma TakenAreSettled(s: State, r: Round, t: int)
    requires Good(s) && Completed(s, r, t)
    ensures AllSettled(AfterRound(s, r), IdsOf(r.due))
  {
    forall id | id in IdsOf(r.due) ensures Settled(AfterRound(s, r), id) {
      var i :| 0 <= i < |r.due| && r.due[i] == id;
      RoundSettlesBatch(s, r, t, i);
    }
  }

  lemma CoveredIsSettled(s: State, r: Round, t: int)
    requires AllSettled(AfterRound(s, r), IdsOf(r.due)) && Behind(After(s, r.before).rows, t) <= IdsOf(r.due)
    ensures AllSettled(AfterRound(s, r), Behind(s.rows, t))
  {
    var start, end := After(s, r.before), AfterRound(s, r);
    RoundEvolves(s, r);
    BehindOrSettled(s, start, t);
    forall id | id in Behind(s.rows, t) ensures Settled(end, id) {
      if Settled(start, id) {
        SettledStays(start, SweepRead(r.p, r.now, r.due), id);
        SettledMeanwhile(AfterQuery(s, r), r.rest, id);
      }
    }
  }

  lemma {:induction false} SettledThroughRounds(s: State, rounds: seq<Round>, id: RowId)
    requires Settled(s, id)
    ensures Settled(AfterRounds(s, rounds), id)
    decreases |rounds|
  {
    if rounds != [] {
      SettledMeanwhile(s, rounds[0].before, id);
      SettledStays(After(s, rounds[0].before), SweepRead(rounds[0].p, rounds[0].now, rounds[0].due), id);
      SettledMeanwhile(AfterQuery(s, rounds[0]), rounds[0].rest, id);
      SettledThroughRounds(AfterRound(s, rounds[0]), rounds[1..], id);
    }
  }

  /**
   * After `n` sweeps completed one after another at or after `t`, every row that was due at `t` is settled, or
   * 200 n fewer are behind, backdated raises counted: whatever is raised, with whatever clock, decided,
   * superseded or swept in between.
   */
  lemma {:induction false} BacklogDrains(s: State, rounds: seq<Round>, t: int)
    requires Good(s) && AllCompleted(s, rounds, t)
    ensures AllSettled(AfterRounds(s, rounds), Behind(s.rows, t))
            || |Behind(AfterRounds(s, rounds).rows, t)| + SWEEP_BATCH_LIMIT * |rounds| <= |Behind(s.rows, t)| + BackdatedIn(rounds, t)
    decreases |rounds|
  {
    if rounds != [] {
      var after := AfterRound(s, rounds[0]);
      RoundDrains(s, rounds[0], t);
      BacklogDrains(after, rounds[1..], t);
      RoundEvolves(s, rounds[0]);
      BehindOrSettled(s, after, t);
      forall id | id in Behind(s.rows, t) && Settled(after, id) ensures Settled(AfterRounds(s, rounds), id) {
        SettledThroughRounds(after, rounds[1..], id);
      }
    }
  }

  lemma BacklogSettles(s: State, rounds: seq<Round>, t: int)
    requires Good(s) && AllCompleted(s, rounds, t)
    requires SWEEP_BATCH_LIMIT * |rounds| >= |Behind(s.rows, t)| + BackdatedIn(rounds, t)
    ensures AllSettled(AfterRounds(s, rounds), Behind(s.rows, t))
  {
    BacklogDrains(s, rounds, t);
    RoundsEvolve(s, rounds);
    BehindOrSettled(s, AfterRounds(s, rounds), t);
  }

  /**
   * From any state the system reaches: if `D` rows are due at `t`, and of the raises made meanwhile `B` carry a
   * clock that makes their rows due by `t` already, ceil((D + B) / 200) completed sweeps settle all `D`.
   */
  lemma ReachableBacklogSettles(steps: seq<Step>, rounds: seq<Round>, t: int)
    requires AllCompleted(Reach(steps), rounds, t)
    requires SWEEP_BATCH_LIMIT * |rounds| >= |Behind(Reach(steps).rows, t)| + BackdatedIn(rounds, t)
    ensures AllSettled(AfterRounds(Reach(steps), rounds), Behind(Reach(steps).rows, t))
  {
    AlwaysGood(steps);
    BacklogSettles(Reach(steps), rounds, t);
  }

  lemma {:induction false} RoundsEvolve(s: State, rounds: seq<Round>)
    ensures Evolves(s, AfterRounds(s, rounds))
    decreases |rounds|
  {
    if rounds != [] {
      RoundEvolves(s, rounds[0]);
      RoundsEvolve(AfterRound(s, rounds[0]), rounds[1..]);
      EvolvesTwice(s, AfterRound(s, rounds[0]), AfterRounds(s, rounds));
    }
  }
}
