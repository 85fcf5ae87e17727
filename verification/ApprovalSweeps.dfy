/**
 * How many completed sweeps a backlog of lapsed approvals needs, exactly: for every size of the backlog and every
 * number of backdated raises there is a run in which one sweep fewer leaves a row behind (`sweepTimeouts`).
 */
module ApprovalSweeps {
  import opened Base
  import opened TimeoutPolicy
  import opened Markers
  import opened Approvals
  import opened ApprovalSafety
  import opened ApprovalBacklog
  import Timestamps

  // ---------------------------------------------------------------------------------------------
  // The rows: `d` raised at 0, then more raised by a clock one millisecond behind
  // ---------------------------------------------------------------------------------------------

  /** A class that is denied in silence, so its requests have a deadline. */
  const REGISTRY: Registry := map["spending" := ActionClass(Reversible, true)]

  function Ask(uuid: string, now: int): Request
  {
    Request(uuid, "spending", REGISTRY, now, now)
  }

  ghost predicate Supply(ids: seq<string>)
  {
    (forall i | 0 <= i < |ids| :: WellFormedId(ids[i])) && (forall i, j | 0 <= i < j < |ids| :: ids[i] != ids[j])
  }

  predicate Waits(r: Row, deadline: int)
  {
    r.status.Pending? && r.timeoutAt == Some(deadline) && r.timeoutPolicy.Deny?
  }

  function Deadline(d: nat, i: RowId): int
  {
    if i < d then TIMEOUT_WINDOW else TIMEOUT_WINDOW - 1
  }

  /** The first `n` ids have been raised, the ones from `d` on late, and nothing else has happened. */
  ghost predicate Raised(s: State, ids: seq<string>, d: nat, n: nat)
  {
    && |s.rows| == n <= |ids| && s.procs == map[]
    && forall i | 0 <= i < n :: s.rows[i].uuid == ids[i] && Waits(s.rows[i], Deadline(d, i))
  }

  /** Raises at one reading of the clock, of the ids from `k` on. */
  predicate Raises(steps: seq<Step>, ids: seq<string>, k: nat, now: int)
  {
    k + |steps| <= |ids| && forall i | 0 <= i < |steps| :: steps[i] == Raise(1, Ask(ids[k + i], now))
  }

  lemma RaisesOf(ids: seq<string>, k: nat, n: nat, now: int) returns (steps: seq<Step>)
    requires k + n <= |ids|
    ensures Raises(steps, ids, k, now) && |steps| == n
  {
    steps := seq(n, (i: nat) requires i < n => Raise(1, Ask(ids[k + i], now)));
  }

  lemma RaisedRowIsAppended(s: State, uuid: string, now: int)
    requires Fresh(s, Ask(uuid, now)) && s.procs == map[]
    ensures var s' := Apply(s, Raise(1, Ask(uuid, now)));
            && s'.procs == map[] && s'.rows == s.rows + [NewRow(Ask(uuid, now))]
            && NewRow(Ask(uuid, now)).uuid == uuid && Waits(NewRow(Ask(uuid, now)), now + TIMEOUT_WINDOW)
  {
  }

  lemma OneMoreRaised(s: State, ids: seq<string>, d: nat, n: nat, now: int)
    requires Supply(ids) && Raised(s, ids, d, n) && n < |ids| && now + TIMEOUT_WINDOW == Deadline(d, n)
    ensures Raised(Apply(s, Raise(1, Ask(ids[n], now))), ids, d, n + 1)
  {
    assert Fresh(s, Ask(ids[n], now));
    RaisedRowIsAppended(s, ids[n], now);
  }

  lemma {:induction false} AllRaised(s: State, ids: seq<string>, d: nat, k: nat, steps: seq<Step>, now: int)
    requires Supply(ids) && Raised(s, ids, d, k) && Raises(steps, ids, k, now)
    requires (now == 0 && k + |steps| <= d) || (now == -1 && d <= k)
    ensures Raised(After(s, steps), ids, d, k + |steps|)
  {
    if steps != [] {
      var n := |steps| - 1;
      var before := After(s, steps[..n]);
      AllRaised(s, ids, d, k, steps[..n], now);
      OneMoreRaised(before, ids, d, k + n, now);
      assert After(s, steps) == Apply(before, Raise(1, Ask(ids[k + n], now)));
    }
  }

  lemma {:induction false} AllBackdated(steps: seq<Step>, ids: seq<string>, k: nat)
    requires Raises(steps, ids, k, -1)
    ensures Backdated(steps, TIMEOUT_WINDOW) == |steps|
  {
    if steps != [] {
      AllBackdated(steps[..|steps| - 1], ids, k);
    }
  }

  /** The ids: numerals of 36 digits. */
  lemma IdsSupply(n: nat) returns (ids: seq<string>)
    requires n <= Timestamps.Pow10(ID_LENGTH)
    ensures |ids| == n && Supply(ids)
  {
    ids := seq(n, (i: nat) => Timestamps.Numeral(i, ID_LENGTH));
    forall i | 0 <= i < n ensures WellFormedId(ids[i]) {
      OnlyDigits(i, ID_LENGTH);
    }
    forall i, j | 0 <= i < j < n ensures ids[i] != ids[j] {
      Timestamps.NumeralOrder(i, j, ID_LENGTH);
    }
  }

  lemma {:induction false} OnlyDigits(n: nat, w: nat)
    ensures '\n' !in Timestamps.Numeral(n, w)
  {
    if w > 0 {
      OnlyDigits(n / 10, w - 1);
    }
  }

  // ---------------------------------------------------------------------------------------------
  // The order: the late rows first, then the others
  // ---------------------------------------------------------------------------------------------

  /** The row whose turn is the `i`th, of `d` rows and `b` late ones. */
  function Turn(d: nat, b: nat, i: nat): RowId
  {
    if i < b then d + i else i - b
  }

  /** The turn of row `j`. */
  function Place(d: nat, b: nat, j: RowId): nat
  {
    if j < d then j + b else j - d
  }

  predicate Stands(r: Row, deadline: int, settled: bool)
  {
    r.timeoutAt == Some(deadline) && r.timeoutPolicy.Deny? && (r.status.Pending? <==> !settled)
  }

  /** The first `k` in order are settled, and the others wait. */
  ghost predicate Swept(rows: seq<Row>, d: nat, b: nat, k: nat)
  {
    && |rows| == d + b
    && forall j | 0 <= j < |rows| :: Stands(rows[j], Deadline(d, j), Place(d, b, j) < k)
  }

  predicate InTurn(due: seq<RowId>, d: nat, b: nat, k: nat)
  {
    k + |due| <= d + b && forall i | 0 <= i < |due| :: due[i] == Turn(d, b, k + i)
  }

  lemma BatchInTurn(rows: seq<Row>, d: nat, b: nat, k: nat, due: seq<RowId>)
    requires Swept(rows, d, b, k) && InTurn(due, d, b, k) && |due| == SWEEP_BATCH_LIMIT
    ensures IsDueBatch(rows, TIMEOUT_WINDOW, due)
  {
    forall i | 0 <= i < |due|
      ensures due[i] < |rows| && Place(d, b, due[i]) == k + i && Stands(rows[due[i]], Deadline(d, due[i]), false)
    {
    }
    forall j | 0 <= j < |rows| && IsDue(rows[j], TIMEOUT_WINDOW) && j !in due
      ensures forall i | 0 <= i < |due| :: rows[due[i]].timeoutAt.value <= rows[j].timeoutAt.value
    {
      LeftForLater(rows, d, b, k, due, j);
    }
  }

  lemma LeftForLater(rows: seq<Row>, d: nat, b: nat, k: nat, due: seq<RowId>, j: RowId)
    requires Swept(rows, d, b, k) && InTurn(due, d, b, k) && j < |rows| && IsDue(rows[j], TIMEOUT_WINDOW)
    ensures j in due || Place(d, b, j) >= k + |due|
  {
    assert Stands(rows[j], Deadline(d, j), Place(d, b, j) < k);
    if Place(d, b, j) < k + |due| {
      assert due[Place(d, b, j) - k] == j;
    }
  }

  // ---------------------------------------------------------------------------------------------
  // One sweep, in turn
  // ---------------------------------------------------------------------------------------------

  predicate Writes(writes: seq<Step>)
  {
    forall i | 0 <= i < |writes| :: writes[i] == SweepWrite(0)
  }

  /** Process 0 sweeps the rows from turn `k` on. */
  ghost predicate Sweeps(s: State, d: nat, b: nat, k: nat)
  {
    && Swept(s.rows, d, b, k) && ProcOf(s, 0).Sweeping? && k + |ProcOf(s, 0).due| <= d + b
    && forall i | 0 <= i < |ProcOf(s, 0).due| :: ProcOf(s, 0).due[i] == Due(Turn(d, b, k + i), Deny)
  }

  lemma WriteTakesTurn(s: State, d: nat, b: nat, k: nat)
    requires Sweeps(s, d, b, k) && ProcOf(s, 0).due != []
    ensures Sweeps(Apply(s, SweepWrite(0)), d, b, k + 1)
    ensures ProcOf(Apply(s, SweepWrite(0)), 0).due == ProcOf(s, 0).due[1..]
  {
    var proc, s' := ProcOf(s, 0), Apply(s, SweepWrite(0));
    var id := proc.due[0].id;
    assert proc.due[0] == Due(Turn(d, b, k), Deny);
    assert Stands(s.rows[id], Deadline(d, id), false);
    assert s'.rows == s.rows[id := Resolve(s.rows[id], ClockWrite(false, proc.now))];
    assert Swept(s'.rows, d, b, k + 1);
    forall i | 0 <= i < |proc.due[1..]| ensures proc.due[1..][i] == Due(Turn(d, b, k + 1 + i), Deny) {
      assert proc.due[1..][i] == proc.due[i + 1];
    }
  }

  lemma {:induction false} WritesTakeTurns(s: State, d: nat, b: nat, k: nat, writes: seq<Step>)
    requires Sweeps(s, d, b, k) && Writes(writes) && |writes| <= |ProcOf(s, 0).due|
    ensures Sweeps(After(s, writes), d, b, k + |writes|)
    ensures |ProcOf(After(s, writes), 0).due| == |ProcOf(s, 0).due| - |writes| && Backdated(writes, TIMEOUT_WINDOW) == 0
  {
    if writes != [] {
      var n := |writes| - 1;
      WritesTakeTurns(s, d, b, k, writes[..n]);
      WriteTakesTurn(After(s, writes[..n]), d, b, k + n);
    }
  }

  lemma SweepStarts(s: State, d: nat, b: nat, k: nat, due: seq<RowId>)
    requires ProcOf(s, 0).Idle? && Swept(s.rows, d, b, k) && InTurn(due, d, b, k) && IsDueBatch(s.rows, TIMEOUT_WINDOW, due)
    ensures var read := Apply(s, SweepRead(0, TIMEOUT_WINDOW, due)); Sweeps(read, d, b, k) && |ProcOf(read, 0).due| == |due|
  {
    var read := Apply(s, SweepRead(0, TIMEOUT_WINDOW, due));
    assert read.rows == s.rows && ProcOf(read, 0) == Sweeping(TIMEOUT_WINDOW, Snapshot(s.rows, due), SweepTally(|due|, 0, 0, 0, 0));
  }

  lemma SweepEnds(s: State, d: nat, b: nat, k: nat)
    requires Sweeps(s, d, b, k) && ProcOf(s, 0).due == []
    ensures ProcOf(Apply(s, SweepEnd(0)), 0).Idle? && Apply(s, SweepEnd(0)).rows == s.rows
  {
  }

  lemma BatchIsSwept(start: State, d: nat, b: nat, k: nat, due: seq<RowId>, writes: seq<Step>)
    requires ProcOf(start, 0).Idle? && Swept(start.rows, d, b, k) && InTurn(due, d, b, k)
    requires IsDueBatch(start.rows, TIMEOUT_WINDOW, due) && Writes(writes) && |writes| == |due|
    ensures var rest := writes + [SweepEnd(0)];
            var end := After(Apply(start, SweepRead(0, TIMEOUT_WINDOW, due)), rest);
            ProcOf(end, 0).Idle? && Swept(end.rows, d, b, k + |due|) && Backdated(rest, TIMEOUT_WINDOW) == 0
  {
    var rest := writes + [SweepEnd(0)];
    var read := Apply(start, SweepRead(0, TIMEOUT_WINDOW, due));
    SweepStarts(start, d, b, k, due);
    WritesTakeTurns(read, d, b, k, writes);
    assert rest[..|rest| - 1] == writes;
    SweepEnds(After(read, writes), d, b, k + |due|);
  }

  /** After some steps that leave every row from turn `k` on waiting, one full sweep settles the next 200. */
  lemma OneSweep(s: State, before: seq<Step>, d: nat, b: nat, k: nat) returns (r: Round)
    requires ProcOf(After(s, before), 0).Idle? && Swept(After(s, before).rows, d, b, k) && k + SWEEP_BATCH_LIMIT <= d + b
    ensures Completed(s, r, TIMEOUT_WINDOW) && Swept(AfterRound(s, r).rows, d, b, k + SWEEP_BATCH_LIMIT)
    ensures ProcOf(AfterRound(s, r), 0).Idle? && r.before == before && Backdated(r.rest, TIMEOUT_WINDOW) == 0
  {
    var n: nat := SWEEP_BATCH_LIMIT;
    var due := seq<RowId>(n, (i: nat) => Turn(d, b, k + i));
    var writes := seq(n, (i: nat) => SweepWrite(0));
    r := Round(before, 0, TIMEOUT_WINDOW, due, writes + [SweepEnd(0)]);
    BatchInTurn(After(s, before).rows, d, b, k, due);
    BatchIsSwept(After(s, before), d, b, k, due, writes);
  }

  // ---------------------------------------------------------------------------------------------
  // Sweep after sweep
  // ---------------------------------------------------------------------------------------------

  lemma OneRound(s: State, r: Round, t: int)
    requires Completed(s, r, t)
    ensures AllCompleted(s, [r], t) && AfterRounds(s, [r]) == AfterRound(s, r)
    ensures BackdatedIn([r], t) == Backdated(r.before, t) + Backdated(r.rest, t)
  {
    assert [r][1..] == [];
  }

  lemma OneMoreRound(s: State, r: Round, rounds: seq<Round>, t: int)
    requires Completed(s, r, t) && AllCompleted(AfterRound(s, r), rounds, t)
    ensures AllCompleted(s, [r] + rounds, t) && AfterRounds(s, [r] + rounds) == AfterRounds(AfterRound(s, r), rounds)
    ensures BackdatedIn([r] + rounds, t) == Backdated(r.before, t) + Backdated(r.rest, t) + BackdatedIn(rounds, t)
  {
    assert ([r] + rounds)[1..] == rounds;
  }

  /** As long as a row is left over, the last in order is. */
  lemma {:induction false} SweepsInTurn(s: State, before: seq<Step>, d: nat, b: nat, k: nat, n: nat) returns (rounds: seq<Round>)
    requires ProcOf(After(s, before), 0).Idle? && Swept(After(s, before).rows, d, b, k)
    requires d >= 1 && n >= 1 && k + SWEEP_BATCH_LIMIT * n < d + b
    ensures |rounds| == n && AllCompleted(s, rounds, TIMEOUT_WINDOW)
    ensures BackdatedIn(rounds, TIMEOUT_WINDOW) == Backdated(before, TIMEOUT_WINDOW)
    ensures !Settled(AfterRounds(s, rounds), d - 1)
    decreases n
  {
    var r := OneSweep(s, before, d, b, k);
    if n == 1 {
      rounds := [r];
      OneRound(s, r, TIMEOUT_WINDOW);
      assert Stands(AfterRound(s, r).rows[d - 1], Deadline(d, d - 1), false);
    } else {
      var rest := SweepsInTurn(AfterRound(s, r), [], d, b, k + SWEEP_BATCH_LIMIT, n - 1);
      rounds := [r] + rest;
      OneMoreRound(s, r, rest, TIMEOUT_WINDOW);
    }
  }

  // ---------------------------------------------------------------------------------------------
  // The backlog at the start
  // ---------------------------------------------------------------------------------------------

  lemma BacklogOf(s: State, ids: seq<string>, d: nat)
    requires Raised(s, ids, d, d)
    ensures |Behind(s.rows, TIMEOUT_WINDOW)| == d && (d >= 1 ==> d - 1 in Behind(s.rows, TIMEOUT_WINDOW))
  {
    var all := seq(d, (i: nat) => i);
    DistinctIdsCount(all);
    forall i | 0 <= i < d ensures i in IdsOf(all) && IsDue(s.rows[i], TIMEOUT_WINDOW) {
      assert all[i] == i;
      assert Waits(s.rows[i], Deadline(d, i));
    }
    assert Behind(s.rows, TIMEOUT_WINDOW) == IdsOf(all);
  }

  lemma FirstRaises(ids: seq<string>, d: nat) returns (steps: seq<Step>)
    requires Supply(ids) && 1 <= d <= |ids|
    ensures Raised(Reach(steps), ids, d, d)
    ensures |Behind(Reach(steps).rows, TIMEOUT_WINDOW)| == d && d - 1 in Behind(Reach(steps).rows, TIMEOUT_WINDOW)
  {
    steps := RaisesOf(ids, 0, d, 0);
    AllRaised(INITIAL, ids, d, 0, steps, 0);
    BacklogOf(Reach(steps), ids, d);
  }

  lemma RaisedIsSweptNowhere(s: State, ids: seq<string>, d: nat, b: nat)
    requires Raised(s, ids, d, d + b)
    ensures ProcOf(s, 0).Idle? && Swept(s.rows, d, b, 0)
  {
    forall j | 0 <= j < |s.rows| ensures Stands(s.rows[j], Deadline(d, j), false) {
      assert Waits(s.rows[j], Deadline(d, j));
    }
  }

  lemma LateRaisesFirst(s: State, ids: seq<string>, d: nat, late: seq<Step>, n: nat) returns (rounds: seq<Round>)
    requires Supply(ids) && Raised(s, ids, d, d) && Raises(late, ids, d, -1)
    requires d >= 1 && n >= 1 && SWEEP_BATCH_LIMIT * n < d + |late|
    ensures |rounds| == n && AllCompleted(s, rounds, TIMEOUT_WINDOW) && BackdatedIn(rounds, TIMEOUT_WINDOW) == |late|
    ensures !Settled(AfterRounds(s, rounds), d - 1)
  {
    AllRaised(s, ids, d, d, late, -1);
    AllBackdated(late, ids, d);
    RaisedIsSweptNowhere(After(s, late), ids, d, |late|);
    rounds := SweepsInTurn(s, late, d, |late|, 0, n);
  }

  /**
   * For every `d`, `b` and `n` with 200 n < d + b: a run in which `d` rows are due, `b` backdated raises follow, and
   * `n` sweeps then complete, each with a full batch, and leave one of the `d` unsettled.
   */
  lemma BackdatedRaisesStarve(d: nat, b: nat, n: nat) returns (steps: seq<Step>, rounds: seq<Round>, victim: RowId)
    requires d >= 1 && n >= 1 && SWEEP_BATCH_LIMIT * n < d + b <= Timestamps.Pow10(ID_LENGTH)
    ensures |Behind(Reach(steps).rows, TIMEOUT_WINDOW)| == d && victim in Behind(Reach(steps).rows, TIMEOUT_WINDOW)
    ensures |rounds| == n && AllCompleted(Reach(steps), rounds, TIMEOUT_WINDOW) && BackdatedIn(rounds, TIMEOUT_WINDOW) == b
    ensures !Settled(AfterRounds(Reach(steps), rounds), victim)
  {
    var ids := IdsSupply(d + b);
    var late := RaisesOf(ids, d, b, -1);
    steps := FirstRaises(ids, d);
    rounds := LateRaisesFirst(Reach(steps), ids, d, late, n);
    victim := d - 1;
  }

  /** In every run in which `d` rows are due and `b` backdated raises follow, `n` completed sweeps settle all `d`. */
  ghost predicate Suffices(d: nat, b: nat, n: nat)
  {
    forall steps, rounds, t | AllCompleted(Reach(steps), rounds, t)
                              && |rounds| == n && |Behind(Reach(steps).rows, t)| == d && BackdatedIn(rounds, t) == b ::
      AllSettled(AfterRounds(Reach(steps), rounds), Behind(Reach(steps).rows, t))
  }

  /**
   * `n` sweeps are enough exactly when they have room for every row due and every backdated raise. Ids have 36
   * characters, so there are only so many rows.
   */
  lemma SweepsNeededExactly(d: nat, b: nat, n: nat)
    requires d >= 1 && n >= 1 && d + b <= Timestamps.Pow10(ID_LENGTH)
    ensures Suffices(d, b, n) <==> d + b <= SWEEP_BATCH_LIMIT * n
  {
    if d + b <= SWEEP_BATCH_LIMIT * n {
      forall steps, rounds, t | AllCompleted(Reach(steps), rounds, t)
                                && |rounds| == n && |Behind(Reach(steps).rows, t)| == d && BackdatedIn(rounds, t) == b
        ensures AllSettled(AfterRounds(Reach(steps), rounds), Behind(Reach(steps).rows, t))
      {
        ReachableBacklogSettles(steps, rounds, t);
      }
    } else {
      var steps, rounds, victim := BackdatedRaisesStarve(d, b, n);
    }
  }
}
