/**
 * What every interleaving of raises, decisions, sweeps, supersessions and backfills keeps: one resolution per
 * approval, a losing decision told who won, and a clock that does only what was announced.
 */
module ApprovalSafety {
  import opened Base
  import opened TimeoutPolicy
  import opened Approvals

  // ---------------------------------------------------------------------------------------------
  // How a row can change
  // ---------------------------------------------------------------------------------------------

  /** A row keeps what it was raised with and the way it waits; once resolved it is frozen; a link once made stays. */
  ghost predicate RowEvolves(r: Row, r': Row)
  {
    && r'.uuid == r.uuid && r'.actionClass == r.actionClass && r'.timeoutPolicy == r.timeoutPolicy
    && r'.timeoutAt == r.timeoutAt && r'.createdAt == r.createdAt
    && r'.registry == r.registry && r'.raisedAt == r.raisedAt
    && (!Open(r.status) ==> r' == r)
    && (Open(r'.status) ==> r'.status == r.status)
    && (r.escalation.Some? ==> r'.escalation == r.escalation)
  }

  ghost predicate Evolves(s: State, s': State)
  {
    && |s.rows| <= |s'.rows|
    && (forall i | 0 <= i < |s.rows| :: RowEvolves(s.rows[i], s'.rows[i]))
    && |s.verdicts| <= |s'.verdicts| && s'.verdicts[..|s.verdicts|] == s.verdicts
  }

  lemma GateEvolves(s: State, step: Step)
    ensures Evolves(s, GateStep(s, step))
  {
  }

  lemma DecideEvolves(s: State, step: Step)
    ensures Evolves(s, DecideStep(s, step))
  {
  }

  lemma SweepEvolves(s: State, step: Step)
    ensures Evolves(s, SweepStep(s, step))
  {
  }

  lemma BackfillEvolves(s: State, step: Step)
    ensures Evolves(s, BackfillStep(s, step))
  {
  }

  lemma StepEvolves(s: State, step: Step)
    ensures Evolves(s, Apply(s, step))
  {
    GateEvolves(s, step);
    DecideEvolves(s, step);
    SweepEvolves(s, step);
    BackfillEvolves(s, step);
  }

  lemma EvolvesTwice(a: State, b: State, c: State)
    requires Evolves(a, b) && Evolves(b, c)
    ensures Evolves(a, c)
  {
    assert c.verdicts[..|a.verdicts|] == c.verdicts[..|b.verdicts|][..|a.verdicts|];
  }

  /**
   * However long the system runs on: a resolved row never changes in any column, an open one keeps its class,
   * policy and deadline, an escalation link is never overwritten, and no verdict is taken back.
   */
  lemma {:induction false} ResolutionIsForever(s: State, steps: seq<Step>)
    ensures Evolves(s, After(s, steps))
  {
    if steps != [] {
      var before := steps[..|steps| - 1];
      ResolutionIsForever(s, before);
      StepEvolves(After(s, before), steps[|steps| - 1]);
      EvolvesTwice(s, After(s, before), After(s, steps));
    }
  }

  // ---------------------------------------------------------------------------------------------
  // The invariant
  // ---------------------------------------------------------------------------------------------

  /** The columns say exactly what the one write did. */
  predicate Records(r: Row, w: Write)
  {
    match w
    case HumanWrite(approve, user, at) =>
      r.status == (if approve then Approved else Denied)
      && r.decidedAt == Some(at) && r.decidedBy == Some(user) && r.decidedVia == Some(Human)
    case ClockWrite(approve, at) =>
      r.status == (if approve then AutoApproved else AutoDenied)
      && r.decidedAt == Some(at) && r.decidedBy == None && r.decidedVia == Some(Timeout)
    case GrantWrite(at) =>
      r.status == Approved && r.decidedAt == Some(at) && r.decidedBy == None && r.decidedVia == Some(Grant)
    case SupersedeWrite(at) =>
      r.status == Superseded && r.decidedAt == Some(at) && r.decidedBy == None && r.decidedVia == None
  }

  /** The clock resolves as the policy of the raise said, and not before its four hours are over. */
  predicate ClockKeepsPromise(r: Row, w: Write)
  {
    w.ClockWrite? ==>
      && (ResolveTimeoutPolicy(r.registry, r.actionClass) == if w.approve then AutoApprove else Deny)
      && w.at >= r.raisedAt + TIMEOUT_WINDOW
  }

  predicate RowGood(r: Row)
  {
    && r.timeoutPolicy == ResolveTimeoutPolicy(r.registry, r.actionClass)
    && |r.writes| <= 1
    && (r.writes == [] ==>
          && r.status == (if r.timeoutPolicy.ParkAndEscalate? then Parked else Pending)
          && r.timeoutAt == TimeoutAtFor(r.timeoutPolicy, r.raisedAt)
          && r.decidedAt.None? && r.decidedBy.None? && r.decidedVia.None?)
    && (|r.writes| == 1 ==> Records(r, r.writes[0]) && ClockKeepsPromise(r, r.writes[0]))
  }

  predicate DueGood(s: State, now: int, d: Due)
  {
    && d.id < |s.rows| && d.policy == s.rows[d.id].timeoutPolicy && !d.policy.ParkAndEscalate?
    && s.rows[d.id].timeoutAt.Some? && s.rows[d.id].timeoutAt.value <= now
    && s.rows[d.id].timeoutAt == TimeoutAtFor(d.policy, s.rows[d.id].raisedAt)
  }

  predicate ProcGood(s: State, proc: Proc)
  {
    match proc
    case Idle => true
    case Escalating(id) => id < |s.rows|
    case Linking(id, _) => id < |s.rows|
    case Deciding(id, _, _, _) => id < |s.rows|
    case Losing(id) => id < |s.rows| && !Open(s.rows[id].status)
    case Sweeping(now, due, t) =>
      && (forall i | 0 <= i < |due| :: DueGood(s, now, due[i]))
      && t.skippedParked == 0 && t.examined == |due| + t.autoApproved + t.autoDenied + t.raced
    case Backfilling(stale, stage, t) =>
      && (forall i | 0 <= i < |stale| :: stale[i] < |s.rows|)
      && (!stage.ToFind? ==> stale != [])
      && t.examined == |stale| + t.raised + t.linked + t.raced + t.failed
  }

  function ReasonFor(w: Write): Reason
  {
    match w
    case HumanWrite(_, _, _) => AlreadyDecidedByHuman
    case ClockWrite(_, _) => AlreadyTimedOut
    case GrantWrite(_) => AlreadyAuthorizedByGrant
    case SupersedeWrite(_) => WasSuperseded
  }

  predicate VerdictGood(s: State, v: Verdict)
  {
    && v.id < |s.rows| && |s.rows[v.id].writes| == 1
    && match v
       case Won(id, approve, user, at) => s.rows[id].writes[0] == HumanWrite(approve, user, at)
       case Lost(id, reason) => reason == ReasonFor(s.rows[id].writes[0])
  }

  ghost predicate RowsGood(rows: seq<Row>)
  {
    forall i | 0 <= i < |rows| :: RowGood(rows[i])
  }

  ghost predicate Good(s: State)
  {
    && RowsGood(s.rows)
    && (forall p :: ProcGood(s, ProcOf(s, p)))
    && (forall i | 0 <= i < |s.verdicts| :: VerdictGood(s, s.verdicts[i]))
  }

  /** Only the rows' own evolution matters to what was good before; what is new must be good by itself. */
  lemma GoodAgain(s: State, s': State, p: Pid)
    requires Good(s) && Evolves(s, s') && RowsGood(s'.rows)
    requires s'.procs == s.procs || (s'.procs == s.procs[p := ProcOf(s', p)] && ProcGood(s', ProcOf(s', p)))
    requires forall i | |s.verdicts| <= i < |s'.verdicts| :: VerdictGood(s', s'.verdicts[i])
    ensures Good(s')
  {
    forall q ensures ProcGood(s', ProcOf(s', q)) {
      if s'.procs == s.procs || q != p {
        assert ProcOf(s', q) == ProcOf(s, q);
        ProcStaysGood(s, s', ProcOf(s, q));
      }
    }
    forall i | 0 <= i < |s'.verdicts| ensures VerdictGood(s', s'.verdicts[i]) {
      if i < |s.verdicts| {
        assert s'.verdicts[i] == s'.verdicts[..|s.verdicts|][i] == s.verdicts[i];
        ResolvedNotOpen(s.rows[s.verdicts[i].id]);
        assert RowEvolves(s.rows[s.verdicts[i].id], s'.rows[s.verdicts[i].id]);
      }
    }
  }

  lemma ResolvedNotOpen(r: Row)
    requires RowGood(r)
    ensures Open(r.status) <==> r.writes == []
  {
  }

  lemma ProcStaysGood(s: State, s': State, proc: Proc)
    requires Evolves(s, s') && ProcGood(s, proc)
    ensures ProcGood(s', proc)
  {
    if proc.Sweeping? {
      forall i | 0 <= i < |proc.due| ensures DueGood(s', proc.now, proc.due[i]) {
        assert DueGood(s, proc.now, proc.due[i]);
        assert RowEvolves(s.rows[proc.due[i].id], s'.rows[proc.due[i].id]);
      }
    }
  }

  lemma NewRowsAreGood(request: Request)
    ensures RowGood(NewRow(request)) && RowGood(GrantedRow(request))
  {
  }

  lemma InsertKeepsGood(s: State, step: Step)
    requires Good(s) && (step.Authorize? || step.Raise?)
    ensures Good(GateStep(s, step))
  {
    NewRowsAreGood(step.request);
    GateEvolves(s, step);
    GoodAgain(s, GateStep(s, step), if step.Raise? then step.p else 0);
  }

  lemma GateKeepsGood(s: State, step: Step)
    requires Good(s)
    ensures Good(GateStep(s, step))
  {
    if step.Authorize? || step.Raise? {
      InsertKeepsGood(s, step);
    } else {
      var p := if step.Escalate? || step.Link? then step.p else 0;
      GateEvolves(s, step);
      assert ProcGood(s, ProcOf(s, p));
      GoodAgain(s, GateStep(s, step), p);
    }
  }

  lemma DecideKeepsRowsGood(s: State, step: Step)
    requires Good(s)
    ensures RowsGood(DecideStep(s, step).rows)
  {
  }

  /** A verdict is true when it is given. */
  lemma NewVerdictIsTrue(s: State, step: Step)
    requires Good(s) && IsDecideStep(step)
    ensures var s' := DecideStep(s, step); forall i | |s.verdicts| <= i < |s'.verdicts| :: VerdictGood(s', s'.verdicts[i])
  {
    assert ProcGood(s, ProcOf(s, step.p));
  }

  lemma DecideKeepsGood(s: State, step: Step)
    requires Good(s) && IsDecideStep(step)
    ensures Good(DecideStep(s, step))
  {
    DecideEvolves(s, step);
    assert ProcGood(s, ProcOf(s, step.p));
    DecideKeepsRowsGood(s, step);
    NewVerdictIsTrue(s, step);
    GoodAgain(s, DecideStep(s, step), step.p);
  }

  lemma SweepKeepsRowsGood(s: State, step: Step)
    requires Good(s) && IsSweepStep(step)
    ensures RowsGood(SweepStep(s, step).rows)
  {
    assert ProcGood(s, ProcOf(s, step.p));
  }

  lemma SweepKeepsGood(s: State, step: Step)
    requires Good(s) && IsSweepStep(step)
    ensures Good(SweepStep(s, step))
  {
    SweepEvolves(s, step);
    assert ProcGood(s, ProcOf(s, step.p));
    SweepKeepsRowsGood(s, step);
    GoodAgain(s, SweepStep(s, step), step.p);
  }

  lemma BackfillKeepsRowsGood(s: State, step: Step)
    requires Good(s)
    ensures RowsGood(BackfillStep(s, step).rows)
  {
  }

  lemma BackfillKeepsGood(s: State, step: Step)
    requires Good(s)
    ensures Good(BackfillStep(s, step))
  {
    BackfillEvolves(s, step);
    var p := if step.BackfillRead? || step.BackfillFind? || step.BackfillRaise? || step.BackfillLink? || step.BackfillEnd? then step.p else 0;
    assert ProcGood(s, ProcOf(s, p));
    BackfillKeepsRowsGood(s, step);
    GoodAgain(s, BackfillStep(s, step), p);
  }

  lemma StepKeepsGood(s: State, step: Step)
    requires Good(s)
    ensures Good(Apply(s, step))
  {
    if IsGateStep(step) {
      GateKeepsGood(s, step);
    } else if IsDecideStep(step) {
      DecideKeepsGood(s, step);
    } else if IsSweepStep(step) {
      SweepKeepsGood(s, step);
    } else {
      BackfillKeepsGood(s, step);
    }
  }

  lemma {:induction false} AlwaysGood(steps: seq<Step>)
    ensures Good(Reach(steps))
  {
    if steps != [] {
      AlwaysGood(steps[..|steps| - 1]);
      StepKeepsGood(Reach(steps[..|steps| - 1]), steps[|steps| - 1]);
    }
  }

  // ---------------------------------------------------------------------------------------------
  // The theorems
  // ---------------------------------------------------------------------------------------------

  /**
   * Whatever interleaves, each approval is resolved by at most one write and its columns are that write's; a
   * row is open exactly when nothing has resolved it; and every verdict a `decide` ever returned is still
   * true: a winner's is the row's one write, a loser's reason names whoever made it.
   */
  lemma ResolvedOnceAndToldTruly(steps: seq<Step>)
    ensures var s := Reach(steps);
            && (forall i | 0 <= i < |s.rows| ::
                  && |s.rows[i].writes| <= 1
                  && (Open(s.rows[i].status) <==> s.rows[i].writes == [])
                  && forall w | w in s.rows[i].writes :: Records(s.rows[i], w))
            && (forall v | v in s.verdicts :: VerdictGood(s, v) && v != Lost(v.id, NotPending))
  {
    AlwaysGood(steps);
    var s := Reach(steps);
    forall i | 0 <= i < |s.rows|
      ensures |s.rows[i].writes| <= 1 && (Open(s.rows[i].status) <==> s.rows[i].writes == [])
      ensures forall w | w in s.rows[i].writes :: Records(s.rows[i], w)
    {
      assert RowGood(s.rows[i]);
    }
  }

  /**
   * Even if the action-class registry changes between any two steps: the clock resolves a row only four hours
   * or more after its raise, and to what the policy was at the raise; a row that parks never leaves by the
   * clock; and no sweep ever skips one.
   */
  lemma ClockDoesWhatWasAnnounced(steps: seq<Step>)
    ensures var s := Reach(steps);
            && (forall i | 0 <= i < |s.rows| ::
                  && (s.rows[i].status.AutoApproved? || s.rows[i].status.AutoDenied? ==>
                        && (ResolveTimeoutPolicy(s.rows[i].registry, s.rows[i].actionClass)
                            == if s.rows[i].status.AutoApproved? then AutoApprove else Deny)
                        && s.rows[i].decidedAt.Some? && s.rows[i].decidedAt.value >= s.rows[i].raisedAt + TIMEOUT_WINDOW)
                  && (s.rows[i].status.Parked? ==> s.rows[i].timeoutAt.None?))
            && (forall p | ProcOf(s, p).Sweeping? :: ProcOf(s, p).sweep.skippedParked == 0)
  {
    AlwaysGood(steps);
    var s := Reach(steps);
    forall i | 0 <= i < |s.rows| && (s.rows[i].status.AutoApproved? || s.rows[i].status.AutoDenied?)
      ensures ResolveTimeoutPolicy(s.rows[i].registry, s.rows[i].actionClass)
              == if s.rows[i].status.AutoApproved? then AutoApprove else Deny
      ensures s.rows[i].decidedAt.Some? && s.rows[i].decidedAt.value >= s.rows[i].raisedAt + TIMEOUT_WINDOW
    {
      assert RowGood(s.rows[i]) && s.rows[i].writes != [];
    }
    forall i | 0 <= i < |s.rows| && s.rows[i].status.Parked? ensures s.rows[i].timeoutAt.None? {
      assert RowGood(s.rows[i]) && (s.rows[i].writes == [] || Records(s.rows[i], s.rows[i].writes[0]));
    }
    forall p | ProcOf(s, p).Sweeping? ensures ProcOf(s, p).sweep.skippedParked == 0 {
      assert ProcGood(s, ProcOf(s, p));
    }
  }

  /** No two `decide` calls ever win the same approval. */
  ghost predicate WinsDistinct(s: State)
  {
    forall i, j | 0 <= i < j < |s.verdicts| && s.verdicts[i].Won? && s.verdicts[j].Won? :: s.verdicts[i].id != s.verdicts[j].id
  }

  lemma {:induction false} OneWinnerPerApproval(steps: seq<Step>)
    ensures WinsDistinct(Reach(steps))
  {
    if steps != [] {
      var s, step := Reach(steps[..|steps| - 1]), steps[|steps| - 1];
      OneWinnerPerApproval(steps[..|steps| - 1]);
      AlwaysGood(steps[..|steps| - 1]);
      if step.DecideWrite? {
        assert ProcGood(s, ProcOf(s, step.p));
        forall i | 0 <= i < |s.verdicts| ensures !Open(s.rows[s.verdicts[i].id].status) {
          assert VerdictGood(s, s.verdicts[i]);
          ResolvedNotOpen(s.rows[s.verdicts[i].id]);
        }
      }
      WinsKept(s, step);
    }
  }

  lemma WinsKept(s: State, step: Step)
    requires WinsDistinct(s)
    requires step.DecideWrite? ==> forall i | 0 <= i < |s.verdicts| :: s.verdicts[i].id < |s.rows| && !Open(s.rows[s.verdicts[i].id].status)
    ensures WinsDistinct(Apply(s, step))
  {
  }

  // ---------------------------------------------------------------------------------------------
  // Timers
  // ---------------------------------------------------------------------------------------------

  /** A row waits on the timer of its raise, unless a grant had settled it before it waited at all. */
  predicate TimerStands(r: Row)
  {
    r.timeoutAt == if |r.writes| == 1 && r.writes[0].GrantWrite? then None
                   else TimeoutAtFor(ResolveTimeoutPolicy(r.registry, r.actionClass), r.raisedAt)
  }

  ghost predicate TimersStand(s: State)
  {
    forall i | 0 <= i < |s.rows| :: TimerStands(s.rows[i])
  }

  lemma GateKeepsTimers(s: State, step: Step)
    requires RowsGood(s.rows) && TimersStand(s)
    ensures TimersStand(GateStep(s, step))
  {
    if step.Supersede? && step.id < |s.rows| && Open(s.rows[step.id].status) {
      ResolvedNotOpen(s.rows[step.id]);
    }
  }

  lemma OpenRowsUnwritten(s: State)
    requires RowsGood(s.rows)
    ensures forall i | 0 <= i < |s.rows| && Open(s.rows[i].status) :: s.rows[i].writes == []
  {
    forall i | 0 <= i < |s.rows| && Open(s.rows[i].status) ensures s.rows[i].writes == [] {
      ResolvedNotOpen(s.rows[i]);
    }
  }

  lemma DecisionsKeepTimers(s: State, step: Step)
    requires RowsGood(s.rows) && TimersStand(s)
    ensures TimersStand(DecideStep(s, step))
  {
    OpenRowsUnwritten(s);
  }

  lemma SweepsKeepTimers(s: State, step: Step)
    requires RowsGood(s.rows) && TimersStand(s)
    ensures TimersStand(SweepStep(s, step))
  {
    OpenRowsUnwritten(s);
  }

  lemma BackfillsKeepTimers(s: State, step: Step)
    requires TimersStand(s)
    ensures TimersStand(BackfillStep(s, step))
  {
  }

  /**
   * In every reachable state a granted row has no timer, a row that parks has none, and every other row keeps,
   * settled or not, the deadline four hours after its raise.
   */
  lemma {:induction false} TimersAreTheRaises(steps: seq<Step>)
    ensures TimersStand(Reach(steps))
  {
    if steps != [] {
      var n := |steps| - 1;
      TimersAreTheRaises(steps[..n]);
      AlwaysGood(steps[..n]);
      GateKeepsTimers(Reach(steps[..n]), steps[n]);
      DecisionsKeepTimers(Reach(steps[..n]), steps[n]);
      SweepsKeepTimers(Reach(steps[..n]), steps[n]);
      BackfillsKeepTimers(Reach(steps[..n]), steps[n]);
    }
  }
}
