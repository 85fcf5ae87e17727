/**
 * The gate's operations in their own control flow (`approval-gate.service.ts`), against a table other
 * processes write between any two statements. Every state they pass through is one the machine reaches, so
 * each theorem about the machine is a theorem about them.
 */
module ApprovalService {
  import opened Base
  import opened TimeoutPolicy
  import opened Markers
  import opened Approvals
  import opened ApprovalSafety

  datatype GateOutcome =
    | Refused
    | Authorized(id: RowId)
    | Waiting(id: RowId, policy: Policy, timeoutAt: Option<int>)

  /** What the raise learns outside the table: both earlier verdicts, and whether raise and link succeed. */
  datatype GateOracle = GateOracle(permitted: bool, granted: bool, raiseOk: bool, linkOk: bool, text: string)

  datatype DecideResult = Decided | NotFound | AlreadySettled(reason: Reason)

  datatype RepairOracle = RepairOracle(findOk: bool, raiseOk: bool, linkOk: bool, text: string)

  predicate IsBackfillStep(step: Step)
  {
    step.BackfillRead? || step.BackfillFind? || step.BackfillRaise? || step.BackfillLink? || step.BackfillEnd?
  }

  /** Every call of one repair succeeds, and nothing else runs meanwhile. */
  predicate Smooth(oracle: RepairOracle, others: seq<seq<Step>>)
  {
    oracle.findOk && oracle.raiseOk && oracle.linkOk && Quiet(others)
  }

  /** A statement of process `p`. */
  predicate Mine(step: Step, p: Pid)
  {
    (step.Raise? || step.Escalate? || step.Link? || IsDecideStep(step) || IsSweepStep(step) || IsBackfillStep(step)) && step.p == p
  }

  predicate NoneMine(steps: seq<Step>, p: Pid)
  {
    forall i | 0 <= i < |steps| :: !Mine(steps[i], p)
  }

  predicate AllForeign(others: seq<seq<Step>>, p: Pid)
  {
    forall i | 0 <= i < |others| :: NoneMine(others[i], p)
  }

  predicate Quiet(others: seq<seq<Step>>)
  {
    forall i | 0 <= i < |others| :: others[i] == []
  }

  lemma ForeignStepLeavesProc(s: State, step: Step, p: Pid)
    requires !Mine(step, p)
    ensures ProcOf(Apply(s, step), p) == ProcOf(s, p)
  {
  }

  ghost predicate Reachable(s: State)
  {
    exists steps :: Reach(steps) == s
  }

  lemma StepIsReachable(s: State, step: Step)
    requires Reachable(s)
    ensures Reachable(Apply(s, step))
  {
    var steps :| Reach(steps) == s;
    assert (steps + [step])[..|steps|] == steps;
    assert Reach(steps + [step]) == Apply(s, step);
  }

  lemma ReachableIsGood(s: State)
    requires Reachable(s)
    ensures Good(s)
  {
    var steps :| Reach(steps) == s;
    AlwaysGood(steps);
  }

  // ---------------------------------------------------------------------------------------------
  // What single statements do
  // ---------------------------------------------------------------------------------------------

  lemma DecideReadFact(s: State, p: Pid, id: RowId, approve: bool, user: User, now: int)
    requires ProcOf(s, p).Idle? && id < |s.rows|
    ensures var s' := Apply(s, DecideRead(p, id, approve, user, now));
            && s'.rows == s.rows
            && ProcOf(s', p) == if Open(s.rows[id].status) then Deciding(id, approve, user, now) else Idle
  {
  }

  lemma DecideWriteFact(s: State, p: Pid)
    requires Good(s) && ProcOf(s, p).Deciding?
    ensures var d, s' := ProcOf(s, p), Apply(s, DecideWrite(p));
            d.id < |s.rows|
            && if Open(s.rows[d.id].status)
               then ProcOf(s', p).Idle? && s'.rows == s.rows[d.id := Resolve(s.rows[d.id], HumanWrite(d.approve, d.user, d.now))]
               else ProcOf(s', p) == Losing(d.id) && s'.rows == s.rows
  {
    assert ProcGood(s, ProcOf(s, p));
  }

  lemma DecideRereadFact(s: State, p: Pid)
    requires Good(s) && ProcOf(s, p).Losing?
    ensures var s' := Apply(s, DecideReread(p));
            ProcOf(s, p).id < |s.rows| && !Open(s.rows[ProcOf(s, p).id].status) && ProcOf(s', p).Idle? && s'.rows == s.rows
  {
    assert ProcGood(s, ProcOf(s, p));
  }

  /** A closed row has one write, and the exception's reason is that write's. */
  lemma ClosedRowNamesItsWriter(r: Row)
    requires RowGood(r) && !Open(r.status)
    ensures |r.writes| == 1 && NotPendingFor(r) == ReasonFor(r.writes[0]) && NotPendingFor(r) != NotPending
  {
  }

  lemma OpenRowHasNoWriter(r: Row)
    requires RowGood(r) && Open(r.status)
    ensures r.writes == []
  {
  }

  /** What one write of the sweep does to its first row, and to its counters. */
  lemma SweepWriteFact(s: State, p: Pid)
    requires Good(s) && ProcOf(s, p).Sweeping? && ProcOf(s, p).due != []
    ensures var w, s' := ProcOf(s, p), Apply(s, SweepWrite(p));
            var id, approve := w.due[0].id, w.due[0].policy.AutoApprove?;
            && id < |s.rows|
            && ProcOf(s', p).Sweeping? && ProcOf(s', p).now == w.now && ProcOf(s', p).due == w.due[1..]
            && if s.rows[id].status.Pending?
               then s'.rows == s.rows[id := Resolve(s.rows[id], ClockWrite(approve, w.now))]
                    && ProcOf(s', p).sweep == if approve then w.sweep.(autoApproved := w.sweep.autoApproved + 1)
                                              else w.sweep.(autoDenied := w.sweep.autoDenied + 1)
               else s'.rows == s.rows && ProcOf(s', p).sweep == w.sweep.(raced := w.sweep.raced + 1)
  {
    assert ProcGood(s, ProcOf(s, p));
    assert DueGood(s, ProcOf(s, p).now, ProcOf(s, p).due[0]);
  }

  /** The first `i` rows of the batch are resolved by the policy recorded on them, the others untouched. */
  ghost predicate SweptSoFar(rows: seq<Row>, rows': seq<Row>, due: seq<RowId>, now: int, i: nat)
  {
    && Selects(rows, due) && |rows'| == |rows|
    && (forall j | 0 <= j < i && j < |due| :: rows'[due[j]] == Resolve(rows[due[j]], ClockWrite(rows[due[j]].timeoutPolicy.AutoApprove?, now)))
    && (forall j | i <= j < |due| :: rows'[due[j]] == rows[due[j]])
  }

  lemma SweepGoesOn(rows: seq<Row>, before: seq<Row>, after: seq<Row>, due: seq<RowId>, now: int, i: nat)
    requires i < |due| && SweptSoFar(rows, before, due, now, i)
    requires after == before[due[i] := Resolve(before[due[i]], ClockWrite(before[due[i]].timeoutPolicy.AutoApprove?, now))]
    ensures SweptSoFar(rows, after, due, now, i + 1)
  {
  }

  lemma SettledStaySettled(s: State, s': State, due: seq<RowId>, i: nat)
    requires Evolves(s, s') && i < |due|
    requires forall j | 0 <= j < i :: due[j] < |s.rows| && !s.rows[due[j]].status.Pending?
    requires due[i] < |s'.rows| && !s'.rows[due[i]].status.Pending?
    ensures forall j | 0 <= j < i + 1 :: due[j] < |s'.rows| && !s'.rows[due[j]].status.Pending?
  {
  }

  lemma RaiseFact(s: State, p: Pid, request: Request)
    requires ProcOf(s, p).Idle? && Fresh(s, request)
    ensures var s' := Apply(s, Raise(p, request));
            && s'.rows == s.rows + [NewRow(request)] && s'.escs == s.escs
            && ProcOf(s', p) == if NewRow(request).status.Parked? then Escalating(|s.rows|) else Idle
  {
  }

  lemma EscalateFact(s: State, p: Pid, ok: bool, text: string)
    requires Good(s) && ProcOf(s, p).Escalating?
    ensures var id, s' := ProcOf(s, p).id, Apply(s, Escalate(p, ok, text));
            && id < |s.rows| && s'.rows == s.rows
            && if ok then ProcOf(s', p) == Linking(id, |s.escs|) && |s'.escs| == |s.escs| + 1 && s'.escs[|s.escs|].about == Some(id)
               else ProcOf(s', p) == Idle && s'.escs == s.escs
  {
    assert ProcGood(s, ProcOf(s, p));
  }

  lemma LinkFact(s: State, p: Pid, ok: bool)
    requires ProcOf(s, p).Linking?
    ensures var s' := Apply(s, Link(p, ok));
            && ProcOf(s', p) == Idle && s'.escs == s.escs
            && s'.rows == (if ok then LinkRow(s, ProcOf(s, p).id, ProcOf(s, p).esc) else s).rows
  {
  }

  /** The lookup of a pass: a failure moves on to the next row, otherwise the row is next raised or linked. */
  lemma FindFact(s: State, p: Pid, ok: bool)
    requires Good(s) && ProcOf(s, p).Backfilling? && ProcOf(s, p).stage.ToFind? && ProcOf(s, p).stale != []
    ensures var w, s' := ProcOf(s, p), Apply(s, BackfillFind(p, ok));
            && w.stale[0] < |s.rows| && s'.rows == s.rows && s'.escs == s.escs && ProcOf(s', p).Backfilling?
            && if ok then
                 && (ProcOf(s', p).stage.ToRaise? || (ProcOf(s', p).stage.ToLink? && !ProcOf(s', p).stage.raisedHere))
                 && ProcOf(s', p).stale == w.stale && ProcOf(s', p).backfill == w.backfill
               else ProcOf(s', p) == Backfilling(w.stale[1..], ToFind, w.backfill.(failed := w.backfill.failed + 1))
  {
    assert ProcGood(s, ProcOf(s, p));
  }

  lemma RepairRaiseFact(s: State, p: Pid, ok: bool, text: string)
    requires Good(s) && ProcOf(s, p).Backfilling? && ProcOf(s, p).stage.ToRaise?
    ensures var w, s' := ProcOf(s, p), Apply(s, BackfillRaise(p, ok, text));
            && w.stale != [] && s'.rows == s.rows && |s'.escs| == |s.escs| + (if ok then 1 else 0)
            && if ok then ProcOf(s', p) == Backfilling(w.stale, ToLink(|s.escs|, true), w.backfill)
               else ProcOf(s', p) == Backfilling(w.stale[1..], ToFind, w.backfill.(failed := w.backfill.failed + 1))
  {
    assert ProcGood(s, ProcOf(s, p));
  }

  lemma RepairLinkFact(s: State, p: Pid, ok: bool)
    requires Good(s) && ProcOf(s, p).Backfilling? && ProcOf(s, p).stage.ToLink?
    ensures var w, s' := ProcOf(s, p), Apply(s, BackfillLink(p, ok));
            && w.stale != [] && s'.rows == (if ok then LinkRow(s, w.stale[0], w.stage.esc) else s).rows && s'.escs == s.escs
            && ProcOf(s', p).Backfilling? && ProcOf(s', p).stage.ToFind? && ProcOf(s', p).stale == w.stale[1..]
            && ProcOf(s', p).backfill.examined == w.backfill.examined
            && (ok && Linkable(s, w.stale[0]) ==>
                  ProcOf(s', p).backfill == if w.stage.raisedHere then w.backfill.(raised := w.backfill.raised + 1)
                                            else w.backfill.(linked := w.backfill.linked + 1))
  {
    assert ProcGood(s, ProcOf(s, p));
  }

  /** The first `i` rows of a pass have their link, and no other row has changed. */
  ghost predicate RepairedSoFar(rows: seq<Row>, rows': seq<Row>, stale: seq<RowId>, i: nat)
  {
    && Selects(rows, stale) && |rows'| == |rows|
    && (forall j | 0 <= j < i && j < |stale| :: rows'[stale[j]].escalation.Some?)
    && (forall k | 0 <= k < |rows| && (forall j | 0 <= j < i && j < |stale| :: stale[j] != k) :: rows'[k] == rows[k])
  }

  lemma RepairGoesOn(rows: seq<Row>, before: seq<Row>, after: seq<Row>, stale: seq<RowId>, i: nat, r: Row)
    requires i < |stale| && RepairedSoFar(rows, before, stale, i)
    requires after == before[stale[i] := r] && r.escalation.Some?
    ensures RepairedSoFar(rows, after, stale, i + 1)
  {
    forall k | 0 <= k < |rows| && (forall j | 0 <= j < i + 1 && j < |stale| :: stale[j] != k) ensures after[k] == rows[k] {
      assert stale[i] != k;
    }
  }

  // ---------------------------------------------------------------------------------------------
  // The service
  // ---------------------------------------------------------------------------------------------

  class ApprovalGate {
    var s: State

    ghost predicate Valid()
      reads this
    {
      Reachable(s)
    }

    constructor ()
      ensures Valid() && s == INITIAL
    {
      s := INITIAL;
      assert Reach([]) == INITIAL;
    }

    method Do(step: Step)
      requires Valid()
      modifies this
      ensures Valid() && s == Apply(old(s), step)
    {
      StepIsReachable(s, step);
      s := Apply(s, step);
    }

    /** Other processes run while process `p` waits for its next statement. */
    method Others(p: Pid, steps: seq<Step>)
      requires Valid() && NoneMine(steps, p)
      modifies this
      ensures Valid() && Evolves(old(s), s) && ProcOf(s, p) == old(ProcOf(s, p))
      ensures s == After(old(s), steps)
    {
      for i := 0 to |steps|
        invariant Valid() && Evolves(old(s), s) && ProcOf(s, p) == old(ProcOf(s, p))
        invariant s == After(old(s), steps[..i])
      {
        ghost var before := s;
        assert steps[..i + 1][..i] == steps[..i];
        ForeignStepLeavesProc(s, steps[i], p);
        StepEvolves(s, steps[i]);
        Do(steps[i]);
        EvolvesTwice(old(s), before, s);
      }
      assert steps[..|steps|] == steps;
    }

    /**
     * `gate`. An effect never trusted leaves no row; a grant leaves a resolved one with no timer; otherwise the
     * new row waits for a person, with the consequence of silence it answers with. A request that parks and
     * whose escalation goes through undisturbed ends linked to the one escalation raised for it.
     */
    method Gate(p: Pid, request: Request, oracle: GateOracle, others: seq<seq<Step>>) returns (r: GateOutcome)
      requires Valid() && ProcOf(s, p).Idle? && Fresh(s, request) && |others| == 2 && AllForeign(others, p)
      modifies this
      ensures Valid() && Evolves(old(s), s) && ProcOf(s, p).Idle?
      ensures r.Refused? <==> !oracle.permitted
      ensures r.Authorized? <==> oracle.permitted && oracle.granted
      ensures r.Refused? ==> s == old(s)
      ensures r.Authorized? ==> r.id == |old(s.rows)| && s.rows == old(s.rows) + [GrantedRow(request)] && s.escs == old(s.escs)
      ensures r.Waiting? ==>
                && r.id == |old(s.rows)| < |s.rows| && RowEvolves(NewRow(request), s.rows[r.id])
                && r.policy == ResolveTimeoutPolicy(request.registry, request.actionClass)
                && r.timeoutAt == TimeoutAtFor(r.policy, request.now)
      ensures r.Waiting? && Quiet(others) ==>
                && (r.policy.ParkAndEscalate? && oracle.raiseOk && oracle.linkOk ==>
                      && s.rows[r.id].escalation == Some(|old(s.escs)|) && |s.escs| == |old(s.escs)| + 1
                      && s.escs[|old(s.escs)|].about == Some(r.id))
                && (r.policy.ParkAndEscalate? && oracle.raiseOk && !oracle.linkOk ==>
                      s.rows[r.id].escalation.None? && |s.escs| == |old(s.escs)| + 1)
                && (!r.policy.ParkAndEscalate? ==> s.escs == old(s.escs))
    {
      if !oracle.permitted {
        return Refused;
      }
      if oracle.granted {
        StepEvolves(s, Authorize(request));
        Do(Authorize(request));
        return Authorized(|s.rows| - 1);
      }
      ghost var start := s;
      RaiseFact(s, p, request);
      StepEvolves(s, Raise(p, request));
      Do(Raise(p, request));
      var id := |s.rows| - 1;
      r := Waiting(id, s.rows[id].timeoutPolicy, s.rows[id].timeoutAt);
      if s.rows[id].status.Parked? {
        ghost var raised := s;
        EscalateParked(p, oracle, others);
        EvolvesTwice(start, raised, s);
      }
    }

    /** Tell a human, then point the row at the escalation: either may fail, and the row stands. */
    method EscalateParked(p: Pid, oracle: GateOracle, others: seq<seq<Step>>)
      requires Valid() && ProcOf(s, p).Escalating? && |others| == 2 && AllForeign(others, p)
      modifies this
      ensures Valid() && Evolves(old(s), s) && ProcOf(s, p).Idle?
      ensures var id := old(ProcOf(s, p)).id;
              Quiet(others) && oracle.raiseOk ==>
                && |s.escs| == |old(s.escs)| + 1 && s.escs[|old(s.escs)|].about == Some(id)
                && s.rows == (if oracle.linkOk then LinkRow(old(s), id, |old(s.escs)|) else old(s)).rows
    {
      ghost var start := s;
      Others(p, others[0]);
      ghost var before := s;
      ReachableIsGood(s);
      EscalateFact(s, p, oracle.raiseOk, oracle.text);
      StepEvolves(s, Escalate(p, oracle.raiseOk, oracle.text));
      Do(Escalate(p, oracle.raiseOk, oracle.text));
      EvolvesTwice(start, before, s);
      if oracle.raiseOk {
        LinkEscalation(p, oracle.linkOk, others[1]);
        EvolvesTwice(start, Apply(before, Escalate(p, oracle.raiseOk, oracle.text)), s);
      }
    }

    /** The guarded update: it writes the link exactly when the row it finds is still parked and unlinked. */
    method LinkEscalation(p: Pid, ok: bool, others: seq<Step>)
      requires Valid() && ProcOf(s, p).Linking? && NoneMine(others, p)
      modifies this
      ensures Valid() && Evolves(old(s), s) && ProcOf(s, p).Idle?
      ensures var found, link := After(old(s), others), old(ProcOf(s, p));
              s.escs == found.escs && s.rows == (if ok then LinkRow(found, link.id, link.esc) else found).rows
    {
      Others(p, others);
      ghost var before := s;
      LinkFact(s, p, ok);
      StepEvolves(s, Link(p, ok));
      Do(Link(p, ok));
      EvolvesTwice(old(s), before, s);
    }

    /**
     * `decide`. A decision taken is the row's one write, whatever else was racing for it; one refused is told
     * truly who resolved the row; and with nobody racing, the answer depends on the row's status alone.
     */
    method Decide(p: Pid, id: RowId, approve: bool, user: User, now: int, others: seq<seq<Step>>) returns (r: DecideResult)
      requires Valid() && ProcOf(s, p).Idle? && |others| == 2 && AllForeign(others, p)
      modifies this
      ensures Valid() && ProcOf(s, p).Idle? && Evolves(old(s), s)
      ensures r.NotFound? <==> id >= |old(s.rows)|
      ensures r.Decided? ==>
                && id < |s.rows| && s.rows[id].writes == [HumanWrite(approve, user, now)]
                && Records(s.rows[id], HumanWrite(approve, user, now)) && Open(old(s).rows[id].status)
      ensures r.AlreadySettled? ==>
                id < |s.rows| && |s.rows[id].writes| == 1 && r.reason == ReasonFor(s.rows[id].writes[0]) && r.reason != NotPending
      ensures Quiet(others) && id < |old(s.rows)| ==> (r.Decided? <==> Open(old(s).rows[id].status))
    {
      if id >= |s.rows| {
        return NotFound;
      }
      ghost var start := s;
      var isOpen, reason := ReadForDecision(p, id, approve, user, now);
      if !isOpen {
        return AlreadySettled(reason);
      }
      ghost var read := s;
      var won := WriteDecision(p, others[0]);
      EvolvesTwice(start, read, s);
      if won {
        return Decided;
      }
      ghost var lost := s;
      reason := ReadReason(p, others[1]);
      EvolvesTwice(start, lost, s);
      r := AlreadySettled(reason);
    }

    method ReadForDecision(p: Pid, id: RowId, approve: bool, user: User, now: int) returns (isOpen: bool, reason: Reason)
      requires Valid() && ProcOf(s, p).Idle? && id < |s.rows|
      modifies this
      ensures Valid() && Evolves(old(s), s) && s.rows == old(s.rows)
      ensures isOpen == Open(s.rows[id].status)
      ensures ProcOf(s, p) == if isOpen then Deciding(id, approve, user, now) else Idle
      ensures !isOpen ==> |s.rows[id].writes| == 1 && reason == ReasonFor(s.rows[id].writes[0]) && reason != NotPending
    {
      ReachableIsGood(s);
      isOpen, reason := Open(s.rows[id].status), NotPendingFor(s.rows[id]);
      if !isOpen {
        ClosedRowNamesItsWriter(s.rows[id]);
      }
      DecideReadFact(s, p, id, approve, user, now);
      StepEvolves(s, DecideRead(p, id, approve, user, now));
      Do(DecideRead(p, id, approve, user, now));
    }

    /** The conditional update: it wins exactly when the row is still open. */
    method WriteDecision(p: Pid, others: seq<Step>) returns (won: bool)
      requires Valid() && ProcOf(s, p).Deciding? && NoneMine(others, p)
      modifies this
      ensures Valid() && Evolves(old(s), s)
      ensures var d := old(ProcOf(s, p));
              && d.id < |s.rows|
              && (won ==> ProcOf(s, p).Idle? && s.rows[d.id].writes == [HumanWrite(d.approve, d.user, d.now)]
                          && Records(s.rows[d.id], HumanWrite(d.approve, d.user, d.now)))
              && (!won ==> ProcOf(s, p) == Losing(d.id) && !Open(s.rows[d.id].status))
      ensures var found, id := After(old(s), others), old(ProcOf(s, p)).id;
              id < |found.rows| && won == Open(found.rows[id].status)
    {
      Others(p, others);
      ghost var before := s;
      ReachableIsGood(s);
      DecideWriteFact(s, p);
      StepEvolves(s, DecideWrite(p));
      var d := ProcOf(s, p);
      won := Open(s.rows[d.id].status);
      if won {
        OpenRowHasNoWriter(s.rows[d.id]);
      }
      Do(DecideWrite(p));
      EvolvesTwice(old(s), before, s);
    }

    /** The loser's second read. */
    method ReadReason(p: Pid, others: seq<Step>) returns (reason: Reason)
      requires Valid() && ProcOf(s, p).Losing? && NoneMine(others, p)
      modifies this
      ensures Valid() && Evolves(old(s), s) && ProcOf(s, p).Idle?
      ensures var id := old(ProcOf(s, p)).id;
              id < |s.rows| && |s.rows[id].writes| == 1 && reason == ReasonFor(s.rows[id].writes[0]) && reason != NotPending
    {
      Others(p, others);
      ghost var before := s;
      ReachableIsGood(s);
      DecideRereadFact(s, p);
      StepEvolves(s, DecideReread(p));
      var id := ProcOf(s, p).id;
      reason := NotPendingFor(s.rows[id]);
      ClosedRowNamesItsWriter(s.rows[id]);
      Do(DecideReread(p));
      EvolvesTwice(old(s), before, s);
    }

    /**
     * `supersede`: an open row is withdrawn with no decider, a settled one is left as it is, and no other row
     * is touched. The view returned is the row as it then stands.
     */
    method Supersede(id: RowId, now: int) returns (view: Option<Row>)
      requires Valid()
      modifies this
      ensures Valid() && Evolves(old(s), s) && |s.rows| == |old(s.rows)|
      ensures forall i | 0 <= i < |s.rows| && i != id :: s.rows[i] == old(s).rows[i]
      ensures view.None? <==> id >= |old(s.rows)|
      ensures view.Some? ==>
                && view.value == s.rows[id] && !Open(view.value.status)
                && if Open(old(s).rows[id].status)
                   then view.value.writes == [SupersedeWrite(now)] && Records(view.value, SupersedeWrite(now))
                   else view.value == old(s).rows[id]
    {
      ReachableIsGood(s);
      StepEvolves(s, Step.Supersede(id, now));
      if id < |s.rows| && Open(s.rows[id].status) {
        OpenRowHasNoWriter(s.rows[id]);
      }
      Do(Step.Supersede(id, now));
      view := if id < |s.rows| then Some(s.rows[id]) else None;
    }

    /**
     * `sweepTimeouts`. Every row of the batch is settled when the sweep returns, each counted once, and none
     * is ever skipped as parked; with nobody racing, each got exactly the policy recorded on it.
     */
    method SweepTimeouts(p: Pid, now: int, due: seq<RowId>, others: seq<seq<Step>>) returns (t: SweepTally)
      requires Valid() && ProcOf(s, p).Idle? && IsDueBatch(s.rows, now, due) && |others| == |due| && AllForeign(others, p)
      modifies this
      ensures Valid() && Evolves(old(s), s) && ProcOf(s, p).Idle?
      ensures t.examined == |due| == t.autoApproved + t.autoDenied + t.raced && t.skippedParked == 0
      ensures forall i | 0 <= i < |due| :: due[i] < |s.rows| && !s.rows[due[i]].status.Pending?
      ensures Quiet(others) ==>
                && t.raced == 0
                && forall i | 0 <= i < |due| ::
                     s.rows[due[i]] == Resolve(old(s).rows[due[i]], ClockWrite(old(s).rows[due[i]].timeoutPolicy.AutoApprove?, now))
    {
      ghost var rows := s.rows;
      StartSweep(p, now, due);
      for i := 0 to |due|
        invariant Valid() && Evolves(old(s), s) && rows == old(s.rows)
        invariant ProcOf(s, p).Sweeping? && ProcOf(s, p).now == now && ProcOf(s, p).due == Snapshot(rows, due)[i..]
        invariant forall j | 0 <= j < i :: due[j] < |s.rows| && !s.rows[due[j]].status.Pending?
        invariant ProcOf(s, p).sweep.examined == |due|
        invariant Quiet(others) ==> SweptSoFar(rows, s.rows, due, now, i) && ProcOf(s, p).sweep.raced == 0
      {
        ghost var before := s;
        assert ProcOf(s, p).due[0] == Snapshot(rows, due)[i];
        WriteFirstDue(p, others[i]);
        EvolvesTwice(old(s), before, s);
        if Quiet(others) {
          SweepGoesOn(rows, before.rows, s.rows, due, now, i);
        }
        SettledStaySettled(before, s, due, i);
      }
      ghost var swept := s;
      t := FinishSweep(p);
      EvolvesTwice(old(s), swept, s);
    }

    /** The query, with the recorded policies as it returns them. */
    method StartSweep(p: Pid, now: int, due: seq<RowId>)
      requires Valid() && ProcOf(s, p).Idle? && IsDueBatch(s.rows, now, due)
      modifies this
      ensures Valid() && Evolves(old(s), s) && s.rows == old(s.rows)
      ensures ProcOf(s, p) == Sweeping(now, Snapshot(s.rows, due), SweepTally(|due|, 0, 0, 0, 0))
    {
      StepEvolves(s, SweepRead(p, now, due));
      Do(SweepRead(p, now, due));
    }

    /** One conditional update: it resolves the row by its recorded policy, or finds it no longer pending. */
    method WriteFirstDue(p: Pid, others: seq<Step>)
      requires Valid() && ProcOf(s, p).Sweeping? && ProcOf(s, p).due != [] && NoneMine(others, p)
      modifies this
      ensures Valid() && Evolves(old(s), s)
      ensures var w, w' := old(ProcOf(s, p)), ProcOf(s, p);
              && w'.Sweeping? && w'.now == w.now && w'.due == w.due[1..] && w'.sweep.examined == w.sweep.examined
              && w.due[0].id < |s.rows| && !s.rows[w.due[0].id].status.Pending?
              && (others == [] && w.due[0].id < |old(s.rows)| && old(s).rows[w.due[0].id].status.Pending? ==>
                    w'.sweep.raced == w.sweep.raced
                    && s.rows == old(s).rows[w.due[0].id := Resolve(old(s).rows[w.due[0].id], ClockWrite(w.due[0].policy.AutoApprove?, w.now))])
    {
      Others(p, others);
      ghost var before := s;
      ReachableIsGood(s);
      SweepWriteFact(s, p);
      StepEvolves(s, SweepWrite(p));
      Do(SweepWrite(p));
      EvolvesTwice(old(s), before, s);
    }

    method FinishSweep(p: Pid) returns (t: SweepTally)
      requires Valid() && ProcOf(s, p).Sweeping? && ProcOf(s, p).due == []
      modifies this
      ensures Valid() && Evolves(old(s), s) && s.rows == old(s.rows) && ProcOf(s, p).Idle?
      ensures t == old(ProcOf(s, p).sweep)
      ensures t.examined == t.autoApproved + t.autoDenied + t.raced && t.skippedParked == 0
    {
      ReachableIsGood(s);
      assert ProcGood(s, ProcOf(s, p));
      t := ProcOf(s, p).sweep;
      StepEvolves(s, SweepEnd(p));
      Do(SweepEnd(p));
    }

    /**
     * `backfillParkedEscalations`. Each row examined lands in exactly one counter, whatever fails and whoever
     * races; and when nothing does, every row of the batch ends linked and no other row has changed.
     */
    method BackfillParkedEscalations(p: Pid, now: int, stale: seq<RowId>, oracles: seq<RepairOracle>, others: seq<seq<seq<Step>>>)
      returns (t: BackfillTally)
      requires Valid() && ProcOf(s, p).Idle? && IsStaleBatch(s.rows, now, stale)
      requires |oracles| == |others| == |stale|
      requires forall i | 0 <= i < |others| :: |others[i]| == 3 && AllForeign(others[i], p)
      modifies this
      ensures Valid() && Evolves(old(s), s) && ProcOf(s, p).Idle?
      ensures t.examined == |stale| == t.raised + t.linked + t.raced + t.failed
      ensures (forall i | 0 <= i < |stale| :: Smooth(oracles[i], others[i])) ==>
                && t.raced == t.failed == 0 && RepairedSoFar(old(s.rows), s.rows, stale, |stale|)
                && |s.escs| == |old(s.escs)| + t.raised
    {
      ghost var rows := s.rows;
      StepEvolves(s, BackfillRead(p, now, stale));
      Do(BackfillRead(p, now, stale));
      for i := 0 to |stale|
        invariant Valid() && Evolves(old(s), s) && rows == old(s.rows)
        invariant ProcOf(s, p).Backfilling? && ProcOf(s, p).stage.ToFind? && ProcOf(s, p).stale == stale[i..]
        invariant ProcOf(s, p).backfill.examined == |stale|
        invariant (forall j | 0 <= j < i :: Smooth(oracles[j], others[j])) ==>
                    && ProcOf(s, p).backfill.raced == ProcOf(s, p).backfill.failed == 0 && RepairedSoFar(rows, s.rows, stale, i)
                    && |s.escs| == |old(s.escs)| + ProcOf(s, p).backfill.raised
      {
        ghost var before := s;
        RepairFirst(p, oracles[i], others[i]);
        EvolvesTwice(old(s), before, s);
        if forall j | 0 <= j < i + 1 :: Smooth(oracles[j], others[j]) {
          assert Smooth(oracles[i], others[i]);
          assert before.rows[stale[i]] == rows[stale[i]];
          RepairGoesOn(rows, before.rows, s.rows, stale, i, s.rows[stale[i]]);
        }
      }
      ghost var repaired := s;
      t := FinishBackfill(p);
      EvolvesTwice(old(s), repaired, s);
    }

    /** One row of a pass: look for its escalation, raise one only if there is none, then link it. */
    method RepairFirst(p: Pid, oracle: RepairOracle, others: seq<seq<Step>>)
      requires Valid() && ProcOf(s, p).Backfilling? && ProcOf(s, p).stage.ToFind? && ProcOf(s, p).stale != []
      requires |others| == 3 && AllForeign(others, p)
      modifies this
      ensures Valid() && Evolves(old(s), s)
      ensures var w, w' := old(ProcOf(s, p)), ProcOf(s, p);
              && w'.Backfilling? && w'.stage.ToFind? && w'.stale == w.stale[1..] && w'.backfill.examined == w.backfill.examined
              && (Smooth(oracle, others) && Linkable(old(s), w.stale[0]) ==>
                    && w'.backfill.raced == w.backfill.raced && w'.backfill.failed == w.backfill.failed
                    && |s.escs| - |old(s.escs)| == w'.backfill.raised - w.backfill.raised
                    && |s.rows| == |old(s.rows)| && s.rows[w.stale[0]].escalation.Some?
                    && s.rows == old(s).rows[w.stale[0] := s.rows[w.stale[0]]])
    {
      ghost var start := s;
      Others(p, others[0]);
      ghost var before := s;
      ReachableIsGood(s);
      FindFact(s, p, oracle.findOk);
      StepEvolves(s, BackfillFind(p, oracle.findOk));
      Do(BackfillFind(p, oracle.findOk));
      EvolvesTwice(start, before, s);
      ghost var found := s;
      if ProcOf(s, p).stage.ToRaise? {
        RaiseMissing(p, oracle.raiseOk, oracle.text, others[1]);
        EvolvesTwice(start, found, s);
      }
      ghost var raised := s;
      if ProcOf(s, p).stage.ToLink? {
        LinkRepaired(p, oracle.linkOk, others[2]);
        EvolvesTwice(start, raised, s);
      }
    }

    method RaiseMissing(p: Pid, ok: bool, text: string, others: seq<Step>)
      requires Valid() && ProcOf(s, p).Backfilling? && ProcOf(s, p).stage.ToRaise? && NoneMine(others, p)
      modifies this
      ensures Valid() && Evolves(old(s), s)
      ensures var w, w' := old(ProcOf(s, p)), ProcOf(s, p);
              && w.stale != [] && w'.Backfilling? && w'.backfill.examined == w.backfill.examined
              && if ok then w'.stage.ToLink? && w'.stage.raisedHere && w'.stale == w.stale && w'.backfill == w.backfill
                 else w'.stage.ToFind? && w'.stale == w.stale[1..]
      ensures others == [] ==> s.rows == old(s.rows) && (ok ==> |s.escs| == |old(s.escs)| + 1)
    {
      Others(p, others);
      ghost var before := s;
      ReachableIsGood(s);
      RepairRaiseFact(s, p, ok, text);
      StepEvolves(s, BackfillRaise(p, ok, text));
      Do(BackfillRaise(p, ok, text));
      EvolvesTwice(old(s), before, s);
    }

    method LinkRepaired(p: Pid, ok: bool, others: seq<Step>)
      requires Valid() && ProcOf(s, p).Backfilling? && ProcOf(s, p).stage.ToLink? && NoneMine(others, p)
      modifies this
      ensures Valid() && Evolves(old(s), s)
      ensures var w, w' := old(ProcOf(s, p)), ProcOf(s, p);
              && w.stale != [] && w'.Backfilling? && w'.stage.ToFind? && w'.stale == w.stale[1..]
              && w'.backfill.examined == w.backfill.examined
              && (others == [] && ok && Linkable(old(s), w.stale[0]) ==>
                    && w'.backfill == (if w.stage.raisedHere then w.backfill.(raised := w.backfill.raised + 1)
                                       else w.backfill.(linked := w.backfill.linked + 1))
                    && s.escs == old(s.escs)
                    && s.rows == LinkRow(old(s), w.stale[0], w.stage.esc).rows)
    {
      Others(p, others);
      ghost var before := s;
      ReachableIsGood(s);
      RepairLinkFact(s, p, ok);
      StepEvolves(s, BackfillLink(p, ok));
      Do(BackfillLink(p, ok));
      EvolvesTwice(old(s), before, s);
    }

    method FinishBackfill(p: Pid) returns (t: BackfillTally)
      requires Valid() && ProcOf(s, p).Backfilling? && ProcOf(s, p).stage.ToFind? && ProcOf(s, p).stale == []
      modifies this
      ensures Valid() && Evolves(old(s), s) && s.rows == old(s.rows) && s.escs == old(s.escs) && ProcOf(s, p).Idle?
      ensures t == old(ProcOf(s, p).backfill) && t.examined == t.raised + t.linked + t.raced + t.failed
    {
      ReachableIsGood(s);
      assert ProcGood(s, ProcOf(s, p));
      t := ProcOf(s, p).backfill;
      StepEvolves(s, BackfillEnd(p));
      Do(BackfillEnd(p));
    }
  }
}
