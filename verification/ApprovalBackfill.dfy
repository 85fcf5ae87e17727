/**
 * Escalations of parked approvals: raised once by the gate or repaired by the backfill
 * (`escalateParked`, `linkEscalation`, `backfillParkedEscalations`, `findEscalationFor`).
 */
module ApprovalBackfill {
  import opened Base
  import opened TimeoutPolicy
  import opened Markers
  import opened Approvals
  import opened ApprovalSafety

  // ---------------------------------------------------------------------------------------------
  // What the marker search finds
  // ---------------------------------------------------------------------------------------------

  ghost predicate NoneAbout(s: State, id: RowId)
  {
    forall i | 0 <= i < |s.escs| :: s.escs[i].about != Some(id)
  }

  /** Each escalation carries the marker of the approval it is about; ids are distinct and well formed. */
  ghost predicate Marked(s: State)
  {
    && (forall i | 0 <= i < |s.rows| :: WellFormedId(s.rows[i].uuid))
    && (forall i, j | 0 <= i < j < |s.rows| :: s.rows[i].uuid != s.rows[j].uuid)
    && (forall i | 0 <= i < |s.escs| :: EscalationMarked(s, s.escs[i]))
  }

  ghost predicate EscalationMarked(s: State, e: Escalation)
  {
    match e.about
    case None => e.detail == e.text
    case Some(x) => x < |s.rows| && e.detail == Detail(e.text, s.rows[x].uuid)
  }

  /** No escalation's free text quotes the marker of an approval it is not about. */
  ghost predicate Unambiguous(s: State)
  {
    forall i, x | 0 <= i < |s.escs| && 0 <= x < |s.rows| && s.escs[i].about != Some(x) ::
      !Contains(s.escs[i].text, Marker(s.rows[x].uuid))
  }

  /** An escalation's detail contains a row's marker exactly when it is about that row. */
  lemma MarkerIdentifies(s: State, i: nat, x: RowId)
    requires Marked(s) && Unambiguous(s) && i < |s.escs| && x < |s.rows|
    ensures Contains(s.escs[i].detail, Marker(s.rows[x].uuid)) <==> s.escs[i].about == Some(x)
  {
    MarkerFoundExactly(s, i, x);
  }

  lemma SearchIsFaithful(s: State, x: RowId)
    requires Marked(s) && Unambiguous(s) && x < |s.rows|
    ensures match FindEscalation(s.escs, s.rows[x].uuid)
            case None => NoneAbout(s, x)
            case Some(e) => e < |s.escs| && s.escs[e].about == Some(x)
  {
    forall i | 0 <= i < |s.escs| ensures Contains(s.escs[i].detail, Marker(s.rows[x].uuid)) <==> s.escs[i].about == Some(x) {
      MarkerIdentifies(s, i, x);
    }
  }

  /** Escalation `i` is about something else, and its free text quotes the marker of row `x`. */
  predicate Misquotes(s: State, i: nat, x: RowId)
    requires i < |s.escs| && x < |s.rows|
  {
    s.escs[i].about != Some(x) && Contains(s.escs[i].text, Marker(s.rows[x].uuid))
  }

  /** An escalation's detail contains a row's marker exactly when it is about the row, or quotes it. */
  lemma MarkerFoundExactly(s: State, i: nat, x: RowId)
    requires Marked(s) && i < |s.escs| && x < |s.rows|
    ensures Contains(s.escs[i].detail, Marker(s.rows[x].uuid)) <==> s.escs[i].about == Some(x) || Misquotes(s, i, x)
  {
    var e := s.escs[i];
    assert EscalationMarked(s, e);
    if e.about == Some(x) {
      DetailContainsMarker(e.text, s.rows[x].uuid);
    } else if e.about.Some? {
      assert s.rows[e.about.value].uuid != s.rows[x].uuid;
      DetailNamesOneApproval(e.text, s.rows[e.about.value].uuid, s.rows[x].uuid);
    }
  }

  /**
   * The search goes wrong exactly when a foreign quote comes first: it finds another approval's escalation if
   * and only if some escalation quotes the marker and none before it is the row's own.
   */
  lemma SearchIsMisledExactly(s: State, x: RowId)
    requires Marked(s) && x < |s.rows|
    ensures var found := FindEscalation(s.escs, s.rows[x].uuid);
            && (found.Some? && s.escs[found.value].about != Some(x)
                <==> exists i | 0 <= i < |s.escs| :: Misquotes(s, i, x) && forall j | 0 <= j < i :: s.escs[j].about != Some(x))
            && (found.None? ==> NoneAbout(s, x))
  {
    var found := FindEscalation(s.escs, s.rows[x].uuid);
    forall i | 0 <= i < |s.escs|
      ensures Contains(s.escs[i].detail, Marker(s.rows[x].uuid)) <==> s.escs[i].about == Some(x) || Misquotes(s, i, x)
    {
      MarkerFoundExactly(s, i, x);
    }
    if i :| 0 <= i < |s.escs| && Misquotes(s, i, x) && forall j | 0 <= j < i :: s.escs[j].about != Some(x) {
      assert Contains(s.escs[i].detail, Marker(s.rows[x].uuid));
    }
    if found.Some? && s.escs[found.value].about != Some(x) {
      assert Misquotes(s, found.value, x);
    }
  }

  // ---------------------------------------------------------------------------------------------
  // The discipline and the invariant
  // ---------------------------------------------------------------------------------------------

  /** The process has decided to raise an escalation about this row, and its next raise will. */
  predicate Intends(proc: Proc, id: RowId)
  {
    proc == Escalating(id) || (proc.Backfilling? && proc.stage.ToRaise? && proc.stale != [] && proc.stale[0] == id)
  }

  /** No two processes are both past their decision to raise for one row. */
  ghost predicate Apart(s: State)
  {
    forall p, q, id: RowId | p != q && Intends(ProcOf(s, p), id) :: !Intends(ProcOf(s, q), id)
  }

  ghost predicate ApartAt(steps: seq<Step>, n: nat)
    requires n <= |steps|
  {
    Apart(Reach(steps[..n]))
  }

  ghost predicate ApartRun(steps: seq<Step>)
  {
    forall n | 0 <= n <= |steps| :: ApartAt(steps, n)
  }

  /** No backfill pass runs beside another, or beside a gate that has written its row and not yet escalated it. */
  ghost predicate Exclusive(s: State)
  {
    forall p, q | p != q && ProcOf(s, p).Backfilling? :: !ProcOf(s, q).Backfilling? && !ProcOf(s, q).Escalating?
  }

  ghost predicate ExclusiveRun(steps: seq<Step>)
  {
    Exclusive(Reach(steps)) && (steps != [] ==> ExclusiveRun(steps[..|steps| - 1]))
  }

  ghost predicate OnePerApproval(s: State)
  {
    forall i, j | 0 <= i < j < |s.escs| && s.escs[i].about.Some? :: s.escs[i].about != s.escs[j].about
  }

  ghost predicate About(s: State, e: EscId, id: RowId)
  {
    e < |s.escs| && s.escs[e].about == Some(id)
  }

  /** A stored link points at an escalation about that very approval. */
  ghost predicate LinksRight(s: State)
  {
    forall x | 0 <= x < |s.rows| && s.rows[x].escalation.Some? :: About(s, s.rows[x].escalation.value, x)
  }

  ghost predicate Purposeful(s: State, proc: Proc)
  {
    match proc
    case Escalating(id) => NoneAbout(s, id)
    case Linking(id, esc) => About(s, esc, id)
    case Backfilling(stale, stage, _) =>
      stale != [] ==>
        && (stage.ToRaise? ==> NoneAbout(s, stale[0]))
        && (stage.ToLink? ==> About(s, stage.esc, stale[0]))
    case _ => true
  }

  ghost predicate GatesApart(s: State)
  {
    forall p, q | p != q && ProcOf(s, p).Escalating? && ProcOf(s, q).Escalating? :: ProcOf(s, p).id != ProcOf(s, q).id
  }

  ghost predicate Repaired(s: State)
  {
    OnePerApproval(s) && LinksRight(s) && forall p :: Purposeful(s, ProcOf(s, p))
  }

  /** The escalation table is only appended to. */
  lemma EscalationsGrow(s: State, step: Step)
    ensures var s' := Apply(s, step);
            |s.escs| <= |s'.escs| && s'.escs[..|s.escs|] == s.escs
  {
  }

  lemma {:induction false} AlwaysMarked(steps: seq<Step>)
    ensures Marked(Reach(steps))
  {
    if steps != [] {
      var s, step := Reach(steps[..|steps| - 1]), steps[|steps| - 1];
      AlwaysMarked(steps[..|steps| - 1]);
      StepKeepsMarked(s, step);
    }
  }

  lemma StepKeepsMarked(s: State, step: Step)
    requires Marked(s)
    ensures Marked(Apply(s, step))
  {
    StepEvolves(s, step);
    EscalationsGrow(s, step);
    NewRowIsFresh(s, step);
    NewEscalationsMarked(s, step);
    MarkedAgain(s, Apply(s, step));
  }

  lemma MarkedAgain(s: State, s': State)
    requires Marked(s) && Evolves(s, s') && |s.escs| <= |s'.escs| && s'.escs[..|s.escs|] == s.escs
    requires |s'.rows| <= |s.rows| + 1
    requires |s'.rows| > |s.rows| ==>
               WellFormedId(s'.rows[|s.rows|].uuid) && forall i | 0 <= i < |s.rows| :: s.rows[i].uuid != s'.rows[|s.rows|].uuid
    requires forall i | |s.escs| <= i < |s'.escs| :: EscalationMarked(s', s'.escs[i])
    ensures Marked(s')
  {
    forall i | 0 <= i < |s'.escs| ensures EscalationMarked(s', s'.escs[i]) {
      if i < |s.escs| {
        assert s'.escs[i] == s'.escs[..|s.escs|][i];
        assert EscalationMarked(s, s.escs[i]);
      }
    }
  }

  lemma NewRowIsFresh(s: State, step: Step)
    ensures var s' := Apply(s, step);
            |s'.rows| <= |s.rows| + 1
            && (|s'.rows| > |s.rows| ==>
                  WellFormedId(s'.rows[|s.rows|].uuid) && forall i | 0 <= i < |s.rows| :: s.rows[i].uuid != s'.rows[|s.rows|].uuid)
  {
  }

  lemma NewEscalationsMarked(s: State, step: Step)
    ensures var s' := Apply(s, step);
            forall i | |s.escs| <= i < |s'.escs| :: EscalationMarked(s', s'.escs[i])
  {
  }

  lemma UnambiguousBefore(s: State, step: Step)
    requires Unambiguous(Apply(s, step))
    ensures Unambiguous(s)
  {
    var s' := Apply(s, step);
    StepEvolves(s, step);
    EscalationsGrow(s, step);
    forall i, x | 0 <= i < |s.escs| && 0 <= x < |s.rows| && s.escs[i].about != Some(x)
      ensures !Contains(s.escs[i].text, Marker(s.rows[x].uuid))
    {
      assert s'.escs[i] == s'.escs[..|s.escs|][i];
    }
  }

  // ---------------------------------------------------------------------------------------------
  // Every step keeps it
  // ---------------------------------------------------------------------------------------------

  /** A step that adds no escalation and leaves its process with nothing unfounded in hand. */
  lemma NothingRaised(s: State, s': State, p: Pid)
    requires Repaired(s) && s'.escs == s.escs && Evolves(s, s')
    requires s'.procs == s.procs || s'.procs == s.procs[p := ProcOf(s', p)]
    requires ProcOf(s', p) != ProcOf(s, p) ==> Purposeful(s', ProcOf(s', p))
    requires LinksRight(s')
    ensures Repaired(s')
  {
    forall q ensures Purposeful(s', ProcOf(s', q)) {
      assert Purposeful(s, ProcOf(s, q));
    }
  }

  /** Process `p` raises an escalation about a row no other process is about to escalate. */
  lemma RaisedOnce(s: State, s': State, p: Pid, id: RowId, text: string)
    requires Repaired(s) && Apart(s) && Intends(ProcOf(s, p), id) && NoneAbout(s, id) && id < |s.rows|
    requires s'.rows == s.rows && s'.escs == RaiseEscalation(s, id, text).escs && s'.procs == s.procs[p := ProcOf(s', p)]
    requires Purposeful(s', ProcOf(s', p))
    ensures Repaired(s')
  {
    forall q ensures Purposeful(s', ProcOf(s', q)) {
      if q != p {
        assert ProcOf(s', q) == ProcOf(s, q) && Purposeful(s, ProcOf(s, q)) && !Intends(ProcOf(s, q), id);
      }
    }
  }

  lemma EscalateKeepsRepaired(s: State, p: Pid, ok: bool, text: string)
    requires Repaired(s) && Good(s) && Apart(s)
    ensures Repaired(GateStep(s, Escalate(p, ok, text)))
  {
    var s' := GateStep(s, Escalate(p, ok, text));
    assert Purposeful(s, ProcOf(s, p)) && ProcGood(s, ProcOf(s, p));
    if ProcOf(s, p).Escalating? && ok {
      RaisedOnce(s, s', p, ProcOf(s, p).id, text);
    } else {
      NothingRaised(s, s', p);
    }
  }

  lemma RaiseKeepsRepaired(s: State, p: Pid, request: Request)
    requires Repaired(s) && Good(s) && Marked(s)
    ensures Repaired(GateStep(s, Raise(p, request)))
  {
    var s' := GateStep(s, Raise(p, request));
    GateEvolves(s, Raise(p, request));
    forall i | 0 <= i < |s.escs| ensures s.escs[i].about != Some(|s.rows|) {
      assert EscalationMarked(s, s.escs[i]);
    }
    forall q ensures Purposeful(s', ProcOf(s', q)) {
      assert Purposeful(s, ProcOf(s, q));
    }
  }

  lemma OtherGateStepsKeepRepaired(s: State, step: Step)
    requires Repaired(s) && (step.Authorize? || step.Link? || step.EscalateOther? || step.Supersede?)
    ensures Repaired(GateStep(s, step))
  {
    var s' := GateStep(s, step);
    GateEvolves(s, step);
    forall q ensures Purposeful(s', ProcOf(s', q)) {
      assert Purposeful(s, ProcOf(s, q));
    }
  }

  lemma RepairRaiseKeepsRepaired(s: State, p: Pid, ok: bool, text: string)
    requires Repaired(s) && Good(s) && Apart(s)
    ensures Repaired(BackfillStep(s, BackfillRaise(p, ok, text)))
  {
    var s' := BackfillStep(s, BackfillRaise(p, ok, text));
    assert Purposeful(s, ProcOf(s, p)) && ProcGood(s, ProcOf(s, p));
    if s'.escs != s.escs {
      RaisedOnce(s, s', p, ProcOf(s, p).stale[0], text);
    } else {
      NothingRaised(s, s', p);
    }
  }

  lemma FindKeepsRepaired(s: State, p: Pid, ok: bool)
    requires Repaired(s) && Good(s) && Marked(s) && Unambiguous(s)
    ensures Repaired(BackfillStep(s, BackfillFind(p, ok)))
  {
    assert Purposeful(s, ProcOf(s, p)) && ProcGood(s, ProcOf(s, p));
    if ProcOf(s, p).Backfilling? && ProcOf(s, p).stale != [] {
      SearchIsFaithful(s, ProcOf(s, p).stale[0]);
    }
    NothingRaised(s, BackfillStep(s, BackfillFind(p, ok)), p);
  }

  lemma OtherRepairStepsKeepRepaired(s: State, step: Step)
    requires Repaired(s) && (step.BackfillRead? || step.BackfillLink? || step.BackfillEnd?)
    ensures Repaired(BackfillStep(s, step))
  {
    BackfillEvolves(s, step);
    assert Purposeful(s, ProcOf(s, step.p));
    NothingRaised(s, BackfillStep(s, step), step.p);
  }

  lemma StepKeepsRepaired(s: State, step: Step)
    requires Repaired(s) && Good(s) && Marked(s) && Apart(s) && Unambiguous(s)
    ensures Repaired(Apply(s, step))
  {
    if step.Escalate? {
      EscalateKeepsRepaired(s, step.p, step.ok, step.text);
    } else if step.Raise? {
      RaiseKeepsRepaired(s, step.p, step.request);
    } else if IsGateStep(step) {
      OtherGateStepsKeepRepaired(s, step);
    } else if IsDecideStep(step) {
      DecideEvolves(s, step);
      DecideRaisesNothing(s, step);
      NothingRaised(s, Apply(s, step), step.p);
    } else if IsSweepStep(step) {
      SweepEvolves(s, step);
      SweepRaisesNothing(s, step);
      NothingRaised(s, Apply(s, step), step.p);
    } else if step.BackfillRaise? {
      RepairRaiseKeepsRepaired(s, step.p, step.ok, step.text);
    } else if step.BackfillFind? {
      FindKeepsRepaired(s, step.p, step.ok);
    } else {
      OtherRepairStepsKeepRepaired(s, step);
    }
  }

  lemma DecideRaisesNothing(s: State, step: Step)
    requires IsDecideStep(step) && LinksRight(s)
    ensures var s' := DecideStep(s, step);
            && s'.escs == s.escs && (s'.procs == s.procs || s'.procs == s.procs[step.p := ProcOf(s', step.p)])
            && (ProcOf(s', step.p) != ProcOf(s, step.p) ==> Purposeful(s', ProcOf(s', step.p)))
            && LinksRight(s')
  {
  }

  lemma SweepRaisesNothing(s: State, step: Step)
    requires IsSweepStep(step) && LinksRight(s)
    ensures var s' := SweepStep(s, step);
            && s'.escs == s.escs && (s'.procs == s.procs || s'.procs == s.procs[step.p := ProcOf(s', step.p)])
            && (ProcOf(s', step.p) != ProcOf(s, step.p) ==> Purposeful(s', ProcOf(s', step.p)))
            && LinksRight(s')
  {
  }

  lemma ApartBefore(steps: seq<Step>, n: nat)
    requires n <= |steps| && ApartRun(steps)
    ensures ApartRun(steps[..n])
  {
    forall k | 0 <= k <= n ensures ApartAt(steps[..n], k) {
      assert ApartAt(steps, k) && steps[..n][..k] == steps[..k];
    }
  }

  /** The state a run ends in needs only that its processes were apart before each step. */
  lemma {:induction false} AlwaysRepaired(steps: seq<Step>)
    requires steps == [] || ApartRun(steps[..|steps| - 1])
    requires Unambiguous(Reach(steps))
    ensures Repaired(Reach(steps))
  {
    if steps != [] {
      var n := |steps| - 1;
      var before := steps[..n];
      UnambiguousBefore(Reach(before), steps[n]);
      if before != [] {
        ApartBefore(before, n - 1);
      }
      AlwaysRepaired(before);
      AlwaysGood(before);
      AlwaysMarked(before);
      assert ApartAt(before, n) && before[..n] == before;
      StepKeepsRepaired(Reach(before), steps[n]);
    }
  }

  lemma {:induction false} UnambiguousAllAlong(steps: seq<Step>, n: nat)
    requires n <= |steps| && Unambiguous(Reach(steps))
    ensures Unambiguous(Reach(steps[..n]))
  {
    if n < |steps| {
      var last := |steps| - 1;
      UnambiguousBefore(Reach(steps[..last]), steps[last]);
      UnambiguousAllAlong(steps[..last], n);
      assert steps[..last][..n] == steps[..n];
    } else {
      assert steps[..n] == steps;
    }
  }

  /**
   * Under any pattern of failing raises, failing links and lookups, and concurrent decisions: as long as no two
   * processes are past their decision to raise for one row, and free text quotes no other approval's marker,
   * each approval is escalated at most once and every stored link is to its own escalation.
   */
  lemma ApartEscalatesOnce(steps: seq<Step>)
    requires ApartRun(steps) && Unambiguous(Reach(steps))
    ensures OnePerApproval(Reach(steps)) && LinksRight(Reach(steps))
  {
    if steps != [] {
      ApartBefore(steps, |steps| - 1);
    }
    AlwaysRepaired(steps);
  }

  // ---------------------------------------------------------------------------------------------
  // And only then
  // ---------------------------------------------------------------------------------------------

  /** The raise of a process, whichever kind it is; at any other point it changes nothing. */
  function RaiseNow(s: State, p: Pid): State
  {
    if ProcOf(s, p).Escalating? then Apply(s, Escalate(p, true, "")) else Apply(s, BackfillRaise(p, true, ""))
  }

  /** Two processes that raise next, one after the other, would escalate some approval twice. */
  ghost predicate CanEscalateTwice(s: State)
  {
    exists p, q :: EscalatesTwice(s, p, q)
  }

  ghost predicate EscalatesTwice(s: State, p: Pid, q: Pid)
  {
    p != q && Unambiguous(RaiseNow(RaiseNow(s, p), q)) && !OnePerApproval(RaiseNow(RaiseNow(s, p), q))
  }

  ghost predicate SafeAt(steps: seq<Step>, n: nat)
    requires n <= |steps|
  {
    !CanEscalateTwice(Reach(steps[..n]))
  }

  /** What the raise of a process does for the row it intends; and that no other process notices. */
  lemma RaiseNowFact(s: State, p: Pid, id: RowId)
    requires Good(s) && Intends(ProcOf(s, p), id)
    ensures id < |s.rows| && RaiseNow(s, p).rows == s.rows && RaiseNow(s, p).escs == RaiseEscalation(s, id, "").escs
  {
    assert ProcGood(s, ProcOf(s, p));
  }

  lemma RaiseNowIsLocal(s: State, p: Pid, q: Pid)
    requires p != q
    ensures ProcOf(RaiseNow(s, p), q) == ProcOf(s, q)
  {
  }

  lemma RaisersIntend(s: State, p: Pid)
    requires RaiseNow(s, p).escs != s.escs
    ensures exists id: RowId :: Intends(ProcOf(s, p), id)
  {
    if ProcOf(s, p).Escalating? {
      assert Intends(ProcOf(s, p), ProcOf(s, p).id);
    } else {
      assert Intends(ProcOf(s, p), ProcOf(s, p).stale[0]);
    }
  }

  lemma EmptyTextQuotesNothing(uuid: string)
    ensures !Contains("", Marker(uuid))
  {
  }

  lemma RaisedUnambiguous(s: State, s': State, id: RowId)
    requires Unambiguous(s) && id < |s.rows| && s'.rows == s.rows && s'.escs == RaiseEscalation(s, id, "").escs
    ensures Unambiguous(s')
  {
    forall i, x | 0 <= i < |s'.escs| && 0 <= x < |s'.rows| && s'.escs[i].about != Some(x)
      ensures !Contains(s'.escs[i].text, Marker(s'.rows[x].uuid))
    {
      EmptyTextQuotesNothing(s'.rows[x].uuid);
    }
  }

  /** Two processes past their decision for one row do escalate it twice, if their raises come next. */
  lemma SharedIntentShows(s: State, p: Pid, q: Pid, id: RowId)
    requires Good(s) && Unambiguous(s) && p != q && Intends(ProcOf(s, p), id) && Intends(ProcOf(s, q), id)
    ensures EscalatesTwice(s, p, q)
  {
    RaiseNowFact(s, p, id);
    RaiseNowIsLocal(s, p, q);
    var s1 := RaiseNow(s, p);
    RaiseNowGood(s, p);
    RaiseNowFact(s1, q, id);
    RaisedUnambiguous(s, s1, id);
    RaisedUnambiguous(s1, RaiseNow(s1, q), id);
    var n := |s.escs|;
    assert RaiseNow(s1, q).escs[n].about == Some(id) && RaiseNow(s1, q).escs[n + 1].about == Some(id);
  }

  lemma RaiseNowGood(s: State, p: Pid)
    requires Good(s)
    ensures Good(RaiseNow(s, p))
  {
    StepKeepsGood(s, Escalate(p, true, ""));
    StepKeepsGood(s, BackfillRaise(p, true, ""));
  }

  lemma RaiseNowRepaired(s: State, p: Pid)
    requires Repaired(s) && Good(s) && Apart(s)
    ensures Repaired(RaiseNow(s, p))
  {
    EscalateKeepsRepaired(s, p, true, "");
    RepairRaiseKeepsRepaired(s, p, true, "");
  }

  /** After `p` has raised, `q` still has the field to itself. */
  lemma ApartRaisesShowNothing(s: State, p: Pid, q: Pid)
    requires Repaired(s) && Good(s) && Apart(s) && p != q
    ensures OnePerApproval(RaiseNow(RaiseNow(s, p), q))
  {
    var s1 := RaiseNow(s, p);
    RaiseNowGood(s, p);
    RaiseNowRepaired(s, p);
    assert Purposeful(s1, ProcOf(s1, q));
    if RaiseNow(s1, q).escs != s1.escs {
      RaisersIntend(s1, q);
      var id: RowId :| Intends(ProcOf(s1, q), id);
      RaiseNowFact(s1, q, id);
      assert NoneAbout(s1, id);
    }
  }

  /**
   * The condition is exact. In a run whose free text quotes no other approval's marker, no two raises that can
   * come next ever escalate one approval twice, at any point of the run, if and only if no two processes are
   * ever both past their decision to raise for one row.
   */
  lemma EscalatesOnceExactlyWhenApart(steps: seq<Step>)
    requires Unambiguous(Reach(steps))
    ensures ApartRun(steps) <==> forall n | 0 <= n <= |steps| :: SafeAt(steps, n)
  {
    if ApartRun(steps) {
      forall n | 0 <= n <= |steps| ensures SafeAt(steps, n) {
        ApartIsSafe(steps, n);
      }
    } else {
      var n :| 0 <= n <= |steps| && !ApartAt(steps, n);
      SharedIntentIsUnsafe(steps, n);
    }
  }

  lemma ApartIsSafe(steps: seq<Step>, n: nat)
    requires Unambiguous(Reach(steps)) && ApartRun(steps) && n <= |steps|
    ensures SafeAt(steps, n)
  {
    var s := Reach(steps[..n]);
    UnambiguousAllAlong(steps, n);
    ApartBefore(steps, n);
    if n > 0 {
      ApartBefore(steps, n - 1);
      assert steps[..n][..n - 1] == steps[..n - 1];
    }
    AlwaysRepaired(steps[..n]);
    AlwaysGood(steps[..n]);
    assert ApartAt(steps, n);
    forall p, q ensures !EscalatesTwice(s, p, q) {
      if p != q {
        ApartRaisesShowNothing(s, p, q);
      }
    }
  }

  lemma SharedIntentIsUnsafe(steps: seq<Step>, n: nat)
    requires Unambiguous(Reach(steps)) && n <= |steps| && !ApartAt(steps, n)
    ensures !SafeAt(steps, n)
  {
    var s := Reach(steps[..n]);
    UnambiguousAllAlong(steps, n);
    AlwaysGood(steps[..n]);
    var p, q, id: RowId :| p != q && Intends(ProcOf(s, p), id) && Intends(ProcOf(s, q), id);
    SharedIntentShows(s, p, q, id);
  }

  // ---------------------------------------------------------------------------------------------
  // A coarser schedule that keeps processes apart
  // ---------------------------------------------------------------------------------------------

  /** Gates never share a row: only the raise that creates it escalates it from a gate. */
  lemma {:induction false} AlwaysGatesApart(steps: seq<Step>)
    ensures GatesApart(Reach(steps))
  {
    if steps != [] {
      var s, step := Reach(steps[..|steps| - 1]), steps[|steps| - 1];
      AlwaysGatesApart(steps[..|steps| - 1]);
      AlwaysGood(steps[..|steps| - 1]);
      StepKeepsGatesApart(s, step);
    }
  }

  lemma StepKeepsGatesApart(s: State, step: Step)
    requires Good(s) && GatesApart(s)
    ensures GatesApart(Apply(s, step))
  {
    var s' := Apply(s, step);
    forall q
      ensures ProcOf(s', q).Escalating? ==> ProcOf(s', q) == ProcOf(s, q) || (step.Raise? && q == step.p && ProcOf(s', q).id == |s.rows|)
    {
      if ProcOf(s', q).Escalating? {
        OnlyRaiseStartsEscalating(s, step, q);
      }
    }
    forall q, r | q != r && ProcOf(s', q).Escalating? && ProcOf(s', r).Escalating?
      ensures ProcOf(s', q).id != ProcOf(s', r).id
    {
      assert ProcGood(s, ProcOf(s, q)) && ProcGood(s, ProcOf(s, r));
    }
  }

  lemma OnlyRaiseStartsEscalating(s: State, step: Step, q: Pid)
    requires ProcOf(Apply(s, step), q).Escalating?
    ensures ProcOf(Apply(s, step), q) == ProcOf(s, q)
            || (step.Raise? && q == step.p && ProcOf(Apply(s, step), q).id == |s.rows|)
  {
  }

  lemma {:induction false} ExclusiveIsApart(steps: seq<Step>)
    requires ExclusiveRun(steps)
    ensures ApartRun(steps)
  {
    forall n | 0 <= n <= |steps| ensures ApartAt(steps, n) {
      if n == |steps| {
        assert steps[..n] == steps;
        AlwaysGatesApart(steps);
        ExclusiveGatesApart(Reach(steps));
      } else {
        var before := steps[..|steps| - 1];
        ExclusiveIsApart(before);
        assert ApartAt(before, n) && before[..n] == steps[..n];
      }
    }
  }

  lemma ExclusiveGatesApart(s: State)
    requires Exclusive(s) && GatesApart(s)
    ensures Apart(s)
  {
    forall p, q, id: RowId | p != q && Intends(ProcOf(s, p), id) ensures !Intends(ProcOf(s, q), id) {
      if ProcOf(s, p).Escalating? {
        assert !(ProcOf(s, q).Backfilling? && ProcOf(s, p).Escalating?);
      }
    }
  }

  /** In particular passes that run one at a time, and never beside an unfinished raise, escalate once. */
  lemma EscalatedAtMostOnce(steps: seq<Step>)
    requires ExclusiveRun(steps) && Unambiguous(Reach(steps))
    ensures OnePerApproval(Reach(steps)) && LinksRight(Reach(steps))
  {
    ExclusiveIsApart(steps);
    ApartEscalatesOnce(steps);
  }

  /** What every backfill pass reports adds up: when it ends, each row it examined is in exactly one counter. */
  lemma BackfillAccounts(steps: seq<Step>, p: Pid)
    requires ProcOf(Reach(steps), p).Backfilling?
    ensures var proc := ProcOf(Reach(steps), p);
            proc.backfill.examined
            == |proc.stale| + proc.backfill.raised + proc.backfill.linked + proc.backfill.raced + proc.backfill.failed
  {
    AlwaysGood(steps);
    assert ProcGood(Reach(steps), ProcOf(Reach(steps), p));
  }

  // ---------------------------------------------------------------------------------------------
  // Why the raise must not overlap a pass
  // ---------------------------------------------------------------------------------------------

  /** Any well-formed id; the class is registered nowhere, so the request parks. */
  function Unregistered(uuid: string): Request
  {
    Request(uuid, "unknown", map[], 0, 0)
  }

  /** One parked row, which process 0 has yet to escalate; process 1 is at `proc`. */
  ghost predicate Midway(s: State, uuid: string, proc: Proc)
  {
    && |s.rows| == 1 && s.rows[0] == NewRow(Unregistered(uuid))
    && ProcOf(s, 0) == Escalating(0) && ProcOf(s, 1) == proc
  }

  const WORKING := BackfillTally(1, 0, 0, 0, 0)

  lemma PassReadsRow(uuid: string) returns (s: State)
    requires WellFormedId(uuid)
    ensures s == Apply(Apply(INITIAL, Raise(0, Unregistered(uuid))), BackfillRead(1, 0, [0]))
    ensures Midway(s, uuid, Backfilling([0], ToFind, WORKING)) && s.escs == []
  {
    var raised := Apply(INITIAL, Raise(0, Unregistered(uuid)));
    assert Midway(raised, uuid, Idle) && raised.escs == [];
    assert IsStaleBatch(raised.rows, 0, [0]);
    s := Apply(raised, BackfillRead(1, 0, [0]));
  }

  lemma PassFindsNothing(s: State, uuid: string)
    requires Midway(s, uuid, Backfilling([0], ToFind, WORKING)) && s.escs == []
    ensures var s' := Apply(s, BackfillFind(1, true));
            Midway(s', uuid, Backfilling([0], ToRaise, WORKING)) && s'.escs == []
  {
  }

  lemma BothRaise(s: State, uuid: string)
    requires Midway(s, uuid, Backfilling([0], ToRaise, WORKING)) && s.escs == []
    ensures var s' := Apply(Apply(s, BackfillRaise(1, true, "")), Escalate(0, true, ""));
            |s'.escs| == 2 && s'.escs[0].about == s'.escs[1].about == Some(0) && |s'.rows| == 1
  {
    var paged := Apply(s, BackfillRaise(1, true, ""));
    assert |paged.escs| == 1 && paged.escs[0].about == Some(0) && ProcOf(paged, 0) == Escalating(0);
  }

  function OverlapTrace(uuid: string): seq<Step>
  {
    [Raise(0, Unregistered(uuid)), BackfillRead(1, 0, [0]), BackfillFind(1, true), BackfillRaise(1, true, ""), Escalate(0, true, "")]
  }

  /**
   * A pass that finds the row before the gate has escalated it pages for it, and then so does the gate: the
   * same approval is escalated twice although every write succeeds.
   */
  lemma OverlapEscalatesTwice(uuid: string)
    requires WellFormedId(uuid)
    ensures !OnePerApproval(Reach(OverlapTrace(uuid))) && Unambiguous(Reach(OverlapTrace(uuid)))
  {
    var s := PassReadsRow(uuid);
    PassFindsNothing(s, uuid);
    BothRaise(Apply(s, BackfillFind(1, true)), uuid);
    ReachFive(OverlapTrace(uuid));
    TwoAboutOne(Reach(OverlapTrace(uuid)));
  }

  lemma TwoAboutOne(s: State)
    requires |s.escs| == 2 && s.escs[0].about == s.escs[1].about == Some(0) && |s.rows| == 1
    ensures !OnePerApproval(s) && Unambiguous(s)
  {
    assert s.escs[0].about == s.escs[1].about;
  }

  lemma ReachFive(steps: seq<Step>)
    requires |steps| == 5
    ensures Reach(steps) == Apply(Apply(Apply(Apply(Apply(INITIAL, steps[0]), steps[1]), steps[2]), steps[3]), steps[4])
  {
    forall n | 0 <= n < 5 ensures Reach(steps[..n + 1]) == Apply(Reach(steps[..n]), steps[n]) {
      assert steps[..n + 1][..n] == steps[..n];
    }
    assert steps[..5] == steps && steps[..0] == [];
    assert Reach(steps[..1]) == Apply(INITIAL, steps[0]);
    assert Reach(steps[..2]) == Apply(Reach(steps[..1]), steps[1]);
    assert Reach(steps[..3]) == Apply(Reach(steps[..2]), steps[2]);
    assert Reach(steps[..4]) == Apply(Reach(steps[..3]), steps[3]);
    assert Reach(steps[..5]) == Apply(Reach(steps[..4]), steps[4]);
  }

  // ---------------------------------------------------------------------------------------------
  // Why passes must not overlap each other
  // ---------------------------------------------------------------------------------------------

  /** One parked row nobody has escalated, its gate finished, and two passes at these points. */
  ghost predicate BothAt(s: State, uuid: string, first: Proc, second: Proc)
  {
    && |s.rows| == 1 && s.rows[0] == NewRow(Unregistered(uuid)) && s.escs == []
    && ProcOf(s, 0) == Idle && ProcOf(s, 1) == first && ProcOf(s, 2) == second
  }

  lemma GateGivesUp(uuid: string)
    requires WellFormedId(uuid)
    ensures BothAt(Apply(Apply(INITIAL, Raise(0, Unregistered(uuid))), Escalate(0, false, "")), uuid, Idle, Idle)
  {
    var raised := Apply(INITIAL, Raise(0, Unregistered(uuid)));
    assert Midway(raised, uuid, Idle) && raised.escs == [] && ProcOf(raised, 2) == Idle;
  }

  lemma BothRead(s: State, uuid: string)
    requires BothAt(s, uuid, Idle, Idle)
    ensures BothAt(Apply(Apply(s, BackfillRead(1, 0, [0])), BackfillRead(2, 0, [0])), uuid,
                   Backfilling([0], ToFind, WORKING), Backfilling([0], ToFind, WORKING))
  {
    assert IsStaleBatch(s.rows, 0, [0]);
    assert BothAt(Apply(s, BackfillRead(1, 0, [0])), uuid, Backfilling([0], ToFind, WORKING), Idle);
  }

  lemma BothFindNothing(s: State, uuid: string)
    requires BothAt(s, uuid, Backfilling([0], ToFind, WORKING), Backfilling([0], ToFind, WORKING))
    ensures BothAt(Apply(Apply(s, BackfillFind(1, true)), BackfillFind(2, true)), uuid,
                   Backfilling([0], ToRaise, WORKING), Backfilling([0], ToRaise, WORKING))
  {
    assert BothAt(Apply(s, BackfillFind(1, true)), uuid, Backfilling([0], ToRaise, WORKING), Backfilling([0], ToFind, WORKING));
  }

  lemma BothPassesRaise(s: State, uuid: string)
    requires BothAt(s, uuid, Backfilling([0], ToRaise, WORKING), Backfilling([0], ToRaise, WORKING))
    ensures var s' := Apply(Apply(s, BackfillRaise(1, true, "")), BackfillRaise(2, true, ""));
            |s'.escs| == 2 && s'.escs[0].about == s'.escs[1].about == Some(0) && |s'.rows| == 1
  {
    var paged := Apply(s, BackfillRaise(1, true, ""));
    assert |paged.escs| == 1 && paged.escs[0].about == Some(0) && ProcOf(paged, 2) == ProcOf(s, 2);
  }

  lemma ReachOneMore(steps: seq<Step>, step: Step)
    ensures Reach(steps + [step]) == Apply(Reach(steps), step)
  {
    assert (steps + [step])[..|steps|] == steps;
  }

  lemma ReachTwoMore(steps: seq<Step>, a: Step, b: Step)
    ensures Reach(steps + [a, b]) == Apply(Apply(Reach(steps), a), b)
  {
    ReachOneMore(steps, a);
    ReachOneMore(steps + [a], b);
    assert steps + [a, b] == steps + [a] + [b];
  }

  function GateFails(uuid: string): seq<Step>
  {
    [Raise(0, Unregistered(uuid)), Escalate(0, false, "")]
  }

  function PassesRead(uuid: string): seq<Step>
  {
    GateFails(uuid) + [BackfillRead(1, 0, [0]), BackfillRead(2, 0, [0])]
  }

  function PassesFind(uuid: string): seq<Step>
  {
    PassesRead(uuid) + [BackfillFind(1, true), BackfillFind(2, true)]
  }

  /** The gate's own raise fails; then two passes read, search and raise side by side. */
  function TwoPassTrace(uuid: string): seq<Step>
  {
    PassesFind(uuid) + [BackfillRaise(1, true, ""), BackfillRaise(2, true, "")]
  }

  lemma AfterGateFails(uuid: string)
    requires WellFormedId(uuid)
    ensures BothAt(Reach(GateFails(uuid)), uuid, Idle, Idle)
  {
    GateGivesUp(uuid);
    ReachTwoMore([], Raise(0, Unregistered(uuid)), Escalate(0, false, ""));
    assert [] + GateFails(uuid) == GateFails(uuid);
  }

  lemma AfterPassesRead(uuid: string)
    requires WellFormedId(uuid)
    ensures BothAt(Reach(PassesRead(uuid)), uuid, Backfilling([0], ToFind, WORKING), Backfilling([0], ToFind, WORKING))
  {
    AfterGateFails(uuid);
    BothRead(Reach(GateFails(uuid)), uuid);
    ReachTwoMore(GateFails(uuid), BackfillRead(1, 0, [0]), BackfillRead(2, 0, [0]));
  }

  lemma AfterPassesFind(uuid: string)
    requires WellFormedId(uuid)
    ensures BothAt(Reach(PassesFind(uuid)), uuid, Backfilling([0], ToRaise, WORKING), Backfilling([0], ToRaise, WORKING))
  {
    AfterPassesRead(uuid);
    BothFindNothing(Reach(PassesRead(uuid)), uuid);
    ReachTwoMore(PassesRead(uuid), BackfillFind(1, true), BackfillFind(2, true));
  }

  /**
   * Two passes over the same row, neither beside an unfinished raise: both search before either has raised, and
   * both page.
   */
  lemma OverlappingPassesEscalateTwice(uuid: string)
    requires WellFormedId(uuid)
    ensures !OnePerApproval(Reach(TwoPassTrace(uuid))) && Unambiguous(Reach(TwoPassTrace(uuid)))
  {
    AfterPassesFind(uuid);
    BothPassesRaise(Reach(PassesFind(uuid)), uuid);
    ReachTwoMore(PassesFind(uuid), BackfillRaise(1, true, ""), BackfillRaise(2, true, ""));
    TwoAboutOne(Reach(TwoPassTrace(uuid)));
  }

  // ---------------------------------------------------------------------------------------------
  // Why free text must not quote another approval's marker
  // ---------------------------------------------------------------------------------------------

  /** The first gate's raise fails; the second row's prose quotes the first row's marker. */
  function Quoted(a: string, b: string): seq<Step>
  {
    GateFails(a) + [Raise(0, Unregistered(b)), Escalate(0, true, Marker(a))]
  }

  /** The second gate finishes; then one pass alone looks for the first row's escalation and links what it finds. */
  function QuotedThenPass(a: string, b: string): seq<Step>
  {
    Quoted(a, b) + [Link(0, true), BackfillRead(1, 0, [0])]
  }

  function MisledTrace(a: string, b: string): seq<Step>
  {
    QuotedThenPass(a, b) + [BackfillFind(1, true), BackfillLink(1, true)]
  }

  /** Two rows, one escalation, about the second, quoting the first; and the processes at these points. */
  ghost predicate QuotedAt(s: State, a: string, b: string, gate: Proc, pass: Proc)
  {
    && |s.rows| == 2 && s.rows[0] == NewRow(Unregistered(a)) && s.rows[1].uuid == b && s.rows[1].createdAt == 0
    && |s.escs| == 1 && s.escs[0] == Escalation(Detail(Marker(a), b), Some(1), Marker(a))
    && ProcOf(s, 0) == gate && ProcOf(s, 1) == pass
  }

  lemma SecondRowRaised(s: State, a: string, b: string)
    requires WellFormedId(b) && a != b && BothAt(s, a, Idle, Idle)
    ensures var raised := Apply(s, Raise(0, Unregistered(b)));
            && |raised.rows| == 2 && raised.rows[0] == NewRow(Unregistered(a)) && raised.rows[1] == NewRow(Unregistered(b))
            && raised.escs == [] && ProcOf(raised, 0) == Escalating(1) && ProcOf(raised, 1) == Idle
  {
    assert Fresh(s, Unregistered(b));
  }

  lemma SecondGateQuotes(s: State, a: string, b: string)
    requires WellFormedId(b) && a != b && BothAt(s, a, Idle, Idle)
    ensures QuotedAt(Apply(Apply(s, Raise(0, Unregistered(b))), Escalate(0, true, Marker(a))), a, b, Linking(1, 0), Idle)
  {
    SecondRowRaised(s, a, b);
  }

  lemma SecondGateLinks(s: State, a: string, b: string)
    requires QuotedAt(s, a, b, Linking(1, 0), Idle) && s.rows[1] == NewRow(Unregistered(b))
    ensures var linked := Apply(s, Link(0, true));
            QuotedAt(linked, a, b, Idle, Idle) && linked.rows[1].escalation == Some(0)
  {
  }

  lemma OnePassReads(s: State, a: string, b: string)
    requires QuotedAt(s, a, b, Idle, Idle) && s.rows[1].escalation.Some?
    ensures QuotedAt(Apply(s, BackfillRead(1, 0, [0])), a, b, Idle, Backfilling([0], ToFind, WORKING))
  {
    assert IsStaleBatch(s.rows, 0, [0]);
  }

  lemma PassFindsQuote(s: State, a: string, b: string)
    requires QuotedAt(s, a, b, Idle, Backfilling([0], ToFind, WORKING))
    ensures QuotedAt(Apply(s, BackfillFind(1, true)), a, b, Idle, Backfilling([0], ToLink(0, false), WORKING))
  {
    assert OccursAt(Detail(Marker(a), b), Marker(a), 0);
    assert Contains(s.escs[0].detail, Marker(a));
    assert FindEscalation(s.escs, a) == Some(0);
  }

  lemma PassLinksQuote(s: State, a: string, b: string)
    requires QuotedAt(s, a, b, Idle, Backfilling([0], ToLink(0, false), WORKING))
    ensures var s' := Apply(s, BackfillLink(1, true));
            && |s'.rows| == 2 && s'.rows[0].escalation == Some(0) && s'.escs == s.escs
  {
  }

  lemma AfterQuoted(a: string, b: string)
    requires WellFormedId(a) && WellFormedId(b) && a != b
    ensures QuotedAt(Reach(Quoted(a, b)), a, b, Linking(1, 0), Idle) && Reach(Quoted(a, b)).rows[1] == NewRow(Unregistered(b))
  {
    AfterGateFails(a);
    SecondRowRaised(Reach(GateFails(a)), a, b);
    SecondGateQuotes(Reach(GateFails(a)), a, b);
    ReachTwoMore(GateFails(a), Raise(0, Unregistered(b)), Escalate(0, true, Marker(a)));
  }

  lemma AfterQuotedThenPass(a: string, b: string)
    requires WellFormedId(a) && WellFormedId(b) && a != b
    ensures QuotedAt(Reach(QuotedThenPass(a, b)), a, b, Idle, Backfilling([0], ToFind, WORKING))
  {
    AfterQuoted(a, b);
    SecondGateLinks(Reach(Quoted(a, b)), a, b);
    OnePassReads(Apply(Reach(Quoted(a, b)), Link(0, true)), a, b);
    ReachTwoMore(Quoted(a, b), Link(0, true), BackfillRead(1, 0, [0]));
  }

  /**
   * A quoted marker misleads a pass that nothing overlaps: the first approval, whose own raise failed, is linked
   * to the second one's escalation, and is never escalated itself.
   */
  lemma QuotedMarkerMisleads(a: string, b: string)
    requires WellFormedId(a) && WellFormedId(b) && a != b
    ensures var s := Reach(MisledTrace(a, b));
            !LinksRight(s) && 0 < |s.rows| && s.rows[0].escalation.Some? && NoneAbout(s, 0)
  {
    AfterQuotedThenPass(a, b);
    var s := Reach(QuotedThenPass(a, b));
    PassFindsQuote(s, a, b);
    PassLinksQuote(Apply(s, BackfillFind(1, true)), a, b);
    ReachTwoMore(QuotedThenPass(a, b), BackfillFind(1, true), BackfillLink(1, true));
    var misled := Reach(MisledTrace(a, b));
    assert !About(misled, 0, 0);
  }
}
