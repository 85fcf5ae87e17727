/**
 * The approval gate as one transition system (`approval-gate.service.ts`).
 *
 * Every database operation is one atomic step, and each process keeps between its steps what it last read.
 * Any number of raises, decisions, sweeps, supersessions and backfill passes interleave. A step whose process
 * is not at the right point changes nothing. Each call brings its own reading of the clock, and nothing makes
 * two readings agree.
 */
module Approvals {
  import opened Base
  import opened TimeoutPolicy
  import opened Markers

  type RowId = nat
  type EscId = nat
  type Pid = nat
  type User = nat

  datatype Status = Pending | Parked | Approved | Denied | AutoApproved | AutoDenied | Superseded

  datatype Via = Human | Timeout | Grant

  /** One resolving write: who made it, and when. */
  datatype Write =
    | HumanWrite(approve: bool, user: User, at: int)
    | ClockWrite(approve: bool, at: int)
    | GrantWrite(at: int)
    | SupersedeWrite(at: int)

  /**
   * An `ApprovalRequest` row.
   *
   * `registry`, `raisedAt` and `writes` are history no statement reads: the action classes as they stood when
   * the row was raised, the raise's own clock, and every write that ever resolved the row.
   */
  datatype Row = Row(
    uuid: string, actionClass: string, timeoutPolicy: Policy, timeoutAt: Option<int>, createdAt: int,
    status: Status, decidedAt: Option<int>, decidedBy: Option<User>, decidedVia: Option<Via>,
    escalation: Option<EscId>, registry: Registry, raisedAt: int, writes: seq<Write>)

  /** A system escalation. `about` and `text` are history: whose it is, and its free text without the marker. */
  datatype Escalation = Escalation(detail: string, about: Option<RowId>, text: string)

  datatype Reason = WasSuperseded | AlreadyTimedOut | AlreadyAuthorizedByGrant | AlreadyDecidedByHuman | NotPending

  /** How a `decide` call that found its row ended. */
  datatype Verdict =
    | Won(id: RowId, approve: bool, user: User, at: int)
    | Lost(id: RowId, reason: Reason)

  datatype Due = Due(id: RowId, policy: Policy)

  datatype SweepTally = SweepTally(examined: nat, autoApproved: nat, autoDenied: nat, skippedParked: nat, raced: nat)

  datatype BackfillTally = BackfillTally(examined: nat, raised: nat, linked: nat, raced: nat, failed: nat)

  datatype Stage = ToFind | ToRaise | ToLink(esc: EscId, raisedHere: bool)

  datatype Proc =
    | Idle
    | Escalating(id: RowId)
    | Linking(id: RowId, esc: EscId)
    | Deciding(id: RowId, approve: bool, user: User, now: int)
    | Losing(id: RowId)
    | Sweeping(now: int, due: seq<Due>, sweep: SweepTally)
    | Backfilling(stale: seq<RowId>, stage: Stage, backfill: BackfillTally)

  datatype State = State(rows: seq<Row>, escs: seq<Escalation>, procs: map<Pid, Proc>, verdicts: seq<Verdict>)

  /** What a raise knows: the class as the registry has it at that moment, its clock, and the new row's id. */
  datatype Request = Request(uuid: string, actionClass: string, registry: Registry, now: int, createdAt: int)

  datatype Step =
    | Authorize(request: Request)
    | Raise(p: Pid, request: Request)
    | Escalate(p: Pid, ok: bool, text: string)
    | Link(p: Pid, ok: bool)
    | EscalateOther(text: string)
    | DecideRead(p: Pid, id: RowId, approve: bool, user: User, now: int)
    | DecideWrite(p: Pid)
    | DecideReread(p: Pid)
    | SweepRead(p: Pid, now: int, due: seq<RowId>)
    | SweepWrite(p: Pid)
    | SweepEnd(p: Pid)
    | Supersede(id: RowId, now: int)
    | BackfillRead(p: Pid, now: int, stale: seq<RowId>)
    | BackfillFind(p: Pid, ok: bool)
    | BackfillRaise(p: Pid, ok: bool, text: string)
    | BackfillLink(p: Pid, ok: bool)
    | BackfillEnd(p: Pid)

  const SWEEP_BATCH_LIMIT := 200
  const BACKFILL_BATCH_LIMIT := 25
  const BACKFILL_WINDOW := 24 * 60 * 60 * 1000

  // ---------------------------------------------------------------------------------------------
  // Reads
  // ---------------------------------------------------------------------------------------------

  predicate Open(s: Status)
  {
    s.Pending? || s.Parked?
  }

  /** `notPendingFor`. */
  function NotPendingFor(r: Row): Reason
  {
    if r.status.Superseded? then WasSuperseded
    else if r.status.AutoApproved? || r.status.AutoDenied? then AlreadyTimedOut
    else if r.decidedVia == Some(Grant) then AlreadyAuthorizedByGrant
    else if r.decidedVia == Some(Human) then AlreadyDecidedByHuman
    else NotPending
  }

  predicate IsDue(r: Row, now: int)
  {
    r.status.Pending? && r.timeoutAt.Some? && r.timeoutAt.value <= now
  }

  predicate IsStale(r: Row, now: int)
  {
    r.status.Parked? && r.escalation.None? && r.createdAt >= now - BACKFILL_WINDOW
  }

  /** Distinct rows of the table. */
  predicate Selects(rows: seq<Row>, ids: seq<RowId>)
  {
    && (forall i | 0 <= i < |ids| :: ids[i] < |rows|)
    && (forall i, j | 0 <= i < j < |ids| :: ids[i] != ids[j])
  }

  /** The sweep's query: due rows by deadline, at most the limit; a due row left out comes no earlier than those taken. */
  predicate IsDueBatch(rows: seq<Row>, now: int, due: seq<RowId>)
  {
    && Selects(rows, due) && |due| <= SWEEP_BATCH_LIMIT
    && (forall i | 0 <= i < |due| :: IsDue(rows[due[i]], now))
    && (forall i, j | 0 <= i < j < |due| :: rows[due[i]].timeoutAt.value <= rows[due[j]].timeoutAt.value)
    && (forall k | 0 <= k < |rows| && IsDue(rows[k], now) && k !in due ::
          |due| == SWEEP_BATCH_LIMIT && forall i | 0 <= i < |due| :: rows[due[i]].timeoutAt.value <= rows[k].timeoutAt.value)
  }

  /** The backfill's query, likewise by age. */
  predicate IsStaleBatch(rows: seq<Row>, now: int, stale: seq<RowId>)
  {
    && Selects(rows, stale) && |stale| <= BACKFILL_BATCH_LIMIT
    && (forall i | 0 <= i < |stale| :: IsStale(rows[stale[i]], now))
    && (forall i, j | 0 <= i < j < |stale| :: rows[stale[i]].createdAt <= rows[stale[j]].createdAt)
    && (forall k | 0 <= k < |rows| && IsStale(rows[k], now) && k !in stale ::
          |stale| == BACKFILL_BATCH_LIMIT && forall i | 0 <= i < |stale| :: rows[stale[i]].createdAt <= rows[k].createdAt)
  }

  /** `findEscalationFor`: the oldest escalation whose detail contains the row's marker. */
  function FindEscalation(escs: seq<Escalation>, uuid: string): (found: Option<EscId>)
    ensures found.Some? ==>
              && found.value < |escs| && Contains(escs[found.value].detail, Marker(uuid))
              && forall i | 0 <= i < found.value :: !Contains(escs[i].detail, Marker(uuid))
    ensures found.None? ==> forall i | 0 <= i < |escs| :: !Contains(escs[i].detail, Marker(uuid))
  {
    if escs == [] then None
    else
      var last := |escs| - 1;
      var earlier := FindEscalation(escs[..last], uuid);
      if earlier.Some? then earlier
      else if Contains(escs[last].detail, Marker(uuid)) then Some(last)
      else None
  }

  function ProcOf(s: State, p: Pid): Proc
  {
    if p in s.procs then s.procs[p] else Idle
  }

  // ---------------------------------------------------------------------------------------------
  // Statements
  // ---------------------------------------------------------------------------------------------

  function At(s: State, p: Pid, proc: Proc): State
  {
    s.(procs := s.procs[p := proc])
  }

  /** One resolving write on a row. */
  function Resolve(r: Row, w: Write): Row
  {
    var resolved := r.(writes := r.writes + [w]);
    match w
    case HumanWrite(approve, user, at) =>
      resolved.(status := if approve then Approved else Denied, decidedAt := Some(at), decidedBy := Some(user), decidedVia := Some(Human))
    case ClockWrite(approve, at) =>
      resolved.(status := if approve then AutoApproved else AutoDenied, decidedAt := Some(at), decidedBy := None, decidedVia := Some(Timeout))
    case GrantWrite(at) =>
      resolved.(status := Approved, decidedAt := Some(at), decidedBy := None, decidedVia := Some(Grant))
    case SupersedeWrite(at) =>
      resolved.(status := Superseded, decidedAt := Some(at), decidedBy := None, decidedVia := None)
  }

  function ResolveAt(s: State, id: RowId, w: Write): State
    requires id < |s.rows|
  {
    s.(rows := s.rows[id := Resolve(s.rows[id], w)])
  }

  /** A fresh id, in the form the database generates them. */
  predicate Fresh(s: State, request: Request)
  {
    && WellFormedId(request.uuid)
    && forall i | 0 <= i < |s.rows| :: s.rows[i].uuid != request.uuid
  }

  /** What every raise writes before it knows how the request is settled. */
  function NewRow(request: Request): Row
  {
    var policy := ResolveTimeoutPolicy(request.registry, request.actionClass);
    Row(request.uuid, request.actionClass, policy, TimeoutAtFor(policy, request.now), request.createdAt,
        if policy.ParkAndEscalate? then Parked else Pending, None, None, None, None, request.registry, request.now, [])
  }

  /** A row a grant settles on the spot has no timer. */
  function GrantedRow(request: Request): Row
  {
    Resolve(NewRow(request).(timeoutAt := None), GrantWrite(request.now))
  }

  function RaiseEscalation(s: State, id: RowId, text: string): State
    requires id < |s.rows|
  {
    s.(escs := s.escs + [Escalation(Detail(text, s.rows[id].uuid), Some(id), text)])
  }

  /** `linkEscalation`'s guard. */
  predicate Linkable(s: State, id: RowId)
  {
    id < |s.rows| && s.rows[id].status.Parked? && s.rows[id].escalation.None?
  }

  function LinkRow(s: State, id: RowId, esc: EscId): State
  {
    if Linkable(s, id) then s.(rows := s.rows[id := s.rows[id].(escalation := Some(esc))]) else s
  }

  // ---------------------------------------------------------------------------------------------
  // Steps
  // ---------------------------------------------------------------------------------------------

  function GateStep(s: State, step: Step): State
  {
    match step
    case Authorize(request) =>
      if Fresh(s, request) then s.(rows := s.rows + [GrantedRow(request)]) else s
    case Raise(p, request) =>
      if !Fresh(s, request) || !ProcOf(s, p).Idle? then s
      else
        var raised := s.(rows := s.rows + [NewRow(request)]);
        if NewRow(request).status.Parked? then At(raised, p, Escalating(|s.rows|)) else raised
    case Escalate(p, ok, text) =>
      (match ProcOf(s, p)
       case Escalating(id) =>
         if ok && id < |s.rows| then At(RaiseEscalation(s, id, text), p, Linking(id, |s.escs|))
         else At(s, p, Idle)
       case _ => s)
    case Link(p, ok) =>
      (match ProcOf(s, p)
       case Linking(id, esc) => At(if ok then LinkRow(s, id, esc) else s, p, Idle)
       case _ => s)
    case EscalateOther(text) => s.(escs := s.escs + [Escalation(text, None, text)])
    case Supersede(id, now) =>
      if id < |s.rows| && Open(s.rows[id].status) then ResolveAt(s, id, SupersedeWrite(now)) else s
    case _ => s
  }

  function DecideStep(s: State, step: Step): State
  {
    match step
    case DecideRead(p, id, approve, user, now) =>
      if !ProcOf(s, p).Idle? || id >= |s.rows| then s
      else if Open(s.rows[id].status) then At(s, p, Deciding(id, approve, user, now))
      else s.(verdicts := s.verdicts + [Lost(id, NotPendingFor(s.rows[id]))])
    case DecideWrite(p) =>
      (match ProcOf(s, p)
       case Deciding(id, approve, user, now) =>
         if id < |s.rows| && Open(s.rows[id].status)
         then At(ResolveAt(s, id, HumanWrite(approve, user, now)), p, Idle).(verdicts := s.verdicts + [Won(id, approve, user, now)])
         else At(s, p, Losing(id))
       case _ => s)
    case DecideReread(p) =>
      (match ProcOf(s, p)
       case Losing(id) =>
         if id < |s.rows| then At(s, p, Idle).(verdicts := s.verdicts + [Lost(id, NotPendingFor(s.rows[id]))])
         else At(s, p, Idle)
       case _ => s)
    case _ => s
  }

  function Snapshot(rows: seq<Row>, ids: seq<RowId>): (due: seq<Due>)
    requires Selects(rows, ids)
    ensures |due| == |ids| && forall i | 0 <= i < |ids| :: due[i] == Due(ids[i], rows[ids[i]].timeoutPolicy)
  {
    seq(|ids|, i requires 0 <= i < |ids| => Due(ids[i], rows[ids[i]].timeoutPolicy))
  }

  function SweepStep(s: State, step: Step): State
  {
    match step
    case SweepRead(p, now, due) =>
      if ProcOf(s, p).Idle? && IsDueBatch(s.rows, now, due)
      then At(s, p, Sweeping(now, Snapshot(s.rows, due), SweepTally(|due|, 0, 0, 0, 0))) else s
    case SweepWrite(p) =>
      (match ProcOf(s, p)
       case Sweeping(now, due, t) =>
         if due == [] then s
         else if due[0].policy.ParkAndEscalate? then At(s, p, Sweeping(now, due[1..], t.(skippedParked := t.skippedParked + 1)))
         else if due[0].id < |s.rows| && s.rows[due[0].id].status.Pending? then
           var approve := due[0].policy.AutoApprove?;
           At(ResolveAt(s, due[0].id, ClockWrite(approve, now)), p,
              Sweeping(now, due[1..], if approve then t.(autoApproved := t.autoApproved + 1) else t.(autoDenied := t.autoDenied + 1)))
         else At(s, p, Sweeping(now, due[1..], t.(raced := t.raced + 1)))
       case _ => s)
    case SweepEnd(p) =>
      (match ProcOf(s, p) case Sweeping(_, due, _) => if due == [] then At(s, p, Idle) else s case _ => s)
    case _ => s
  }

  function BackfillStep(s: State, step: Step): State
  {
    match step
    case BackfillRead(p, now, stale) =>
      if ProcOf(s, p).Idle? && IsStaleBatch(s.rows, now, stale)
      then At(s, p, Backfilling(stale, ToFind, BackfillTally(|stale|, 0, 0, 0, 0))) else s
    case BackfillFind(p, ok) =>
      (match ProcOf(s, p)
       case Backfilling(stale, ToFind, t) =>
         if stale == [] then s
         else if !ok || stale[0] >= |s.rows| then At(s, p, Backfilling(stale[1..], ToFind, t.(failed := t.failed + 1)))
         else
           var found := FindEscalation(s.escs, s.rows[stale[0]].uuid);
           At(s, p, Backfilling(stale, if found.Some? then ToLink(found.value, false) else ToRaise, t))
       case _ => s)
    case BackfillRaise(p, ok, text) =>
      (match ProcOf(s, p)
       case Backfilling(stale, ToRaise, t) =>
         if stale == [] then s
         else if ok && stale[0] < |s.rows|
         then At(RaiseEscalation(s, stale[0], text), p, Backfilling(stale, ToLink(|s.escs|, true), t))
         else At(s, p, Backfilling(stale[1..], ToFind, t.(failed := t.failed + 1)))
       case _ => s)
    case BackfillLink(p, ok) =>
      (match ProcOf(s, p)
       case Backfilling(stale, ToLink(esc, raisedHere), t) =>
         if stale == [] then s
         else
           var t' :=
             if !ok then t.(failed := t.failed + 1)
             else if !Linkable(s, stale[0]) then t.(raced := t.raced + 1)
             else if raisedHere then t.(raised := t.raised + 1)
             else t.(linked := t.linked + 1);
           At(if ok then LinkRow(s, stale[0], esc) else s, p, Backfilling(stale[1..], ToFind, t'))
       case _ => s)
    case BackfillEnd(p) =>
      (match ProcOf(s, p) case Backfilling(stale, ToFind, _) => if stale == [] then At(s, p, Idle) else s case _ => s)
    case _ => s
  }

  predicate IsGateStep(step: Step)
  {
    step.Authorize? || step.Raise? || step.Escalate? || step.Link? || step.EscalateOther? || step.Supersede?
  }

  predicate IsDecideStep(step: Step)
  {
    step.DecideRead? || step.DecideWrite? || step.DecideReread?
  }

  predicate IsSweepStep(step: Step)
  {
    step.SweepRead? || step.SweepWrite? || step.SweepEnd?
  }

  function Apply(s: State, step: Step): State
  {
    if IsGateStep(step) then GateStep(s, step)
    else if IsDecideStep(step) then DecideStep(s, step)
    else if IsSweepStep(step) then SweepStep(s, step)
    else BackfillStep(s, step)
  }

  const INITIAL := State([], [], map[], [])

  /** The state some steps lead to from `s`. */
  function After(s: State, steps: seq<Step>): State
  {
    if steps == [] then s else Apply(After(s, steps[..|steps| - 1]), steps[|steps| - 1])
  }

  function Reach(steps: seq<Step>): State
  {
    After(INITIAL, steps)
  }
}
