/** Per-class approval rates (`approvalRatesByClass`): human verdicts counted exactly, silence and grants never. */
module ApprovalEvidence {
  import opened Base
  import opened TimeoutPolicy
  import opened Approvals
  import opened ApprovalSafety

  /** What the rows are grouped by. */
  datatype Key = Key(actionClass: string, status: Status, decidedVia: Option<Via>)

  datatype Group = Group(key: Key, count: nat)

  datatype Bucket =
    | HumanApproved | HumanDenied | GrantAuthorized | ByClockApproved | ByClockDenied
    | StillPending | StillParked | WasRetired

  /** A class's counts: one per bucket. */
  datatype Rates = Rates(
    approved: nat, denied: nat, grantAuthorized: nat, autoApproved: nat, autoDenied: nat,
    pending: nat, parked: nat, superseded: nat)

  datatype ClassRates = ClassRates(rates: Rates, humanDecisions: nat, approvalRate: Option<real>)

  const EMPTY := Rates(0, 0, 0, 0, 0, 0, 0, 0)
  const DAY := 24 * 60 * 60 * 1000

  function KeyOf(r: Row): Key
  {
    Key(r.actionClass, r.status, r.decidedVia)
  }

  /** Where a row is reported. A denial no human made would be reported nowhere. */
  function BucketOf(k: Key): Option<Bucket>
  {
    match k.status
    case Approved => Some(if k.decidedVia == Some(Human) then HumanApproved else GrantAuthorized)
    case Denied => if k.decidedVia == Some(Human) then Some(HumanDenied) else None
    case AutoApproved => Some(ByClockApproved)
    case AutoDenied => Some(ByClockDenied)
    case Pending => Some(StillPending)
    case Parked => Some(StillParked)
    case Superseded => Some(WasRetired)
  }

  function In(r: Rates, b: Bucket): nat
  {
    match b
    case HumanApproved => r.approved
    case HumanDenied => r.denied
    case GrantAuthorized => r.grantAuthorized
    case ByClockApproved => r.autoApproved
    case ByClockDenied => r.autoDenied
    case StillPending => r.pending
    case StillParked => r.parked
    case WasRetired => r.superseded
  }

  // ---------------------------------------------------------------------------------------------
  // Counting rows and groups
  // ---------------------------------------------------------------------------------------------

  /** The rows raised since `since` whose key satisfies `p`. */
  function Count(rows: seq<Row>, since: int, p: Key -> bool): nat
  {
    if rows == [] then 0
    else
      var r := rows[|rows| - 1];
      Count(rows[..|rows| - 1], since, p) + if r.createdAt >= since && p(KeyOf(r)) then 1 else 0
  }

  function Reported(actionClass: string, b: Bucket): Key -> bool
  {
    (k: Key) => k.actionClass == actionClass && BucketOf(k) == Some(b)
  }

  function OfClass(actionClass: string): Key -> bool
  {
    (k: Key) => k.actionClass == actionClass
  }

  function Among(p: Key -> bool, keys: set<Key>): Key -> bool
  {
    (k: Key) => p(k) && k in keys
  }

  function Exactly(key: Key): Key -> bool
  {
    (k: Key) => k == key
  }

  function KeysOf(groups: seq<Group>): set<Key>
  {
    set i | 0 <= i < |groups| :: groups[i].key
  }

  /** The database's `groupBy`: every key with a row in the window, once, with its count, in any order. */
  ghost predicate IsGrouping(rows: seq<Row>, since: int, groups: seq<Group>)
  {
    && (forall i, j | 0 <= i < j < |groups| :: groups[i].key != groups[j].key)
    && (forall i | 0 <= i < |groups| :: groups[i].count == Count(rows, since, Exactly(groups[i].key)) && groups[i].count > 0)
    && (forall i | 0 <= i < |rows| && rows[i].createdAt >= since :: KeyOf(rows[i]) in KeysOf(groups))
  }

  lemma {:induction false} OneMoreKey(rows: seq<Row>, since: int, p: Key -> bool, keys: set<Key>, key: Key)
    requires key !in keys
    ensures Count(rows, since, Among(p, keys + {key}))
            == Count(rows, since, Among(p, keys)) + if p(key) then Count(rows, since, Exactly(key)) else 0
  {
    if rows != [] {
      OneMoreKey(rows[..|rows| - 1], since, p, keys, key);
    }
  }

  /** Two tests that agree on every row in the window count the same. */
  lemma {:induction false} CountAgrees(rows: seq<Row>, since: int, p: Key -> bool, q: Key -> bool)
    requires forall i | 0 <= i < |rows| && rows[i].createdAt >= since :: p(KeyOf(rows[i])) == q(KeyOf(rows[i]))
    ensures Count(rows, since, p) == Count(rows, since, q)
  {
    if rows != [] {
      CountAgrees(rows[..|rows| - 1], since, p, q);
    }
  }

  lemma {:induction false} CountPositive(rows: seq<Row>, since: int, p: Key -> bool)
    ensures Count(rows, since, p) > 0 <==> exists i | 0 <= i < |rows| :: rows[i].createdAt >= since && p(KeyOf(rows[i]))
  {
    if rows != [] {
      var n := |rows| - 1;
      CountPositive(rows[..n], since, p);
      if exists i | 0 <= i < |rows| :: rows[i].createdAt >= since && p(KeyOf(rows[i])) {
        var i :| 0 <= i < |rows| && rows[i].createdAt >= since && p(KeyOf(rows[i]));
        assert i < n ==> rows[..n][i] == rows[i];
      }
    }
  }

  function RatesFor(byClass: map<string, Rates>, c: string): Rates
  {
    if c in byClass then byClass[c] else EMPTY
  }

  function Add(r: Rates, k: Key, n: nat): (r': Rates)
    ensures forall b :: In(r', b) == In(r, b) + if BucketOf(k) == Some(b) then n else 0
  {
    match k.status
    case Approved =>
      if k.decidedVia == Some(Human) then r.(approved := r.approved + n) else r.(grantAuthorized := r.grantAuthorized + n)
    case Denied => if k.decidedVia == Some(Human) then r.(denied := r.denied + n) else r
    case AutoApproved => r.(autoApproved := r.autoApproved + n)
    case AutoDenied => r.(autoDenied := r.autoDenied + n)
    case Pending => r.(pending := r.pending + n)
    case Parked => r.(parked := r.parked + n)
    case Superseded => r.(superseded := r.superseded + n)
  }

  function Finish(r: Rates): ClassRates
  {
    var humanDecisions := r.approved + r.denied;
    ClassRates(r, humanDecisions, if humanDecisions == 0 then None else Some(r.approved as real / humanDecisions as real))
  }

  /** What the read model owes for class `c`: each bucket its rows, and a rate only when a human has decided. */
  ghost predicate Faithful(rows: seq<Row>, since: int, c: string, r: ClassRates)
  {
    && (forall b :: In(r.rates, b) == Count(rows, since, Reported(c, b)))
    && r.humanDecisions == Count(rows, since, Reported(c, HumanApproved)) + Count(rows, since, Reported(c, HumanDenied))
    && (r.approvalRate.None? <==> r.humanDecisions == 0)
    && (r.approvalRate.Some? ==>
          r.approvalRate.value * r.humanDecisions as real == Count(rows, since, Reported(c, HumanApproved)) as real)
  }

  /** `approvalRatesByClass`, without the final sort by name: a class is listed exactly when it has a row in the window. */
  method ApprovalRatesByClass(rows: seq<Row>, sinceDays: nat, now: int, groups: seq<Group>)
    returns (result: map<string, ClassRates>)
    requires IsGrouping(rows, now - sinceDays * DAY, groups)
    ensures forall c :: c in result <==> Count(rows, now - sinceDays * DAY, OfClass(c)) > 0
    ensures forall c | c in result :: Faithful(rows, now - sinceDays * DAY, c, result[c])
  {
    ghost var since := now - sinceDays * DAY;
    var byClass: map<string, Rates> := map[];
    CountsOfNothing(rows, since);
    assert KeysOf(groups[..0]) == {};
    for i := 0 to |groups|
      invariant forall c :: c in byClass <==> exists j | 0 <= j < i :: groups[j].key.actionClass == c
      invariant forall c, b :: In(RatesFor(byClass, c), b) == Count(rows, since, Among(Reported(c, b), KeysOf(groups[..i])))
    {
      var group := groups[i];
      var c := group.key.actionClass;
      assert KeysOf(groups[..i + 1]) == KeysOf(groups[..i]) + {group.key};
      forall c, b
        ensures Count(rows, since, Among(Reported(c, b), KeysOf(groups[..i + 1])))
                == Count(rows, since, Among(Reported(c, b), KeysOf(groups[..i])))
                   + if Reported(c, b)(group.key) then group.count else 0
      {
        OneMoreKey(rows, since, Reported(c, b), KeysOf(groups[..i]), group.key);
      }
      byClass := byClass[c := Add(RatesFor(byClass, c), group.key, group.count)];
    }
    assert groups[..|groups|] == groups;
    result := map c | c in byClass :: Finish(byClass[c]);
    forall c ensures c in result <==> Count(rows, since, OfClass(c)) > 0 {
      ListedExactly(rows, since, groups, c);
    }
    forall c | c in result ensures Faithful(rows, since, c, result[c]) {
      forall b ensures In(byClass[c], b) == Count(rows, since, Reported(c, b)) {
        CountAgrees(rows, since, Among(Reported(c, b), KeysOf(groups)), Reported(c, b));
        assert In(RatesFor(byClass, c), b) == Count(rows, since, Among(Reported(c, b), KeysOf(groups)));
      }
      FinishIsFaithful(rows, since, c, byClass[c]);
    }
  }

  lemma CountsOfNothing(rows: seq<Row>, since: int)
    ensures forall c, b :: Count(rows, since, Among(Reported(c, b), {})) == 0
  {
    forall c, b ensures Count(rows, since, Among(Reported(c, b), {})) == 0 {
      CountPositive(rows, since, Among(Reported(c, b), {}));
    }
  }

  lemma ListedExactly(rows: seq<Row>, since: int, groups: seq<Group>, c: string)
    requires IsGrouping(rows, since, groups)
    ensures (exists j | 0 <= j < |groups| :: groups[j].key.actionClass == c) <==> Count(rows, since, OfClass(c)) > 0
  {
    CountPositive(rows, since, OfClass(c));
    if exists j | 0 <= j < |groups| :: groups[j].key.actionClass == c {
      var j :| 0 <= j < |groups| && groups[j].key.actionClass == c;
      CountPositive(rows, since, Exactly(groups[j].key));
    }
  }

  lemma FinishIsFaithful(rows: seq<Row>, since: int, c: string, r: Rates)
    requires forall b :: In(r, b) == Count(rows, since, Reported(c, b))
    ensures Faithful(rows, since, c, Finish(r))
  {
    assert In(r, HumanApproved) == r.approved && In(r, HumanDenied) == r.denied;
  }

  // ---------------------------------------------------------------------------------------------
  // The evidence is the verdicts
  // ---------------------------------------------------------------------------------------------

  /** The `decide` calls that won with this answer, on rows of this class raised since `since`. */
  function Wins(s: State, verdicts: seq<Verdict>, since: int, c: string, approve: bool): nat
  {
    if verdicts == [] then 0
    else
      var v := verdicts[|verdicts| - 1];
      Wins(s, verdicts[..|verdicts| - 1], since, c, approve)
      + if Attests(s, v, since, c, approve) then 1 else 0
  }

  predicate Attests(s: State, v: Verdict, since: int, c: string, approve: bool)
  {
    v.Won? && v.approve == approve && v.id < |s.rows| && s.rows[v.id].createdAt >= since && s.rows[v.id].actionClass == c
  }

  function HumanBucket(approve: bool): Bucket
  {
    if approve then HumanApproved else HumanDenied
  }

  predicate WinningWrite(s: State, step: Step)
  {
    && step.DecideWrite? && ProcOf(s, step.p).Deciding? && ProcOf(s, step.p).id < |s.rows|
    && Open(s.rows[ProcOf(s, step.p).id].status)
  }

  /** A row already human-decided is unchanged, and no other row becomes so. */
  ghost predicate NoHumanWrite(s: State, s': State)
  {
    && |s.rows| <= |s'.rows|
    && (forall i | 0 <= i < |s.rows| :: s'.rows[i] == s.rows[i] || (Open(s.rows[i].status) && NotByHuman(s'.rows[i])))
    && (forall i | |s.rows| <= i < |s'.rows| :: NotByHuman(s'.rows[i]))
    && (forall i | 0 <= i < |s.rows| :: s'.rows[i].createdAt == s.rows[i].createdAt && s'.rows[i].actionClass == s.rows[i].actionClass)
  }

  predicate NotByHuman(r: Row)
  {
    r.decidedVia != Some(Human) && r.status != Denied
  }

  lemma OnlyDecisionsWriteAsHuman(s: State, step: Step)
    requires Good(s) && !WinningWrite(s, step)
    ensures NoHumanWrite(s, Apply(s, step))
  {
    forall i | 0 <= i < |s.rows| ensures Open(s.rows[i].status) ==> NotByHuman(s.rows[i]) {
      assert RowGood(s.rows[i]);
    }
    if IsGateStep(step) {
      GateWritesNotAsHuman(s, step);
    } else if IsDecideStep(step) {
    } else if IsSweepStep(step) {
      SweepWritesNotAsHuman(s, step);
    } else {
      BackfillWritesNotAsHuman(s, step);
    }
  }

  lemma GateWritesNotAsHuman(s: State, step: Step)
    requires forall i | 0 <= i < |s.rows| :: Open(s.rows[i].status) ==> NotByHuman(s.rows[i])
    ensures NoHumanWrite(s, GateStep(s, step))
  {
  }

  lemma SweepWritesNotAsHuman(s: State, step: Step)
    requires forall i | 0 <= i < |s.rows| :: Open(s.rows[i].status) ==> NotByHuman(s.rows[i])
    ensures NoHumanWrite(s, SweepStep(s, step))
  {
  }

  lemma BackfillWritesNotAsHuman(s: State, step: Step)
    requires forall i | 0 <= i < |s.rows| :: Open(s.rows[i].status) ==> NotByHuman(s.rows[i])
    ensures NoHumanWrite(s, BackfillStep(s, step))
  {
  }

  lemma {:induction false} CountUnmoved(rows: seq<Row>, rows': seq<Row>, since: int, p: Key -> bool)
    requires |rows| <= |rows'|
    requires forall i | 0 <= i < |rows| :: rows'[i].createdAt == rows[i].createdAt && p(KeyOf(rows'[i])) == p(KeyOf(rows[i]))
    requires forall i | |rows| <= i < |rows'| :: !p(KeyOf(rows'[i]))
    ensures Count(rows', since, p) == Count(rows, since, p)
  {
    if |rows'| > |rows| {
      CountUnmoved(rows, rows'[..|rows'| - 1], since, p);
    } else if rows != [] {
      CountUnmoved(rows[..|rows| - 1], rows'[..|rows'| - 1], since, p);
    }
  }

  lemma {:induction false} CountUpdated(rows: seq<Row>, i: nat, r: Row, since: int, p: Key -> bool)
    requires i < |rows| && !p(KeyOf(rows[i])) && r.createdAt == rows[i].createdAt
    ensures Count(rows[i := r], since, p) == Count(rows, since, p) + if r.createdAt >= since && p(KeyOf(r)) then 1 else 0
  {
    var n := |rows| - 1;
    if i == n {
      assert rows[i := r][..n] == rows[..n];
    } else {
      assert rows[i := r][..n] == rows[..n][i := r];
      CountUpdated(rows[..n], i, r, since, p);
    }
  }

  lemma {:induction false} WinsUnmoved(s: State, s': State, verdicts: seq<Verdict>, since: int, c: string, approve: bool)
    requires Evolves(s, s') && forall i | 0 <= i < |verdicts| :: verdicts[i].id < |s.rows|
    ensures Wins(s', verdicts, since, c, approve) == Wins(s, verdicts, since, c, approve)
  {
    if verdicts != [] {
      WinsUnmoved(s, s', verdicts[..|verdicts| - 1], since, c, approve);
      assert RowEvolves(s.rows[verdicts[|verdicts| - 1].id], s'.rows[verdicts[|verdicts| - 1].id]);
    }
  }

  /**
   * Only a `decide` call that wins moves the evidence, and it moves one count by one: no grant, no sweep, no
   * supersession, no escalation and no losing decision ever changes a class's approval rate.
   */
  lemma EvidenceMovesByVerdicts(s: State, step: Step, since: int, c: string, approve: bool)
    requires Good(s)
    ensures Count(Apply(s, step).rows, since, Reported(c, HumanBucket(approve)))
            == Count(s.rows, since, Reported(c, HumanBucket(approve)))
               + if WinningWrite(s, step) && ProcOf(s, step.p).approve == approve
                    && s.rows[ProcOf(s, step.p).id].createdAt >= since && s.rows[ProcOf(s, step.p).id].actionClass == c then 1 else 0
  {
    if WinningWrite(s, step) {
      VerdictMovesOne(s, step, since, c, approve);
    } else {
      OthersMoveNothing(s, step, since, c, approve);
    }
  }

  lemma VerdictMovesOne(s: State, step: Step, since: int, c: string, approve: bool)
    requires WinningWrite(s, step)
    ensures Count(Apply(s, step).rows, since, Reported(c, HumanBucket(approve)))
            == Count(s.rows, since, Reported(c, HumanBucket(approve)))
               + if ProcOf(s, step.p).approve == approve && s.rows[ProcOf(s, step.p).id].createdAt >= since
                    && s.rows[ProcOf(s, step.p).id].actionClass == c then 1 else 0
  {
    var proc := ProcOf(s, step.p);
    var decided := Resolve(s.rows[proc.id], HumanWrite(proc.approve, proc.user, proc.now));
    assert Apply(s, step).rows == s.rows[proc.id := decided];
    CountUpdated(s.rows, proc.id, decided, since, Reported(c, HumanBucket(approve)));
  }

  lemma OthersMoveNothing(s: State, step: Step, since: int, c: string, approve: bool)
    requires Good(s) && !WinningWrite(s, step)
    ensures Count(Apply(s, step).rows, since, Reported(c, HumanBucket(approve)))
            == Count(s.rows, since, Reported(c, HumanBucket(approve)))
  {
    OnlyDecisionsWriteAsHuman(s, step);
    UnmovedByOthers(s, Apply(s, step), since, c, approve);
  }

  lemma UnmovedByOthers(s: State, s': State, since: int, c: string, approve: bool)
    requires NoHumanWrite(s, s')
    ensures Count(s'.rows, since, Reported(c, HumanBucket(approve))) == Count(s.rows, since, Reported(c, HumanBucket(approve)))
  {
    CountUnmoved(s.rows, s'.rows, since, Reported(c, HumanBucket(approve)));
  }

  lemma VerdictsMoveWithIt(s: State, step: Step, since: int, c: string, approve: bool)
    requires Good(s)
    ensures var s' := Apply(s, step);
            Wins(s', s'.verdicts, since, c, approve)
            == Wins(s, s.verdicts, since, c, approve)
               + if WinningWrite(s, step) && ProcOf(s, step.p).approve == approve
                    && s.rows[ProcOf(s, step.p).id].createdAt >= since && s.rows[ProcOf(s, step.p).id].actionClass == c then 1 else 0
  {
    var s' := Apply(s, step);
    StepEvolves(s, step);
    forall i | 0 <= i < |s.verdicts| ensures s.verdicts[i].id < |s.rows| {
      assert VerdictGood(s, s.verdicts[i]);
    }
    WinsUnmoved(s, s', s.verdicts, since, c, approve);
    VerdictsGrow(s, step);
    if s'.verdicts != s.verdicts {
      assert s'.verdicts[..|s'.verdicts| - 1] == s.verdicts;
    }
  }

  lemma VerdictsGrow(s: State, step: Step)
    ensures var s' := Apply(s, step);
            if WinningWrite(s, step) then
              var d := ProcOf(s, step.p);
              s'.verdicts == s.verdicts + [Won(d.id, d.approve, d.user, d.now)]
              && |s'.rows| == |s.rows| && s'.rows[d.id].createdAt == s.rows[d.id].createdAt
              && s'.rows[d.id].actionClass == s.rows[d.id].actionClass
            else s'.verdicts == s.verdicts || exists id, reason :: s'.verdicts == s.verdicts + [Lost(id, reason)]
  {
  }

  /**
   * In every reachable state and for every window, a class's approved and denied counts are exactly the
   * numbers of `decide` calls that won with that answer on its rows.
   */
  lemma {:induction false} HumanEvidenceIsExact(steps: seq<Step>, since: int, c: string, approve: bool)
    ensures var s := Reach(steps);
            Count(s.rows, since, Reported(c, HumanBucket(approve))) == Wins(s, s.verdicts, since, c, approve)
  {
    if steps != [] {
      var before := steps[..|steps| - 1];
      HumanEvidenceIsExact(before, since, c, approve);
      AlwaysGood(before);
      EvidenceMovesByVerdicts(Reach(before), steps[|steps| - 1], since, c, approve);
      VerdictsMoveWithIt(Reach(before), steps[|steps| - 1], since, c, approve);
    }
  }

  function BucketTotal(rows: seq<Row>, since: int, c: string): nat
  {
    Count(rows, since, Reported(c, HumanApproved)) + Count(rows, since, Reported(c, HumanDenied))
    + Count(rows, since, Reported(c, GrantAuthorized)) + Count(rows, since, Reported(c, ByClockApproved))
    + Count(rows, since, Reported(c, ByClockDenied)) + Count(rows, since, Reported(c, StillPending))
    + Count(rows, since, Reported(c, StillParked)) + Count(rows, since, Reported(c, WasRetired))
  }

  lemma {:induction false} BucketsPartition(rows: seq<Row>, since: int, c: string)
    requires forall i | 0 <= i < |rows| :: BucketOf(KeyOf(rows[i])).Some?
    ensures BucketTotal(rows, since, c) == Count(rows, since, OfClass(c))
  {
    if rows != [] {
      BucketsPartition(rows[..|rows| - 1], since, c);
      assert BucketOf(KeyOf(rows[|rows| - 1])).Some?;
    }
  }

  /** No reachable row falls through the report: a class's buckets sum to its rows in the window. */
  lemma EveryRowIsReported(steps: seq<Step>, since: int, c: string)
    ensures BucketTotal(Reach(steps).rows, since, c) == Count(Reach(steps).rows, since, OfClass(c))
  {
    AlwaysGood(steps);
    var rows := Reach(steps).rows;
    forall i | 0 <= i < |rows| ensures BucketOf(KeyOf(rows[i])).Some? {
      assert RowGood(rows[i]);
      assert rows[i].writes != [] ==> Records(rows[i], rows[i].writes[0]);
    }
    BucketsPartition(rows, since, c);
  }

  // ---------------------------------------------------------------------------------------------
  // Every bucket tells what became of its rows
  // ---------------------------------------------------------------------------------------------

  /** What became of the row: who resolved it and how, or what it still waits for. */
  predicate Became(r: Row, b: Bucket)
  {
    match b
    case HumanApproved => |r.writes| == 1 && r.writes[0].HumanWrite? && r.writes[0].approve
    case HumanDenied => |r.writes| == 1 && r.writes[0].HumanWrite? && !r.writes[0].approve
    case GrantAuthorized => |r.writes| == 1 && r.writes[0].GrantWrite?
    case ByClockApproved => |r.writes| == 1 && r.writes[0].ClockWrite? && r.writes[0].approve
    case ByClockDenied => |r.writes| == 1 && r.writes[0].ClockWrite? && !r.writes[0].approve
    case StillPending => r.writes == [] && !ResolveTimeoutPolicy(r.registry, r.actionClass).ParkAndEscalate?
    case StillParked => r.writes == [] && ResolveTimeoutPolicy(r.registry, r.actionClass).ParkAndEscalate?
    case WasRetired => |r.writes| == 1 && r.writes[0].SupersedeWrite?
  }

  lemma ReportedAsItBecame(r: Row, b: Bucket)
    requires RowGood(r)
    ensures BucketOf(KeyOf(r)) == Some(b) <==> Became(r, b)
  {
    if r.writes != [] {
      assert Records(r, r.writes[0]);
    }
  }

  predicate BecameSince(r: Row, since: int, c: string, b: Bucket)
  {
    r.createdAt >= since && r.actionClass == c && Became(r, b)
  }

  ghost function RowsThatBecame(rows: seq<Row>, since: int, c: string, b: Bucket): set<RowId>
  {
    set i: RowId | i < |rows| && BecameSince(rows[i], since, c, b)
  }

  lemma OneMoreThatBecame(rows: seq<Row>, r: Row, since: int, c: string, b: Bucket)
    ensures RowsThatBecame(rows + [r], since, c, b)
            == RowsThatBecame(rows, since, c, b) + if BecameSince(r, since, c, b) then {|rows|} else {}
  {
    var with := rows + [r];
    forall i: RowId ensures i in RowsThatBecame(with, since, c, b)
                            <==> i in RowsThatBecame(rows, since, c, b) || (i == |rows| && BecameSince(r, since, c, b)) {
      assert i < |rows| ==> with[i] == rows[i];
    }
  }

  lemma {:induction false} CountIsRowsThatBecame(rows: seq<Row>, since: int, c: string, b: Bucket)
    requires RowsGood(rows)
    ensures Count(rows, since, Reported(c, b)) == |RowsThatBecame(rows, since, c, b)|
  {
    if rows != [] {
      var n := |rows| - 1;
      CountIsRowsThatBecame(rows[..n], since, c, b);
      ReportedAsItBecame(rows[n], b);
      OneMoreThatBecame(rows[..n], rows[n], since, c, b);
      assert rows == rows[..n] + [rows[n]];
    }
  }

  /**
   * In every reachable state, for every window, class and bucket: the count reported is the number of rows of
   * that class that became just that, by the writes that were made and the policy of the raise.
   */
  lemma EveryBucketTellsWhatBecame(steps: seq<Step>, since: int, c: string, b: Bucket)
    ensures Count(Reach(steps).rows, since, Reported(c, b)) == |RowsThatBecame(Reach(steps).rows, since, c, b)|
  {
    AlwaysGood(steps);
    CountIsRowsThatBecame(Reach(steps).rows, since, c, b);
  }
}
