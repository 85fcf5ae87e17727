/** Reachable runs showing that the conditions stated about resumes and cost reports are needed. */
module RunWitnesses {
  import opened Base
  import opened DispatchPolicy
  import opened Spend
  import opened RunMachine
  import opened RunSafety
  import opened RunAttempts

  /** Two slots on one runner, and a ceiling of ten cents over thirty days. */
  const CONFIG := Config(HardCeiling(Some(1000), 30, false), None, map[0 := 2], {0})

  function Runner(live: nat): PoolEntry
  {
    PoolEntry(Capabilities(0, FullStreaming, true, Structured, OwnInfrastructure, Stable, 2, None, None), true, live, None)
  }

  function OrderOf(ceiling: nat): Order
  {
    Order(Input([], None), Some(ceiling))
  }

  lemma Act(s: State, step: Step) returns (s': State)
    requires Reachable(CONFIG, s)
    ensures Reachable(CONFIG, s') && s' == Apply(CONFIG, s, step)
  {
    StepIsReachable(CONFIG, s, step);
    s' := Apply(CONFIG, s, step);
  }

  lemma RoutesHere(live: nat, limits: Limits)
    requires live < 2 && limits.globalMax.None?
    ensures Decide(Input([], None), [Runner(live)], limits).Dispatch?
    ensures Decide(Input([], None), [Runner(live)], limits).runner == 0
  {
    assert Runner(live) in [Runner(live)];
    assert Eligible(Input([], None), [Runner(live)], limits, Runner(live));
    DispatchExactly(Input([], None), [Runner(live)], limits);
    var w := WinnerIsBest(Input([], None), [Runner(live)], limits);
  }

  lemma LoadsAndRoutes(s: State, ceiling: nat, live: nat) returns (s': State)
    requires Reachable(CONFIG, s) && s.dispatcher.Free? && live < 2 && Total(Slots(0), s.runs) == live
    ensures Reachable(CONFIG, s') && s' == s.(dispatcher := Routed(OrderOf(ceiling), 0))
  {
    assert FaithfulPool(CONFIG, s, [Runner(live)]);
    s' := Act(s, LoadPool(OrderOf(ceiling), [Runner(live)]));
    RoutesHere(live, Limits(None, Total(AllSlots, s.runs), false));
    s' := Act(s', Route(false));
  }

  /** One whole dispatch of an order the gate admits. */
  lemma DispatchOne(s: State, ceiling: nat, live: nat) returns (s': State)
    requires Reachable(CONFIG, s) && s.dispatcher.Free? && live < 2
    requires Total(Slots(0), s.runs) == live && Gate(CONFIG, s, Some(ceiling), true).Admit?
    ensures Reachable(CONFIG, s') && s'.runs == s.runs + [NewRun(OrderOf(ceiling), 0, s.now)]
    ensures s'.now == s.now && s'.dispatcher.Free? && s'.resumes == s.resumes && s'.claims == s.claims
  {
    s' := LoadsAndRoutes(s, ceiling, live);
    s' := Act(s', AdmitDispatch(true));
    s' := Act(s', CreateRun(true));
    s' := Act(s', Submitted);
  }

  lemma LedgerOne(runs: seq<Run>)
    requires |runs| == 1 && !runs[0].status.Deleted?
    ensures Ledger(runs) == [runs[0].spend]
    ensures Total(Slots(0), runs) == Weigh(Slots(0), runs[0])
  {
    assert runs[..0] == [];
  }

  lemma TallyOne(r: SpendRow, from: int, to: int)
    requires InWindow(r, from, to)
    ensures TallyOf([r], from, to).total == Round(Charge(r))
  {
    var none: seq<SpendRow> := [];
    assert [r][..0] == none;
    assert Reported([r], from, to) == ReportedOf(r) && Estimated([r], from, to) == EstimatedOf(r);
  }

  lemma TotalTwo(m: Measure, runs: seq<Run>)
    requires |runs| == 2
    ensures Total(m, runs) == Weigh(m, runs[0]) + Weigh(m, runs[1])
  {
    assert runs[..1][..0] == [];
    assert Total(m, runs[..1]) == Weigh(m, runs[0]);
  }

  lemma FirstRun(ceiling: nat) returns (s: State)
    requires ceiling <= 1000
    ensures Reachable(CONFIG, s) && |s.runs| == 1 && s.runs[0] == NewRun(OrderOf(ceiling), 0, 0)
    ensures s.now == 0 && s.dispatcher.Free? && s.resumes == map[] && s.claims == []
  {
    InitialIsReachable(CONFIG);
    assert Ledger(INITIAL.runs) == [];
    s := DispatchOne(INITIAL, ceiling, 0);
  }

  lemma FirstReport() returns (s: State)
    ensures Reachable(CONFIG, s) && |s.runs| == 1 && s.now == 0 && s.dispatcher.Free?
    ensures s.runs[0] == NewRun(OrderOf(1000), 0, 0).(spend := SpendRow(0, Some(100), Some(1000)), reports := 1, lowest := 100)
    ensures Total(Slots(0), s.runs) == 1 && Gate(CONFIG, s, Some(900), true).Admit?
  {
    s := FirstRun(1000);
    s := Act(s, ReportCost(0, 100));
    RoomAfterReport(s);
  }

  lemma RoomAfterReport(s: State)
    requires |s.runs| == 1 && s.now == 0 && s.runs[0].spend == SpendRow(0, Some(100), Some(1000))
    requires s.runs[0].status.Running? && s.runs[0].runner == 0
    ensures Total(Slots(0), s.runs) == 1 && Gate(CONFIG, s, Some(900), true).Admit?
  {
    var from := From(CONFIG, 0);
    LedgerOne(s.runs);
    TallyOne(s.runs[0].spend, from, 0);
    AdmittedExactly(CONFIG.ceiling, TallyOf(Ledger(s.runs), from, 0), OrderBudget(Some(900), true));
  }

  /**
   * A cost reported twice passes the ceiling although no run overspends: the first report frees room that a
   * second order is admitted into, and the second report takes the room back.
   */
  lemma SecondReportPassesCeiling() returns (s: State)
    ensures Reachable(CONFIG, s)
    ensures var from := From(CONFIG, s.now);
            && CONFIG.ceiling.limit == Some(1000)
            && Total(Overspends(from, s.now), s.runs) == 0
            && Total(Exposure(from, s.now), s.runs) == 1900
  {
    var from := From(CONFIG, 0);
    s := FirstReport();
    s := DispatchOne(s, 900, 1);
    s := Act(s, ReportCost(0, 1000));
    TotalTwo(Overspends(from, 0), s.runs);
    TotalTwo(Exposure(from, 0), s.runs);
  }

  // ---------------------------------------------------------------------------------------------
  // Overlapping resumes
  // ---------------------------------------------------------------------------------------------

  /** The only run, as far as these witnesses vary it. */
  function TheRun(status: Status, count: nat, attempts: seq<Attempt>, parks: nat): Run
  {
    NewRun(OrderOf(0), 0, 0).(status := status, attemptCount := count, attempts := attempts, parks := parks)
  }

  ghost predicate OneRun(s: State, status: Status, count: nat, attempts: seq<Attempt>, parks: nat)
  {
    Reachable(CONFIG, s) && s.now == 0 && |s.runs| == 1 && s.runs[0] == TheRun(status, count, attempts, parks)
  }

  /** The resume of `p` moved to `r`, and every other resume is where it was. */
  ghost predicate Moved(s: State, s': State, p: Pid, r: Resume)
  {
    s'.resumes == s.resumes[p := r]
  }

  lemma Parks(s: State, count: nat, attempts: seq<Attempt>, parks: nat) returns (s': State)
    requires OneRun(s, Running, count, attempts, parks)
    ensures OneRun(s', Blocked, count, attempts, parks + 1) && s'.resumes == s.resumes
  {
    s' := Act(s, Block(0));
  }

  lemma Reads(s: State, p: Pid, count: nat, attempts: seq<Attempt>, parks: nat) returns (s': State)
    requires OneRun(s, Blocked, count, attempts, parks) && ResumeOf(s, p).NotResuming?
    ensures OneRun(s', Blocked, count, attempts, parks) && Moved(s, s', p, Read(0, count))
  {
    s' := Act(s, ResumeRead(p, 0));
  }

  /** A run that has spent nothing, and may spend nothing, is admitted again. */
  lemma GateIsOpen(s: State)
    requires |s.runs| == 1 && !s.runs[0].status.Deleted? && s.runs[0].spend == SpendRow(0, None, Some(0)) && s.now == 0
    ensures Gate(CONFIG, s, s.runs[0].spend.ceiling, true).Admit?
  {
    var from := From(CONFIG, 0);
    LedgerOne(s.runs);
    TallyOne(s.runs[0].spend, from, 0);
    AdmittedExactly(CONFIG.ceiling, TallyOf(Ledger(s.runs), from, 0), OrderBudget(Some(0), true));
  }

  lemma ClearFact(cfg: Config, s: State, p: Pid, id: RunId, count: nat)
    requires ResumeOf(s, p) == Read(id, count) && id < |s.runs| && Gate(cfg, s, s.runs[id].spend.ceiling, true).Admit?
    ensures Apply(cfg, s, ResumeClear(p, true, true)) == SetResume(s, p, Cleared(id, count))
  {
  }

  lemma Passes(s: State, p: Pid, count: nat, attempts: seq<Attempt>, parks: nat) returns (s': State)
    requires OneRun(s, Blocked, count, attempts, parks) && ResumeOf(s, p) == Read(0, count)
    ensures OneRun(s', Blocked, count, attempts, parks) && Moved(s, s', p, Cleared(0, count))
  {
    GateIsOpen(s);
    ClearFact(CONFIG, s, p, 0, count);
    s' := Act(s, ResumeClear(p, true, true));
  }

  lemma Clears(s: State, p: Pid, count: nat, attempts: seq<Attempt>, parks: nat) returns (s': State)
    requires OneRun(s, Blocked, count, attempts, parks) && ResumeOf(s, p).NotResuming?
    ensures OneRun(s', Blocked, count, attempts, parks) && Moved(s, s', p, Cleared(0, count))
  {
    s' := Reads(s, p, count, attempts, parks);
    s' := Passes(s', p, count, attempts, parks);
    assert s.resumes[p := Read(0, count)][p := Cleared(0, count)] == s.resumes[p := Cleared(0, count)];
  }

  lemma Claims(s: State, p: Pid, read: nat, count: nat, attempts: seq<Attempt>, parks: nat) returns (s': State)
    requires OneRun(s, Blocked, count, attempts, parks) && ResumeOf(s, p) == Cleared(0, read) && read >= 1
    ensures OneRun(s', Running, read + 1, attempts, parks) && Moved(s, s', p, Claimed(0, read + 1, read, count))
  {
    ClaimFact(CONFIG, s, p, 0, read);
    s' := Act(s, ResumeClaim(p));
  }

  lemma ClaimFact(cfg: Config, s: State, p: Pid, id: RunId, read: nat)
    requires ResumeOf(s, p) == Cleared(id, read) && read >= 1 && HasStatus(s, id, Blocked)
    ensures var (r, s') := (s.runs[id], Apply(cfg, s, ResumeClaim(p)));
            && s'.now == s.now && s'.runs == s.runs[id := r.(status := Running, attemptCount := read + 1)]
            && s'.resumes == s.resumes[p := Claimed(id, read + 1, read, r.attemptCount)]
  {
  }

  lemma Submits(s: State, p: Pid, count: nat, attempts: seq<Attempt>, parks: nat) returns (s': State)
    requires OneRun(s, Running, count, attempts, parks) && ResumeOf(s, p).Claimed? && ResumeOf(s, p).id == 0
    ensures OneRun(s', Running, count, CloseAll(attempts), parks)
    ensures Moved(s, s', p, Opening(0, ResumeOf(s, p).number))
  {
    SubmitFact(CONFIG, s, p, 0);
    s' := Act(s, ResumeSubmitted(p));
  }

  lemma SubmitFact(cfg: Config, s: State, p: Pid, id: RunId)
    requires ResumeOf(s, p).Claimed? && ResumeOf(s, p).id == id && id < |s.runs|
    ensures var (r, s') := (s.runs[id], Apply(cfg, s, ResumeSubmitted(p)));
            && s'.now == s.now && s'.runs == s.runs[id := r.(attempts := CloseAll(r.attempts))]
            && s'.resumes == s.resumes[p := Opening(id, ResumeOf(s, p).number)]
  {
  }

  lemma Opens(s: State, p: Pid, number: nat, count: nat, attempts: seq<Attempt>, parks: nat) returns (s': State)
    requires OneRun(s, Running, count, attempts, parks) && ResumeOf(s, p) == Opening(0, number)
    requires forall a | a in attempts :: a.number != number
    ensures OneRun(s', Running, count, attempts + [Attempt(number, true)], parks) && Moved(s, s', p, NotResuming)
  {
    assert s.runs[0].attempts == attempts;
    OpenFact(CONFIG, s, p, 0, number);
    s' := Act(s, ResumeOpen(p));
  }

  lemma OpenFact(cfg: Config, s: State, p: Pid, id: RunId, number: nat)
    requires ResumeOf(s, p) == Opening(id, number) && id < |s.runs| && !s.runs[id].status.Deleted?
    requires forall a | a in s.runs[id].attempts :: a.number != number
    ensures Apply(cfg, s, ResumeOpen(p))
            == SetRun(SetResume(s, p, NotResuming), id, s.runs[id].(attempts := s.runs[id].attempts + [Attempt(number, true)]))
  {
  }

  /** The unique key on run and number: the insert throws, and the run is failed. */
  lemma OpensTaken(s: State, p: Pid, number: nat, count: nat, attempts: seq<Attempt>, parks: nat, i: nat)
    requires OneRun(s, Running, count, attempts, parks) && ResumeOf(s, p) == Opening(0, number)
    requires i < |attempts| && attempts[i].number == number
    ensures HasStatus(Apply(CONFIG, s, ResumeOpen(p)), 0, Failed)
  {
    assert attempts[i] in attempts;
  }

  lemma ParkedAndCleared() returns (s: State)
    ensures OneRun(s, Blocked, 1, [Attempt(1, true)], 1) && s.resumes == map[1 := Cleared(0, 1)]
  {
    s := FirstRun(0);
    assert s.runs[0] == TheRun(Running, 1, [Attempt(1, true)], 0);
    s := Parks(s, 1, [Attempt(1, true)], 0);
    s := Clears(s, 1, 1, [Attempt(1, true)], 1);
  }

  /**
   * A stale claim fails a healthy run. Resume 2 read the run before resume 1 carried it through a whole
   * park cycle; its attempt number is taken, the insert throws, and the run it has just submitted is failed.
   */
  lemma StaleClaimFailsRun() returns (s: State)
    ensures Reachable(CONFIG, s) && HasStatus(s, 0, Running) && ResumeOf(s, 2) == Opening(0, 2)
    ensures HasStatus(Apply(CONFIG, s, ResumeOpen(2)), 0, Failed)
  {
    var first := [Attempt(1, true)];
    s := ParkedAndCleared();
    s := Clears(s, 2, 1, first, 1);
    s := Claims(s, 1, 1, 1, first, 1);
    s := Submits(s, 1, 2, first, 1);
    s := Opens(s, 1, 2, 2, CloseAll(first), 1);
    var second := CloseAll(first) + [Attempt(2, true)];
    s := Parks(s, 2, second, 1);
    s := Claims(s, 2, 1, 2, second, 2);
    s := Submits(s, 2, 2, second, 2);
    OpensTaken(s, 2, 2, 2, CloseAll(second), 2, 1);
  }

  /**
   * Overlapping critical sections leave two open attempts, even when every claim is fresh: resume 1 has
   * submitted but not yet written its row when the run parks again and resume 2 claims it.
   */
  lemma OverlapOpensTwo() returns (s: State)
    ensures OneRun(s, Running, 3, [Attempt(1, false), Attempt(2, true), Attempt(3, true)], 2)
  {
    var first := [Attempt(1, true)];
    s := ParkedAndCleared();
    s := Claims(s, 1, 1, 1, first, 1);
    s := Submits(s, 1, 2, first, 1);
    var closed := [Attempt(1, false)];
    assert CloseAll(first) == closed;
    s := Parks(s, 2, closed, 1);
    s := Clears(s, 2, 2, closed, 2);
    s := Claims(s, 2, 2, 2, closed, 2);
    s := Submits(s, 2, 3, closed, 2);
    assert CloseAll(closed) == closed;
    s := Opens(s, 1, 2, 3, closed, 2);
    s := Opens(s, 2, 3, 3, closed + [Attempt(2, true)], 2);
    assert closed + [Attempt(2, true)] + [Attempt(3, true)] == [Attempt(1, false), Attempt(2, true), Attempt(3, true)];
  }
}
