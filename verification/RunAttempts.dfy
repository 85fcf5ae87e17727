/**
 * Attempts: what a run's invocation rows look like while resumes come and go, and exactly which overlaps
 * of resumes the code relies on not happening.
 */
module RunAttempts {
  import opened Base
  import opened DispatchPolicy
  import opened Spend
  import opened RunMachine

  /** The run a resume has claimed and not yet finished with. */
  predicate Holds(r: Resume, id: RunId)
  {
    (r.Claimed? || r.Opening?) && r.id == id
  }

  /**
   * A claim that is about to win is fresh, that is, the attempt count has not moved since it was read, and
   * no other resume is still between its claim and its attempt row on the same run.
   */
  ghost predicate Undisturbed(s: State, step: Step)
  {
    step.ResumeClaim? && ResumeOf(s, step.p).Cleared? && HasStatus(s, ResumeOf(s, step.p).id, Blocked) ==>
      var r := ResumeOf(s, step.p);
      && r.count == s.runs[r.id].attemptCount
      && forall q | q in s.resumes && q != step.p :: !Holds(s.resumes[q], r.id)
  }

  ghost predicate UndisturbedAt(cfg: Config, steps: seq<Step>, n: nat)
    requires n < |steps|
  {
    Undisturbed(Reach(cfg, steps[..n]), steps[n])
  }

  ghost predicate UndisturbedRun(cfg: Config, steps: seq<Step>)
  {
    forall n | 0 <= n < |steps| :: UndisturbedAt(cfg, steps, n)
  }

  /** Numbers strictly increase up to the attempt count, and only the last row can be open. */
  ghost predicate AttemptsInOrder(r: Run)
  {
    && 1 <= r.attemptCount
    && (forall i, j | 0 <= i < j < |r.attempts| :: r.attempts[i].number < r.attempts[j].number)
    && (forall i | 0 <= i < |r.attempts| :: r.attempts[i].number <= r.attemptCount)
    && (forall i | 0 <= i < |r.attempts| - 1 :: !r.attempts[i].open)
  }

  ghost predicate NumberIsNext(r: Run, number: nat)
  {
    r.attemptCount == number && forall i | 0 <= i < |r.attempts| :: r.attempts[i].number < number
  }

  /** What a resume in its critical section can rely on about its run, unless the run has been deleted. */
  ghost predicate HolderOk(s: State, r: Resume)
  {
    match r
    case Claimed(id, number, previous, before) =>
      && id < |s.runs|
      && (!s.runs[id].status.Deleted? ==> NumberIsNext(s.runs[id], number) && previous == before && 1 <= before && before + 1 == number)
    case Opening(id, number) =>
      && id < |s.runs|
      && (!s.runs[id].status.Deleted? ==>
            NumberIsNext(s.runs[id], number) && forall i | 0 <= i < |s.runs[id].attempts| :: !s.runs[id].attempts[i].open)
    case _ => true
  }

  ghost predicate Orderly(s: State)
  {
    && (forall i | 0 <= i < |s.runs| && !s.runs[i].status.Deleted? :: AttemptsInOrder(s.runs[i]))
    && (forall p | p in s.resumes :: HolderOk(s, s.resumes[p]))
    && (forall p, q, id | p in s.resumes && q in s.resumes && p != q :: !(Holds(s.resumes[p], id) && Holds(s.resumes[q], id)))
  }

  // ---------------------------------------------------------------------------------------------
  // How a resume ends
  // ---------------------------------------------------------------------------------------------

  /** What the end of a resume leaves of its row. */
  function SettledRow(r: Run, proc: Resume, step: Step): Run
    requires proc.Claimed? || proc.Opening?
    requires step.ResumeSubmitted? || step.ResumeOpen? || step.ResumeRefused? || step.ResumeFailed?
    requires step.ResumeRefused? ==> proc.Claimed?
  {
    match step
    case ResumeSubmitted(_) => r.(attempts := CloseAll(r.attempts))
    case ResumeOpen(_) =>
      if r.status.Deleted? then r
      else if exists a | a in r.attempts :: a.number == proc.number then FailedIfRunning(r)
      else r.(attempts := r.attempts + [Attempt(proc.number, true)])
    case ResumeRefused(_) => if r.status.Running? then Park(r).(attemptCount := proc.previous) else r
    case ResumeFailed(_) => FailedIfRunning(r)
  }

  function FailedIfRunning(r: Run): Run
  {
    if r.status.Running? then r.(status := Failed) else r
  }

  lemma SettleFact(cfg: Config, s: State, p: Pid, step: Step)
    requires step in {ResumeSubmitted(p), ResumeOpen(p), ResumeRefused(p), ResumeFailed(p)}
    requires if step == ResumeOpen(p) then ResumeOf(s, p).Opening? else ResumeOf(s, p).Claimed?
    ensures var s' := Apply(cfg, s, step);
            && s'.claims == s.claims
            && (if step == ResumeSubmitted(p) then ResumeOf(s', p) == Opening(ResumeOf(s, p).id, ResumeOf(s, p).number)
                else ResumeOf(s', p).NotResuming?)
            && s'.runs == if ResumeOf(s, p).id < |s.runs|
                          then s.runs[ResumeOf(s, p).id := SettledRow(s.runs[ResumeOf(s, p).id], ResumeOf(s, p), step)] else s.runs
  {
  }

  lemma ClosingKeepsNumbers(attempts: seq<Attempt>, number: nat)
    ensures (exists a | a in CloseAll(attempts) :: a.number == number) <==> exists a | a in attempts :: a.number == number
  {
    forall i | 0 <= i < |attempts| ensures CloseAll(attempts)[i].number == attempts[i].number {
    }
    if a :| a in attempts && a.number == number {
      var i :| 0 <= i < |attempts| && attempts[i] == a;
      assert CloseAll(attempts)[i] in CloseAll(attempts);
    }
  }

  // ---------------------------------------------------------------------------------------------
  // Undisturbed claims keep the order
  // ---------------------------------------------------------------------------------------------

  /** The dispatcher deletes a row or leaves its count and attempts alone, and inserts only rows in order. */
  ghost predicate StandsOrGoes(s: State, s': State)
  {
    && s'.resumes == s.resumes && |s.runs| <= |s'.runs|
    && (forall i | 0 <= i < |s.runs| ::
          || s'.runs[i].status.Deleted?
          || (s'.runs[i].attemptCount == s.runs[i].attemptCount && s'.runs[i].attempts == s.runs[i].attempts && !s.runs[i].status.Deleted?))
    && (forall i | |s.runs| <= i < |s'.runs| :: AttemptsInOrder(s'.runs[i]))
  }

  lemma DispatchStandsOrGoes(cfg: Config, s: State, step: Step)
    ensures StandsOrGoes(s, DispatchStep(cfg, s, step))
  {
  }

  lemma StandingKeepsOrder(s: State, s': State)
    requires Orderly(s) && StandsOrGoes(s, s')
    ensures Orderly(s')
  {
    forall p | p in s'.resumes ensures HolderOk(s', s'.resumes[p]) {
      assert HolderOk(s, s.resumes[p]);
    }
  }

  lemma DispatchKeepsOrder(cfg: Config, s: State, step: Step)
    requires Orderly(s)
    ensures Orderly(DispatchStep(cfg, s, step))
  {
    DispatchStandsOrGoes(cfg, s, step);
    StandingKeepsOrder(s, DispatchStep(cfg, s, step));
  }

  /** Events leave the attempt count and the numbers alone, and can only close attempts. */
  ghost predicate SameNumbers(r: Run, r': Run)
  {
    && r'.attemptCount == r.attemptCount
    && (r'.status.Deleted? <==> r.status.Deleted?)
    && |r'.attempts| == |r.attempts|
    && forall i | 0 <= i < |r.attempts| ::
         r'.attempts[i].number == r.attempts[i].number && (r'.attempts[i].open ==> r.attempts[i].open)
  }

  lemma EventKeepsNumbers(s: State, step: Step)
    ensures var s' := EventStep(s, step);
            && s'.resumes == s.resumes && |s'.runs| == |s.runs|
            && forall i | 0 <= i < |s.runs| :: SameNumbers(s.runs[i], s'.runs[i])
  {
  }

  lemma SameNumbersSameOrder(r: Run, r': Run)
    requires SameNumbers(r, r') && AttemptsInOrder(r)
    ensures AttemptsInOrder(r')
  {
  }

  lemma SameNumbersHolderOk(s: State, s': State, r: Resume)
    requires |s'.runs| == |s.runs| && HolderOk(s, r)
    requires forall i | 0 <= i < |s.runs| :: SameNumbers(s.runs[i], s'.runs[i])
    ensures HolderOk(s', r)
  {
  }

  lemma EventKeepsOrder(s: State, step: Step)
    requires Orderly(s)
    ensures Orderly(EventStep(s, step))
  {
    EventKeepsNumbers(s, step);
    var s' := EventStep(s, step);
    forall i | 0 <= i < |s'.runs| && !s'.runs[i].status.Deleted? ensures AttemptsInOrder(s'.runs[i]) {
      assert SameNumbers(s.runs[i], s'.runs[i]);
      SameNumbersSameOrder(s.runs[i], s'.runs[i]);
    }
    forall p | p in s'.resumes ensures HolderOk(s', s'.resumes[p]) {
      SameNumbersHolderOk(s, s', s.resumes[p]);
    }
  }

  lemma ResumeKeepsOrder(cfg: Config, s: State, step: Step)
    requires Orderly(s) && Undisturbed(s, step)
    ensures Orderly(ResumeStep(cfg, s, step))
  {
    match step
    case ResumeRead(_, _) => ReadKeepsOrder(cfg, s, step);
    case ResumeClear(_, _, _) => ReadKeepsOrder(cfg, s, step);
    case ResumeClaim(p) => ClaimKeepsOrder(cfg, s, p);
    case ResumeSubmitted(p) => HolderKeepsOrder(cfg, s, p, step);
    case ResumeOpen(p) => HolderKeepsOrder(cfg, s, p, step);
    case ResumeRefused(p) => HolderKeepsOrder(cfg, s, p, step);
    case ResumeFailed(p) => HolderKeepsOrder(cfg, s, p, step);
    case _ =>
  }

  lemma ReadKeepsOrder(cfg: Config, s: State, step: Step)
    requires Orderly(s) && (step.ResumeRead? || step.ResumeClear?)
    ensures Orderly(ResumeStep(cfg, s, step))
  {
  }

  lemma ClaimKeepsOrder(cfg: Config, s: State, p: Pid)
    requires Orderly(s) && Undisturbed(s, ResumeClaim(p))
    ensures Orderly(ResumeStep(cfg, s, ResumeClaim(p)))
  {
    var s', r := ResumeStep(cfg, s, ResumeClaim(p)), ResumeOf(s, p);
    if r.Cleared? && HasStatus(s, r.id, Blocked) {
      WinningClaimFact(cfg, s, p);
      forall i | 0 <= i < |s'.runs| && !s'.runs[i].status.Deleted? ensures AttemptsInOrder(s'.runs[i]) {
        assert AttemptsInOrder(s.runs[i]);
      }
      forall q | q in s'.resumes ensures HolderOk(s', s'.resumes[q]) {
        if q == p {
          assert AttemptsInOrder(s.runs[r.id]);
        } else {
          assert HolderOk(s, s.resumes[q]) && !Holds(s.resumes[q], r.id);
        }
      }
    } else {
      LosingClaimFact(cfg, s, p);
      forall q | q in s'.resumes ensures HolderOk(s', s'.resumes[q]) {
        assert q != p || s'.resumes == s.resumes ==> HolderOk(s, s.resumes[q]);
      }
    }
  }

  /** A winning claim writes its own run and its own resume, and nothing else. */
  lemma WinningClaimFact(cfg: Config, s: State, p: Pid)
    requires ResumeOf(s, p).Cleared? && HasStatus(s, ResumeOf(s, p).id, Blocked)
    ensures var s', r := ResumeStep(cfg, s, ResumeClaim(p)), ResumeOf(s, p);
            var number := Max1(r.count) + 1;
            && s'.runs == s.runs[r.id := s.runs[r.id].(status := Running, attemptCount := number)]
            && s'.resumes == s.resumes[p := Claimed(r.id, number, r.count, s.runs[r.id].attemptCount)]
  {
  }

  lemma LosingClaimFact(cfg: Config, s: State, p: Pid)
    requires !(ResumeOf(s, p).Cleared? && HasStatus(s, ResumeOf(s, p).id, Blocked))
    ensures var s' := ResumeStep(cfg, s, ResumeClaim(p));
            s'.runs == s.runs && (s'.resumes == s.resumes || s'.resumes == s.resumes[p := NotResuming])
  {
  }

  /** The four ways out of the critical section touch only the claimed run, which nobody else holds. */
  lemma HolderKeepsOrder(cfg: Config, s: State, p: Pid, step: Step)
    requires Orderly(s)
    requires step in {ResumeSubmitted(p), ResumeOpen(p), ResumeRefused(p), ResumeFailed(p)}
    ensures Orderly(ResumeStep(cfg, s, step))
  {
    var s' := ResumeStep(cfg, s, step);
    var r := ResumeOf(s, p);
    if r.Claimed? || r.Opening? {
      HolderRowsInOrder(cfg, s, p, step);
      forall q | q in s'.resumes
        ensures HolderOk(s', s'.resumes[q])
      {
        if q == p {
          HolderItselfOk(cfg, s, p, step);
        } else {
          assert s'.resumes[q] == s.resumes[q] && HolderOk(s, s.resumes[q]);
          assert !(Holds(s.resumes[p], r.id) && Holds(s.resumes[q], r.id));
        }
      }
    }
  }

  lemma HolderRowsInOrder(cfg: Config, s: State, p: Pid, step: Step)
    requires Orderly(s)
    requires step in {ResumeSubmitted(p), ResumeOpen(p), ResumeRefused(p), ResumeFailed(p)}
    requires ResumeOf(s, p).Claimed? || ResumeOf(s, p).Opening?
    ensures var s' := ResumeStep(cfg, s, step);
            && |s'.runs| == |s.runs|
            && (forall i | 0 <= i < |s.runs| && i != ResumeOf(s, p).id :: s'.runs[i] == s.runs[i])
            && (forall i | 0 <= i < |s'.runs| && !s'.runs[i].status.Deleted? :: AttemptsInOrder(s'.runs[i]))
            && s'.resumes.Keys == s.resumes.Keys
            && (forall q | q in s.resumes && q != p :: s'.resumes[q] == s.resumes[q])
            && (Holds(s'.resumes[p], ResumeOf(s, p).id) || s'.resumes[p].NotResuming?)
  {
    HolderTouchesOneRow(cfg, s, p, step);
    HeldRowInOrder(cfg, s, p, step);
  }

  lemma HolderTouchesOneRow(cfg: Config, s: State, p: Pid, step: Step)
    requires step in {ResumeSubmitted(p), ResumeOpen(p), ResumeRefused(p), ResumeFailed(p)}
    requires ResumeOf(s, p).Claimed? || ResumeOf(s, p).Opening?
    ensures var s' := ResumeStep(cfg, s, step);
            && |s'.runs| == |s.runs|
            && (forall i | 0 <= i < |s.runs| && i != ResumeOf(s, p).id :: s'.runs[i] == s.runs[i])
            && s'.resumes.Keys == s.resumes.Keys
            && (forall q | q in s.resumes && q != p :: s'.resumes[q] == s.resumes[q])
            && (Holds(s'.resumes[p], ResumeOf(s, p).id) || s'.resumes[p].NotResuming?)
  {
  }

  lemma HeldRowInOrder(cfg: Config, s: State, p: Pid, step: Step)
    requires Orderly(s)
    requires step in {ResumeSubmitted(p), ResumeOpen(p), ResumeRefused(p), ResumeFailed(p)}
    requires ResumeOf(s, p).Claimed? || ResumeOf(s, p).Opening?
    ensures var s', id := ResumeStep(cfg, s, step), ResumeOf(s, p).id;
            id < |s'.runs| && (!s'.runs[id].status.Deleted? ==> AttemptsInOrder(s'.runs[id]))
  {
    assert HolderOk(s, s.resumes[p]);
    if step.ResumeOpen? {
      OpenedRowInOrder(cfg, s, p);
    } else {
      OtherHeldRowInOrder(cfg, s, p, step);
    }
  }

  lemma OpenedRowInOrder(cfg: Config, s: State, p: Pid)
    requires ResumeOf(s, p).Claimed? || ResumeOf(s, p).Opening?
    requires HolderOk(s, ResumeOf(s, p)) && (!s.runs[ResumeOf(s, p).id].status.Deleted? ==> AttemptsInOrder(s.runs[ResumeOf(s, p).id]))
    ensures var s', id := ResumeStep(cfg, s, ResumeOpen(p)), ResumeOf(s, p).id;
            id < |s'.runs| && (!s'.runs[id].status.Deleted? ==> AttemptsInOrder(s'.runs[id]))
  {
  }

  lemma OtherHeldRowInOrder(cfg: Config, s: State, p: Pid, step: Step)
    requires step in {ResumeSubmitted(p), ResumeRefused(p), ResumeFailed(p)}
    requires ResumeOf(s, p).Claimed? || ResumeOf(s, p).Opening?
    requires HolderOk(s, ResumeOf(s, p)) && (!s.runs[ResumeOf(s, p).id].status.Deleted? ==> AttemptsInOrder(s.runs[ResumeOf(s, p).id]))
    ensures var s', id := ResumeStep(cfg, s, step), ResumeOf(s, p).id;
            id < |s'.runs| && (!s'.runs[id].status.Deleted? ==> AttemptsInOrder(s'.runs[id]))
  {
  }

  lemma HolderItselfOk(cfg: Config, s: State, p: Pid, step: Step)
    requires Orderly(s)
    requires step in {ResumeSubmitted(p), ResumeOpen(p), ResumeRefused(p), ResumeFailed(p)}
    requires ResumeOf(s, p).Claimed? || ResumeOf(s, p).Opening?
    ensures HolderOk(ResumeStep(cfg, s, step), ResumeStep(cfg, s, step).resumes[p])
  {
    assert HolderOk(s, s.resumes[p]);
  }

  lemma StepKeepsOrder(cfg: Config, s: State, step: Step)
    requires Orderly(s) && Undisturbed(s, step)
    ensures Orderly(Apply(cfg, s, step))
  {
    if IsDispatchStep(step) {
      DispatchKeepsOrder(cfg, s, step);
    } else if IsResumeStep(step) {
      ResumeKeepsOrder(cfg, s, step);
    } else {
      EventKeepsOrder(s, step);
    }
  }

  /**
   * If every winning claim is fresh and finds no other resume between its claim and its attempt row on the
   * same run, then attempt numbers always strictly increase, only the last attempt can be open, and the count
   * is never behind them.
   */
  lemma {:induction false} AttemptsStayInOrder(cfg: Config, steps: seq<Step>)
    requires UndisturbedRun(cfg, steps)
    ensures Orderly(Reach(cfg, steps))
  {
    if steps != [] {
      var n := |steps| - 1;
      UndisturbedBefore(cfg, steps, n);
      AttemptsStayInOrder(cfg, steps[..n]);
      assert UndisturbedAt(cfg, steps, n);
      StepKeepsOrder(cfg, Reach(cfg, steps[..n]), steps[n]);
    }
  }

  lemma UndisturbedBefore(cfg: Config, steps: seq<Step>, n: nat)
    requires n <= |steps| && UndisturbedRun(cfg, steps)
    ensures UndisturbedRun(cfg, steps[..n])
  {
    forall k | 0 <= k < n ensures UndisturbedAt(cfg, steps[..n], k) {
      assert UndisturbedAt(cfg, steps, k) && steps[..n][..k] == steps[..k];
    }
  }

  // ---------------------------------------------------------------------------------------------
  // And only they do
  // ---------------------------------------------------------------------------------------------

  /** In an orderly state the claim about to win keeps the order exactly when it is undisturbed. */
  lemma ClaimKeepsOrderExactly(cfg: Config, s: State, p: Pid)
    requires Orderly(s) && ResumeOf(s, p).Cleared? && HasStatus(s, ResumeOf(s, p).id, Blocked)
    ensures Orderly(ResumeStep(cfg, s, ResumeClaim(p))) <==> Undisturbed(s, ResumeClaim(p))
  {
    var id, s' := ResumeOf(s, p).id, ResumeStep(cfg, s, ResumeClaim(p));
    if Undisturbed(s, ResumeClaim(p)) {
      ClaimKeepsOrder(cfg, s, p);
    } else if Orderly(s') {
      assert HolderOk(s', s'.resumes[p]);
      forall q | q in s.resumes && q != p ensures !Holds(s.resumes[q], id) {
        assert s'.resumes[q] == s.resumes[q] && Holds(s'.resumes[p], id);
      }
    }
  }

  /** A whole run keeps the order at every step exactly when none of its claims is disturbed. */
  lemma OrderKeptExactlyWhenUndisturbed(cfg: Config, steps: seq<Step>)
    ensures UndisturbedRun(cfg, steps) <==> forall n | 0 <= n <= |steps| :: OrderlyAt(cfg, steps, n)
  {
    if UndisturbedRun(cfg, steps) {
      forall n | 0 <= n <= |steps| ensures OrderlyAt(cfg, steps, n) {
        UndisturbedBefore(cfg, steps, n);
        AttemptsStayInOrder(cfg, steps[..n]);
      }
    } else {
      var n := FirstDisturbed(cfg, steps);
      AttemptsStayInOrder(cfg, steps[..n]);
      DisorderFollows(cfg, steps, n);
    }
  }

  ghost predicate OrderlyAt(cfg: Config, steps: seq<Step>, n: nat)
    requires n <= |steps|
  {
    Orderly(Reach(cfg, steps[..n]))
  }

  lemma DisorderFollows(cfg: Config, steps: seq<Step>, n: nat)
    requires n < |steps| && !UndisturbedAt(cfg, steps, n) && Orderly(Reach(cfg, steps[..n]))
    ensures !OrderlyAt(cfg, steps, n + 1)
  {
    assert steps[..n + 1][..n] == steps[..n];
    ClaimKeepsOrderExactly(cfg, Reach(cfg, steps[..n]), steps[n].p);
  }

  // ---------------------------------------------------------------------------------------------
  // What an observer can see
  // ---------------------------------------------------------------------------------------------

  /** A refusal at this point would leave the attempt count the claim found. */
  predicate RefusalRestoresCount(cfg: Config, s: State, p: Pid)
    requires ResumeOf(s, p).Claimed?
  {
    var r, s' := ResumeOf(s, p), Apply(cfg, s, ResumeRefused(p));
    HasStatus(s, r.id, Running) ==> r.id < |s'.runs| && s'.runs[r.id].attemptCount == r.before
  }

  /** Every live run's attempts are in order, and every claim in hand could still be taken back exactly. */
  ghost predicate Visible(cfg: Config, s: State)
  {
    && (forall i | 0 <= i < |s.runs| && !s.runs[i].status.Deleted? :: AttemptsInOrder(s.runs[i]))
    && (forall p | p in s.resumes && s.resumes[p].Claimed? :: RefusalRestoresCount(cfg, s, p))
  }

  predicate ClaimFree(steps: seq<Step>)
  {
    forall i | 0 <= i < |steps| :: !steps[i].ResumeClaim?
  }

  lemma OrderlyIsVisible(cfg: Config, s: State)
    requires Orderly(s)
    ensures Visible(cfg, s)
  {
    forall p | p in s.resumes && s.resumes[p].Claimed? ensures RefusalRestoresCount(cfg, s, p) {
      assert HolderOk(s, s.resumes[p]);
      if HasStatus(s, s.resumes[p].id, Running) {
        SettleFact(cfg, s, p, ResumeRefused(p));
      }
    }
  }

  lemma {:induction false} ClaimFreeKeepsOrder(cfg: Config, s: State, more: seq<Step>)
    requires Orderly(s) && ClaimFree(more)
    ensures Orderly(After(cfg, s, more))
  {
    if more != [] {
      var n := |more| - 1;
      ClaimFreeKeepsOrder(cfg, s, more[..n]);
      StepKeepsOrder(cfg, After(cfg, s, more[..n]), more[n]);
    }
  }

  /** A stale claim shows at once: the count it would put back is not the one it found. */
  lemma StaleClaimShows(cfg: Config, s: State, p: Pid)
    requires ResumeOf(s, p).Cleared? && HasStatus(s, ResumeOf(s, p).id, Blocked)
    requires ResumeOf(s, p).count != s.runs[ResumeOf(s, p).id].attemptCount
    ensures !Visible(cfg, Apply(cfg, s, ResumeClaim(p)))
  {
    var s' := Apply(cfg, s, ResumeClaim(p));
    assert s'.resumes[p].Claimed? && HasStatus(s', s'.resumes[p].id, Running);
    SettleFact(cfg, s', p, ResumeRefused(p));
    assert !RefusalRestoresCount(cfg, s', p);
  }

  predicate Below(attempts: seq<Attempt>, number: nat)
  {
    forall a | a in attempts :: a.number < number
  }

  lemma CloseAllBelow(attempts: seq<Attempt>, number: nat)
    requires Below(attempts, number)
    ensures Below(CloseAll(attempts), number)
  {
    forall a | a in CloseAll(attempts) ensures a.number < number {
      var i :| 0 <= i < |attempts| && CloseAll(attempts)[i] == a;
      assert attempts[i] in attempts;
    }
  }

  /** Resume `p` has submitted and resume `q` has yet to write its row: each writes one, and both stay open. */
  lemma TwoRowsOpen(cfg: Config, s: State, p: Pid, q: Pid, id: RunId, number: nat)
    requires p != q && id < |s.runs| && !s.runs[id].status.Deleted? && Below(s.runs[id].attempts, number)
    requires ResumeOf(s, q) == Opening(id, number)
    requires ResumeOf(s, p).Claimed? && ResumeOf(s, p).id == id && ResumeOf(s, p).number == number + 1
    ensures !Visible(cfg, After(cfg, s, [ResumeSubmitted(p), ResumeOpen(q), ResumeOpen(p)]))
  {
    var closed := CloseAll(s.runs[id].attempts);
    CloseAllBelow(s.runs[id].attempts, number);
    var s1 := Apply(cfg, s, ResumeSubmitted(p));
    SettleFact(cfg, s, p, ResumeSubmitted(p));
    OthersKeepResume(cfg, s, ResumeSubmitted(p), q);
    var s2 := Apply(cfg, s1, ResumeOpen(q));
    SettleFact(cfg, s1, q, ResumeOpen(q));
    OthersKeepResume(cfg, s1, ResumeOpen(q), p);
    assert s2.runs[id].attempts == closed + [Attempt(number, true)];
    var s3 := Apply(cfg, s2, ResumeOpen(p));
    SettleFact(cfg, s2, p, ResumeOpen(p));
    assert s3.runs[id].attempts == closed + [Attempt(number, true), Attempt(number + 1, true)];
    assert s3.runs[id].attempts[|closed|].open && !AttemptsInOrder(s3.runs[id]);
    ThreeSteps(cfg, s, [ResumeSubmitted(p), ResumeOpen(q), ResumeOpen(p)]);
  }

  lemma ThreeSteps(cfg: Config, s: State, steps: seq<Step>)
    requires |steps| == 3
    ensures After(cfg, s, steps) == Apply(cfg, Apply(cfg, Apply(cfg, s, steps[0]), steps[1]), steps[2])
  {
    assert steps[..2][..1] == steps[..1] && steps[..1][..0] == [];
    assert After(cfg, s, steps[..1]) == Apply(cfg, s, steps[0]);
    assert After(cfg, s, steps[..2]) == Apply(cfg, After(cfg, s, steps[..1]), steps[1]);
  }

  lemma AfterFirst(cfg: Config, s: State, step: Step, rest: seq<Step>)
    ensures After(cfg, s, [step] + rest) == After(cfg, Apply(cfg, s, step), rest)
  {
    var steps := [step] + rest;
    if rest == [] {
      assert steps[..0] == [];
    } else {
      var n := |rest| - 1;
      AfterFirst(cfg, s, step, rest[..n]);
      assert steps[..|steps| - 1] == [step] + rest[..n];
    }
  }

  lemma OthersKeepResume(cfg: Config, s: State, step: Step, p: Pid)
    requires !(IsResumeStep(step) && step.p == p)
    ensures ResumeOf(Apply(cfg, s, step), p) == ResumeOf(s, p) && |s.runs| <= |Apply(cfg, s, step).runs|
  {
    if IsResumeStep(step) {
      OtherResumeKeepsResume(cfg, s, step, p);
    } else if !IsDispatchStep(step) {
      EventKeepsNumbers(s, step);
    }
  }

  lemma OtherResumeKeepsResume(cfg: Config, s: State, step: Step, p: Pid)
    requires IsResumeStep(step) && step.p != p
    ensures ResumeOf(ResumeStep(cfg, s, step), p) == ResumeOf(s, p) && |ResumeStep(cfg, s, step).runs| == |s.runs|
  {
  }

  /** A fresh claim beside an unfinished resume of the same run shows within four steps of those two. */
  lemma OverlappingClaimShows(cfg: Config, s: State, p: Pid, q: Pid) returns (more: seq<Step>)
    requires Orderly(s) && ResumeOf(s, p).Cleared? && HasStatus(s, ResumeOf(s, p).id, Blocked)
    requires q != p && q in s.resumes && Holds(s.resumes[q], ResumeOf(s, p).id)
    requires ResumeOf(s, p).count == s.runs[ResumeOf(s, p).id].attemptCount
    ensures ClaimFree(more) && !Visible(cfg, After(cfg, Apply(cfg, s, ResumeClaim(p)), more))
  {
    var id := ResumeOf(s, p).id;
    var number := s.runs[id].attemptCount;
    var s1 := Apply(cfg, s, ResumeClaim(p));
    NumbersBeneathHolder(s, q, id);
    OthersKeepResume(cfg, s, ResumeClaim(p), q);
    assert s1.runs[id].attempts == s.runs[id].attempts && ResumeOf(s1, p) == Claimed(id, number + 1, number, number);
    more := BothFinish(cfg, s1, p, q, id, number);
  }

  lemma NumbersBeneathHolder(s: State, q: Pid, id: RunId)
    requires Orderly(s) && q in s.resumes && Holds(s.resumes[q], id) && HasStatus(s, id, Blocked)
    ensures s.resumes[q].number == s.runs[id].attemptCount >= 1 && Below(s.runs[id].attempts, s.runs[id].attemptCount)
  {
    assert HolderOk(s, s.resumes[q]) && AttemptsInOrder(s.runs[id]);
    forall a | a in s.runs[id].attempts ensures a.number < s.runs[id].attemptCount {
      var i :| 0 <= i < |s.runs[id].attempts| && s.runs[id].attempts[i] == a;
    }
  }

  lemma BothFinish(cfg: Config, s: State, p: Pid, q: Pid, id: RunId, number: nat) returns (more: seq<Step>)
    requires p != q && id < |s.runs| && !s.runs[id].status.Deleted? && Below(s.runs[id].attempts, number)
    requires Holds(ResumeOf(s, q), id) && ResumeOf(s, q).number == number
    requires ResumeOf(s, p).Claimed? && ResumeOf(s, p).id == id && ResumeOf(s, p).number == number + 1
    ensures ClaimFree(more) && !Visible(cfg, After(cfg, s, more))
  {
    more := [ResumeSubmitted(p), ResumeOpen(q), ResumeOpen(p)];
    if ResumeOf(s, q).Opening? {
      TwoRowsOpen(cfg, s, p, q, id, number);
    } else {
      SettleFact(cfg, s, q, ResumeSubmitted(q));
      CloseAllBelow(s.runs[id].attempts, number);
      OthersKeepResume(cfg, s, ResumeSubmitted(q), p);
      TwoRowsOpen(cfg, Apply(cfg, s, ResumeSubmitted(q)), p, q, id, number);
      AfterFirst(cfg, s, ResumeSubmitted(q), more);
      more := [ResumeSubmitted(q)] + more;
    }
  }

  /** Nothing out of order is ever seen, at any point of the run or in any way of finishing the resumes in hand. */
  ghost predicate NeverShows(cfg: Config, steps: seq<Step>)
  {
    forall n, more | 0 <= n <= |steps| && ClaimFree(more) :: Visible(cfg, After(cfg, Reach(cfg, steps[..n]), more))
  }

  lemma DisturbedClaimShows(cfg: Config, s: State, step: Step) returns (more: seq<Step>)
    requires Orderly(s) && !Undisturbed(s, step)
    ensures ClaimFree(more) && !Visible(cfg, After(cfg, Apply(cfg, s, step), more))
  {
    var p := step.p;
    if ResumeOf(s, p).count != s.runs[ResumeOf(s, p).id].attemptCount {
      StaleClaimShows(cfg, s, p);
      more := [];
    } else {
      var q :| q in s.resumes && q != p && Holds(s.resumes[q], ResumeOf(s, p).id);
      more := OverlappingClaimShows(cfg, s, p, q);
    }
  }

  /**
   * The condition is exact. In any run, attempts stay in order, with at most one open, and every refusal can
   * restore the count its claim found, however the resumes in hand go on, if and only if every winning claim
   * was fresh and alone between claim and attempt row on its run.
   */
  lemma VisibleExactlyWhenUndisturbed(cfg: Config, steps: seq<Step>)
    ensures UndisturbedRun(cfg, steps) <==> NeverShows(cfg, steps)
  {
    if UndisturbedRun(cfg, steps) {
      forall n, more | 0 <= n <= |steps| && ClaimFree(more) ensures Visible(cfg, After(cfg, Reach(cfg, steps[..n]), more)) {
        UndisturbedBefore(cfg, steps, n);
        AttemptsStayInOrder(cfg, steps[..n]);
        ClaimFreeKeepsOrder(cfg, Reach(cfg, steps[..n]), more);
        OrderlyIsVisible(cfg, After(cfg, Reach(cfg, steps[..n]), more));
      }
    } else {
      var n := FirstDisturbed(cfg, steps);
      AttemptsStayInOrder(cfg, steps[..n]);
      var more := DisturbedClaimShows(cfg, Reach(cfg, steps[..n]), steps[n]);
      assert steps[..n + 1][..n] == steps[..n];
      assert !Visible(cfg, After(cfg, Reach(cfg, steps[..n + 1]), more));
    }
  }

  lemma FirstDisturbed(cfg: Config, steps: seq<Step>) returns (n: nat)
    requires !UndisturbedRun(cfg, steps)
    ensures n < |steps| && UndisturbedRun(cfg, steps[..n]) && !UndisturbedAt(cfg, steps, n)
  {
    n := 0;
    while n < |steps| && UndisturbedAt(cfg, steps, n)
      invariant n <= |steps| && forall k | 0 <= k < n :: UndisturbedAt(cfg, steps, k)
    {
      n := n + 1;
    }
    forall k | 0 <= k < n ensures UndisturbedAt(cfg, steps[..n], k) {
      assert UndisturbedAt(cfg, steps, k) && steps[..n][..k] == steps[..k];
    }
  }

  // ---------------------------------------------------------------------------------------------
  // Refusals
  // ---------------------------------------------------------------------------------------------

  /** In an undisturbed run a refusal that finds the run still running puts back exactly what the claim overwrote. */
  lemma RefusalRestores(cfg: Config, steps: seq<Step>, p: Pid)
    requires UndisturbedRun(cfg, steps)
    requires ResumeOf(Reach(cfg, steps), p).Claimed?
    requires HasStatus(Reach(cfg, steps), ResumeOf(Reach(cfg, steps), p).id, Running)
    ensures var s := Reach(cfg, steps);
            var r := ResumeOf(s, p);
            var s' := Apply(cfg, s, ResumeRefused(p));
            && |s'.runs| == |s.runs|
            && s'.runs[r.id].status == Blocked
            && s'.runs[r.id].attemptCount == r.before
            && s'.runs[r.id].attempts == s.runs[r.id].attempts
            && s'.runs[r.id].spend == s.runs[r.id].spend
            && forall i | 0 <= i < |s.runs| && i != r.id :: s'.runs[i] == s.runs[i]
  {
    AttemptsStayInOrder(cfg, steps);
    RefusalRestoresHere(cfg, Reach(cfg, steps), p);
  }

  lemma RefusalRestoresHere(cfg: Config, s: State, p: Pid)
    requires Orderly(s) && ResumeOf(s, p).Claimed? && HasStatus(s, ResumeOf(s, p).id, Running)
    ensures var r := ResumeOf(s, p);
            var s' := Apply(cfg, s, ResumeRefused(p));
            s' == SetRun(SetResume(s, p, NotResuming), r.id, Park(s.runs[r.id]).(attemptCount := r.before))
  {
    assert HolderOk(s, s.resumes[p]);
  }

  predicate NoResumeSteps(steps: seq<Step>, p: Pid)
  {
    forall i | 0 <= i < |steps| :: !(IsResumeStep(steps[i]) && steps[i].p == p)
  }

  lemma {:induction false} ClaimIsKept(cfg: Config, s: State, between: seq<Step>, p: Pid)
    requires NoResumeSteps(between, p)
    ensures ResumeOf(After(cfg, s, between), p) == ResumeOf(s, p) && |s.runs| <= |After(cfg, s, between).runs|
  {
    if between != [] {
      var n := |between| - 1;
      ClaimIsKept(cfg, s, between[..n], p);
      OthersKeepResume(cfg, After(cfg, s, between[..n]), between[n], p);
    }
  }

  /**
   * Refusals restore exactly when claims are fresh: whatever other processes do between a winning claim and
   * its refusal, a refusal that finds the run running leaves it blocked, and with the attempt count the claim
   * found if and only if that was the count the resume had read.
   */
  lemma RestoredExactlyWhenFresh(cfg: Config, s: State, p: Pid, between: seq<Step>)
    requires ResumeOf(s, p).Cleared? && HasStatus(s, ResumeOf(s, p).id, Blocked) && NoResumeSteps(between, p)
    requires HasStatus(After(cfg, Apply(cfg, s, ResumeClaim(p)), between), ResumeOf(s, p).id, Running)
    ensures var r := ResumeOf(s, p);
            var s' := Apply(cfg, After(cfg, Apply(cfg, s, ResumeClaim(p)), between), ResumeRefused(p));
            && HasStatus(s', r.id, Blocked)
            && (s'.runs[r.id].attemptCount == s.runs[r.id].attemptCount <==> r.count == s.runs[r.id].attemptCount)
  {
    var claimed := Apply(cfg, s, ResumeClaim(p));
    ClaimIsKept(cfg, claimed, between, p);
    SettleFact(cfg, After(cfg, claimed, between), p, ResumeRefused(p));
  }
}
