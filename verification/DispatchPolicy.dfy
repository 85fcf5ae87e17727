/**
 * The routing policy (`dispatch-policy.ts`).
 *
 * `Decide` is the reference: it asks fleet-level questions about the pool and picks the best
 * eligible entry. `DecideDispatch` is the program: one pass over the enabled runners that records
 * refusals in two sets, a sort by preference, the first eligible verdict, and a diagnosis made only
 * from the verdicts and the recorded sets. The method is proved to refine the reference.
 */
module DispatchPolicy {
  import opened Base

  /** A runner key, as its position in the collation order the program sorts keys by. */
  type RunnerKey = nat

  /** Needs are stored as strings; an unknown one is met by no runner. */
  type Need = string

  datatype StreamingFidelity = FullStreaming | PartialStreaming | NoStreaming
  datatype RateLimitSignal = Structured | Heuristic | NoSignal
  datatype ExecutionLocus = OwnInfrastructure | VendorCloud
  datatype StabilityTier = Experimental | Beta | Stable
  datatype ModelTier = Small | Standard | Large

  datatype Capabilities = Capabilities(
    key: RunnerKey,
    streaming: StreamingFidelity,
    reportsCost: bool,
    rateLimits: RateLimitSignal,
    locus: ExecutionLocus,
    stability: StabilityTier,
    maxConcurrency: nat,
    modelTiers: Option<seq<ModelTier>>,
    available: Option<bool>)

  datatype QuotaPosition = QuotaPosition(exhausted: bool, resumesAt: Option<string>)

  datatype PoolEntry = PoolEntry(
    capabilities: Capabilities, enabled: bool, liveRuns: nat, quota: Option<QuotaPosition>)

  datatype Limits = Limits(globalMax: Option<nat>, globalLive: nat, allowPreview: bool)

  datatype Input = Input(needs: seq<Need>, tier: Option<ModelTier>)

  datatype QueueReason =
    | NoRunnersRegistered
    | AllRunnersDisabled
    | NoRunnerHasTheCapabilities
    | NoRunnerServesTheModelTier
    | CapableRunnersAtCapacity
    | CapableRunnersQuotaExhausted
    | GlobalConcurrencyReached
    | OnlyPreviewRunnersAndNoGaFallback

  datatype Verdict = Verdict(
    key: RunnerKey, eligible: bool, unmet: seq<Need>, headroom: nat, quota: Option<QuotaPosition>)

  datatype ExhaustedRunner = ExhaustedRunner(key: RunnerKey, resumesAt: Option<string>)

  datatype AvoidedPark = AvoidedPark(chosen: RunnerKey, exhausted: seq<ExhaustedRunner>)

  datatype Decision =
    | Dispatch(runner: RunnerKey, headroom: nat, avoidedPark: Option<AvoidedPark>)
    | Queued(reason: QueueReason)

  // ---------------------------------------------------------------------------------------------
  // What one runner can do
  // ---------------------------------------------------------------------------------------------

  predicate Satisfies(need: Need, c: Capabilities)
  {
    if need == "full-streaming" then c.streaming.FullStreaming?
    else if need == "cost-reporting" then c.reportsCost
    else if need == "structured-rate-limits" then c.rateLimits.Structured?
    else if need == "own-infrastructure" then c.locus.OwnInfrastructure?
    else false
  }

  predicate ServesTier(tier: Option<ModelTier>, c: Capabilities)
  {
    tier.None? || c.modelTiers.None? || c.modelTiers.value == [] || tier.value in c.modelTiers.value
  }

  predicate IsAvailable(c: Capabilities)
  {
    c.available != Some(false)
  }

  predicate IsPreview(c: Capabilities)
  {
    !c.stability.Stable?
  }

  function UnmetNeeds(needs: seq<Need>, c: Capabilities): (unmet: seq<Need>)
    ensures forall n :: n in unmet <==> n in needs && !Satisfies(n, c)
    ensures unmet == [] <==> forall n | n in needs :: Satisfies(n, c)
  {
    if needs == [] then []
    else if Satisfies(needs[0], c) then UnmetNeeds(needs[1..], c)
    else [needs[0]] + UnmetNeeds(needs[1..], c)
  }

  function Headroom(e: PoolEntry): nat
  {
    if e.capabilities.maxConcurrency > e.liveRuns then e.capabilities.maxConcurrency - e.liveRuns else 0
  }

  predicate Exhausted(e: PoolEntry)
  {
    e.quota.Some? && e.quota.value.exhausted
  }

  // ---------------------------------------------------------------------------------------------
  // The reference policy
  // ---------------------------------------------------------------------------------------------

  predicate MeetsNeeds(input: Input, e: PoolEntry)
  {
    forall n | n in input.needs :: Satisfies(n, e.capabilities)
  }

  predicate Capable(input: Input, e: PoolEntry)
  {
    MeetsNeeds(input, e) && ServesTier(input.tier, e.capabilities)
  }

  /** Some enabled, generally available runner could take this work order, now or later. */
  predicate GaFallback(input: Input, pool: seq<PoolEntry>)
  {
    exists e | e in pool :: e.enabled && !IsPreview(e.capabilities) && Capable(input, e)
  }

  predicate Eligible(input: Input, pool: seq<PoolEntry>, limits: Limits, e: PoolEntry)
  {
    && e.enabled
    && Capable(input, e)
    && IsAvailable(e.capabilities)
    && !Exhausted(e)
    && Headroom(e) > 0
    && (!IsPreview(e.capabilities) || GaFallback(input, pool) || limits.allowPreview)
  }

  /** A preview runner that could take the work, but only as the fleet's sole option, unacknowledged. */
  predicate LoadBearingPreview(input: Input, pool: seq<PoolEntry>, limits: Limits, e: PoolEntry)
  {
    && e.enabled
    && Capable(input, e)
    && IsAvailable(e.capabilities)
    && !Exhausted(e)
    && IsPreview(e.capabilities)
    && !GaFallback(input, pool)
    && !limits.allowPreview
  }

  predicate GlobalLimitReached(limits: Limits)
  {
    limits.globalMax.Some? && limits.globalLive >= limits.globalMax.value
  }

  predicate Better(a: PoolEntry, b: PoolEntry)
  {
    Headroom(a) > Headroom(b) || (Headroom(a) == Headroom(b) && a.capabilities.key < b.capabilities.key)
  }

  function EligibleOf(input: Input, pool: seq<PoolEntry>, limits: Limits, rest: seq<PoolEntry>): (es: seq<PoolEntry>)
    ensures forall e :: e in es <==> e in rest && Eligible(input, pool, limits, e)
  {
    if rest == [] then []
    else
      var tail := EligibleOf(input, pool, limits, rest[1..]);
      if Eligible(input, pool, limits, rest[0]) then [rest[0]] + tail else tail
  }

  function Best(es: seq<PoolEntry>): (w: Option<PoolEntry>)
    ensures w.None? <==> es == []
    ensures w.Some? ==> w.value in es && forall e | e in es :: !Better(e, w.value)
  {
    if es == [] then None
    else
      var rest := Best(es[1..]);
      assert forall e | e in es :: e == es[0] || e in es[1..];
      if rest.None? || !Better(rest.value, es[0]) then Some(es[0]) else rest
  }

  function ExhaustedCapable(input: Input, pool: seq<PoolEntry>): (es: seq<PoolEntry>)
    ensures forall e :: e in es <==> e in pool && e.enabled && Exhausted(e) && Capable(input, e)
  {
    if pool == [] then []
    else
      var tail := ExhaustedCapable(input, pool[1..]);
      if pool[0].enabled && Exhausted(pool[0]) && Capable(input, pool[0]) then [pool[0]] + tail else tail
  }

  function InsertByKey(x: ExhaustedRunner, rs: seq<ExhaustedRunner>): seq<ExhaustedRunner>
  {
    if rs == [] || x.key <= rs[0].key then [x] + rs else [rs[0]] + InsertByKey(x, rs[1..])
  }

  /** The exhausted runners as the avoided park records them: key and reset time, ordered by key. */
  function RecordsByKey(es: seq<PoolEntry>): seq<ExhaustedRunner>
  {
    if es == [] then []
    else InsertByKey(RecordOf(es[0]), RecordsByKey(es[1..]))
  }

  function RecordOf(e: PoolEntry): ExhaustedRunner
  {
    ExhaustedRunner(e.capabilities.key, if e.quota.Some? then e.quota.value.resumesAt else None)
  }

  predicate NobodyEnabled(pool: seq<PoolEntry>)
  {
    forall e | e in pool :: !e.enabled
  }

  predicate NobodyMeetsNeeds(input: Input, pool: seq<PoolEntry>)
  {
    forall e | e in pool && e.enabled :: !MeetsNeeds(input, e)
  }

  predicate NobodyCapable(input: Input, pool: seq<PoolEntry>)
  {
    forall e | e in pool && e.enabled :: !Capable(input, e)
  }

  predicate OnlyLoadBearingPreviews(input: Input, pool: seq<PoolEntry>, limits: Limits)
  {
    forall e | e in pool && e.enabled && Capable(input, e) :: LoadBearingPreview(input, pool, limits, e)
  }

  predicate SomeCapableExhausted(input: Input, pool: seq<PoolEntry>)
  {
    exists e | e in pool :: e.enabled && Capable(input, e) && Exhausted(e)
  }

  /** Why nothing is eligible, as a statement about the fleet. */
  function FleetReason(input: Input, pool: seq<PoolEntry>, limits: Limits): QueueReason
  {
    if NobodyMeetsNeeds(input, pool) then NoRunnerHasTheCapabilities
    else if NobodyCapable(input, pool) then NoRunnerServesTheModelTier
    else if OnlyLoadBearingPreviews(input, pool, limits) then OnlyPreviewRunnersAndNoGaFallback
    else if SomeCapableExhausted(input, pool) then CapableRunnersQuotaExhausted
    else CapableRunnersAtCapacity
  }

  /** The decision once the winner, the spent capable runners and the fleet's reason are known. */
  function Conclude(winner: Option<PoolEntry>, spent: seq<PoolEntry>, reason: QueueReason): Decision
  {
    match winner
    case None => Queued(reason)
    case Some(w) =>
      Dispatch(w.capabilities.key, Headroom(w),
               if spent == [] then None else Some(AvoidedPark(w.capabilities.key, RecordsByKey(spent))))
  }

  function Decide(input: Input, pool: seq<PoolEntry>, limits: Limits): Decision
  {
    if NobodyEnabled(pool) then
      Queued(if pool == [] then NoRunnersRegistered else AllRunnersDisabled)
    else if GlobalLimitReached(limits) then Queued(GlobalConcurrencyReached)
    else Conclude(Best(EligibleOf(input, pool, limits, pool)), ExhaustedCapable(input, pool), FleetReason(input, pool, limits))
  }

  predicate DistinctKeys(pool: seq<PoolEntry>)
  {
    forall i, j | 0 <= i < j < |pool| :: pool[i].capabilities.key != pool[j].capabilities.key
  }

  /** Work is dispatched exactly when the global limit leaves room and some runner is eligible. */
  lemma DispatchExactly(input: Input, pool: seq<PoolEntry>, limits: Limits)
    ensures Decide(input, pool, limits).Dispatch? <==>
            !GlobalLimitReached(limits) && exists e | e in pool :: Eligible(input, pool, limits, e)
  {
    var es := EligibleOf(input, pool, limits, pool);
    if es != [] {
      assert es[0] in es;
    }
  }

  /** The runner chosen is an eligible entry with the most headroom and, among those, the least key. */
  lemma WinnerIsBest(input: Input, pool: seq<PoolEntry>, limits: Limits) returns (w: PoolEntry)
    requires Decide(input, pool, limits).Dispatch?
    ensures w in pool && Eligible(input, pool, limits, w)
    ensures Decide(input, pool, limits).runner == w.capabilities.key
    ensures Decide(input, pool, limits).headroom == Headroom(w)
    ensures forall e | e in pool && Eligible(input, pool, limits, e) ::
              Headroom(e) < Headroom(w) || (Headroom(e) == Headroom(w) && w.capabilities.key <= e.capabilities.key)
  {
    w := Best(EligibleOf(input, pool, limits, pool)).value;
    forall e | e in pool && Eligible(input, pool, limits, e)
      ensures Headroom(e) < Headroom(w) || (Headroom(e) == Headroom(w) && w.capabilities.key <= e.capabilities.key)
    {
      assert !Better(e, w);
    }
  }

  /** An avoided park is recorded exactly when work moved while some capable enabled runner was spent. */
  lemma AvoidedParkExactly(input: Input, pool: seq<PoolEntry>, limits: Limits)
    ensures var d := Decide(input, pool, limits);
            d.Dispatch? ==>
              && (d.avoidedPark.Some? <==> SomeCapableExhausted(input, pool))
              && (d.avoidedPark.Some? ==> d.avoidedPark.value.chosen == d.runner)
  {
    var spent := ExhaustedCapable(input, pool);
    if spent != [] {
      assert spent[0] in spent;
    }
  }

  // ---------------------------------------------------------------------------------------------
  // Independence of pool order and needs order
  // ---------------------------------------------------------------------------------------------

  ghost predicate KeySorted(rs: seq<ExhaustedRunner>)
  {
    forall i, j | 0 <= i < j < |rs| :: rs[i].key < rs[j].key
  }

  lemma {:induction false} InsertByKeyContents(x: ExhaustedRunner, rs: seq<ExhaustedRunner>)
    requires KeySorted(rs)
    requires forall r | r in rs :: r.key != x.key
    ensures KeySorted(InsertByKey(x, rs))
    ensures forall r :: r in InsertByKey(x, rs) <==> r == x || r in rs
  {
    if rs != [] && x.key > rs[0].key {
      InsertByKeyContents(x, rs[1..]);
      var tail := InsertByKey(x, rs[1..]);
      forall r | r in tail
        ensures rs[0].key < r.key
      {
        if r != x {
          var i :| 0 <= i < |rs[1..]| && rs[1..][i] == r;
          assert rs[i + 1] == r;
        }
      }
      assert InsertByKey(x, rs) == [rs[0]] + tail;
      assert forall r :: r in rs <==> r == rs[0] || r in rs[1..];
    } else {
      assert forall i | 0 <= i < |rs| :: rs[i] in rs;
    }
  }

  lemma DistinctTail(pool: seq<PoolEntry>)
    requires pool != [] && DistinctKeys(pool)
    ensures DistinctKeys(pool[1..])
    ensures forall e | e in pool[1..] :: e.capabilities.key != pool[0].capabilities.key
  {
    forall e | e in pool[1..]
      ensures e.capabilities.key != pool[0].capabilities.key
    {
      var i :| 0 <= i < |pool[1..]| && pool[1..][i] == e;
      assert pool[i + 1] == e;
    }
  }

  /** The record is strictly ordered by key and holds exactly the spent capable runners' records. */
  lemma {:induction false} RecordsByKeyContents(es: seq<PoolEntry>)
    requires DistinctKeys(es)
    ensures KeySorted(RecordsByKey(es))
    ensures forall r :: r in RecordsByKey(es) <==> exists e | e in es :: RecordOf(e) == r
  {
    if es != [] {
      DistinctTail(es);
      RecordsByKeyContents(es[1..]);
      forall r | r in RecordsByKey(es[1..])
        ensures r.key != RecordOf(es[0]).key
      {
        var e :| e in es[1..] && RecordOf(e) == r;
      }
      InsertByKeyContents(RecordOf(es[0]), RecordsByKey(es[1..]));
      forall r
        ensures r in RecordsByKey(es) <==> exists e | e in es :: RecordOf(e) == r
      {
        if r in RecordsByKey(es) && r != RecordOf(es[0]) {
          var e :| e in es[1..] && RecordOf(e) == r;
          assert e in es;
        }
        if exists e | e in es :: RecordOf(e) == r {
          var e :| e in es && RecordOf(e) == r;
          assert e == es[0] || e in es[1..];
        }
        assert es[0] in es;
      }
    }
  }

  /** Two strictly sorted records with the same members are the same record. */
  lemma {:induction false} SortedIsUnique(a: seq<ExhaustedRunner>, b: seq<ExhaustedRunner>)
    requires KeySorted(a) && KeySorted(b)
    requires forall r :: r in a <==> r in b
    ensures a == b
  {
    SameEmptiness(a, b);
    if a != [] {
      assert a[0] in a;
      var j :| 0 <= j < |b| && b[j] == a[0];
      assert b[0] in b;
      var i :| 0 <= i < |a| && a[i] == b[0];
      assert i == 0 && j == 0;
      forall r
        ensures r in a[1..] <==> r in b[1..]
      {
        SortedHeadApart(a, r);
        SortedHeadApart(b, r);
      }
      SortedIsUnique(a[1..], b[1..]);
      assert a == [a[0]] + a[1..] && b == [b[0]] + b[1..];
    }
  }

  lemma SortedHeadApart(a: seq<ExhaustedRunner>, r: ExhaustedRunner)
    requires a != [] && KeySorted(a)
    ensures r in a[1..] <==> r in a && r != a[0]
  {
    if r in a[1..] {
      var i :| 0 <= i < |a[1..]| && a[1..][i] == r;
      assert a[i + 1] == r;
    }
    if r in a && r != a[0] {
      var i :| 0 <= i < |a| && a[i] == r;
      assert a[1..][i - 1] == r;
    }
  }

  lemma {:induction false} ExhaustedCapableDistinct(input: Input, pool: seq<PoolEntry>)
    requires DistinctKeys(pool)
    ensures DistinctKeys(ExhaustedCapable(input, pool))
  {
    if pool != [] {
      DistinctTail(pool);
      ExhaustedCapableDistinct(input, pool[1..]);
      var tail := ExhaustedCapable(input, pool[1..]);
      assert forall i | 0 <= i < |tail| :: tail[i] in tail;
    }
  }

  /** The runners an avoided park names are the exhausted ones that could have done the work. */
  lemma ParkNamesExhausted(input: Input, pool: seq<PoolEntry>, limits: Limits, e: PoolEntry)
    requires DistinctKeys(pool) && e in pool && e.enabled && Capable(input, e) && Exhausted(e)
    ensures var d := Decide(input, pool, limits);
            d.Dispatch? ==> d.avoidedPark.Some? && RecordOf(e) in d.avoidedPark.value.exhausted
  {
    var spent := ExhaustedCapable(input, pool);
    assert e in spent;
    ExhaustedCapableDistinct(input, pool);
    RecordsByKeyContents(spent);
  }

  /** Distinct keys make entries with equal keys equal. */
  lemma SameKeySameEntry(pool: seq<PoolEntry>, a: PoolEntry, b: PoolEntry)
    requires DistinctKeys(pool) && a in pool && b in pool && a.capabilities.key == b.capabilities.key
    ensures a == b
  {
    var i :| 0 <= i < |pool| && pool[i] == a;
    var j :| 0 <= j < |pool| && pool[j] == b;
    assert i == j;
  }

  /**
   * Runner, queue reason and avoided park are functions of the set of registered runners and the set
   * of needs: neither the order the pool is listed in nor the order of the needs matters.
   */
  lemma OrderIndependent(input: Input, input': Input, pool: seq<PoolEntry>, pool': seq<PoolEntry>, limits: Limits)
    requires DistinctKeys(pool) && DistinctKeys(pool')
    requires forall e :: e in pool <==> e in pool'
    requires input.tier == input'.tier && forall n :: n in input.needs <==> n in input'.needs
    ensures Decide(input, pool, limits) == Decide(input', pool', limits)
  {
    SameEmptiness(pool, pool');
    assert forall e :: MeetsNeeds(input, e) <==> MeetsNeeds(input', e);
    assert forall e :: Capable(input, e) <==> Capable(input', e);
    SameGaFallback(input, input', pool, pool');
    assert forall e :: Eligible(input, pool, limits, e) <==> Eligible(input', pool', limits, e);
    SameBest(EligibleOf(input, pool, limits, pool), EligibleOf(input', pool', limits, pool'), pool);
    SameRecord(input, input', pool, pool');
    SameReason(input, input', pool, pool', limits);
  }

  lemma SameGaFallback(input: Input, input': Input, pool: seq<PoolEntry>, pool': seq<PoolEntry>)
    requires forall e :: e in pool <==> e in pool'
    requires forall e :: Capable(input, e) <==> Capable(input', e)
    ensures GaFallback(input, pool) <==> GaFallback(input', pool')
  {
  }

  lemma SameBest(es: seq<PoolEntry>, es': seq<PoolEntry>, pool: seq<PoolEntry>)
    requires DistinctKeys(pool)
    requires forall e :: e in es <==> e in es'
    requires forall e | e in es :: e in pool
    ensures Best(es) == Best(es')
  {
    SameEmptiness(es, es');
    if es != [] {
      assert es[0] in es;
      var w, w' := Best(es).value, Best(es').value;
      assert !Better(w, w') && !Better(w', w);
      SameKeySameEntry(pool, w, w');
    }
  }

  lemma SameRecord(input: Input, input': Input, pool: seq<PoolEntry>, pool': seq<PoolEntry>)
    requires DistinctKeys(pool) && DistinctKeys(pool')
    requires forall e :: e in pool <==> e in pool'
    requires forall e :: Capable(input, e) <==> Capable(input', e)
    ensures RecordsByKey(ExhaustedCapable(input, pool)) == RecordsByKey(ExhaustedCapable(input', pool'))
    ensures ExhaustedCapable(input, pool) == [] <==> ExhaustedCapable(input', pool') == []
  {
    var a, b := ExhaustedCapable(input, pool), ExhaustedCapable(input', pool');
    assert forall e :: e in a <==> e in b;
    SameEmptiness(a, b);
    ExhaustedCapableDistinct(input, pool);
    ExhaustedCapableDistinct(input', pool');
    RecordsByKeyContents(a);
    RecordsByKeyContents(b);
    SortedIsUnique(RecordsByKey(a), RecordsByKey(b));
  }

  lemma SameReason(input: Input, input': Input, pool: seq<PoolEntry>, pool': seq<PoolEntry>, limits: Limits)
    requires forall e :: e in pool <==> e in pool'
    requires forall e :: MeetsNeeds(input, e) <==> MeetsNeeds(input', e)
    requires forall e :: Capable(input, e) <==> Capable(input', e)
    ensures FleetReason(input, pool, limits) == FleetReason(input', pool', limits)
  {
    SameGaFallback(input, input', pool, pool');
    assert forall e :: LoadBearingPreview(input, pool, limits, e) <==> LoadBearingPreview(input', pool', limits, e);
  }

  /**
   * What the preview reason means for an operator: every runner able to do this work is a preview
   * runner that is up and has quota, and nobody has acknowledged relying on one.
   */
  lemma PreviewReasonExactly(input: Input, pool: seq<PoolEntry>, limits: Limits)
    ensures Decide(input, pool, limits) == Queued(OnlyPreviewRunnersAndNoGaFallback) <==>
            && !GlobalLimitReached(limits)
            && !limits.allowPreview
            && (exists e | e in pool :: e.enabled && Capable(input, e))
            && forall e | e in pool && e.enabled && Capable(input, e) ::
                 IsPreview(e.capabilities) && IsAvailable(e.capabilities) && !Exhausted(e)
  {
    var es := EligibleOf(input, pool, limits, pool);
    if es != [] {
      assert es[0] in es;
    }
    if && !limits.allowPreview
       && (exists e | e in pool :: e.enabled && Capable(input, e))
       && forall e | e in pool && e.enabled && Capable(input, e) ::
            IsPreview(e.capabilities) && IsAvailable(e.capabilities) && !Exhausted(e)
    {
      var e :| e in pool && e.enabled && Capable(input, e);
      assert !GaFallback(input, pool);
      assert LoadBearingPreview(input, pool, limits, e);
    }
  }

  /**
   * The capacity reason is the remainder: some runner is capable, none of the capable ones is out of
   * quota, none is eligible, and at least one of them is not merely a refused preview runner. It covers
   * a runner that reports itself unavailable as well as a full one.
   */
  lemma CapacityReasonExactly(input: Input, pool: seq<PoolEntry>, limits: Limits)
    ensures Decide(input, pool, limits) == Queued(CapableRunnersAtCapacity) <==>
            && !GlobalLimitReached(limits)
            && (forall e | e in pool && e.enabled && Capable(input, e) :: !Exhausted(e) && !Eligible(input, pool, limits, e))
            && exists e | e in pool && e.enabled && Capable(input, e) ::
                 !IsAvailable(e.capabilities)
                 || (Headroom(e) == 0 && (!IsPreview(e.capabilities) || GaFallback(input, pool) || limits.allowPreview))
  {
    var es := EligibleOf(input, pool, limits, pool);
    if es != [] {
      assert es[0] in es;
    }
    if es == [] && Decide(input, pool, limits) == Queued(CapableRunnersAtCapacity) {
      var e :| e in pool && e.enabled && Capable(input, e) && !LoadBearingPreview(input, pool, limits, e);
      assert e !in es;
    }
  }

  /** Before any runner is judged: nothing registered, everything disabled, or the fleet full, in that order. */
  lemma UnjudgedReasonsExactly(input: Input, pool: seq<PoolEntry>, limits: Limits)
    ensures Decide(input, pool, limits) == Queued(NoRunnersRegistered) <==> pool == []
    ensures Decide(input, pool, limits) == Queued(AllRunnersDisabled) <==> pool != [] && forall e | e in pool :: !e.enabled
    ensures Decide(input, pool, limits) == Queued(GlobalConcurrencyReached) <==>
            && (exists e | e in pool :: e.enabled)
            && limits.globalMax.Some? && limits.globalLive >= limits.globalMax.value
  {
    NothingEligible(input, pool, limits);
  }

  /** A reason that judging found: some runner is enabled, the fleet has room, and nothing is eligible. */
  lemma NothingEligible(input: Input, pool: seq<PoolEntry>, limits: Limits)
    ensures NobodyEnabled(pool) <==> !exists e | e in pool :: e.enabled
    ensures !NobodyEnabled(pool) && !GlobalLimitReached(limits) ==>
              if exists e | e in pool :: Eligible(input, pool, limits, e) then Decide(input, pool, limits).Dispatch?
              else Decide(input, pool, limits) == Queued(FleetReason(input, pool, limits))
  {
    var es := EligibleOf(input, pool, limits, pool);
    if es != [] {
      assert es[0] in es;
    }
  }

  /** The capabilities are missing exactly when every enabled runner leaves some need unmet. */
  lemma NeedsReasonExactly(input: Input, pool: seq<PoolEntry>, limits: Limits)
    ensures Decide(input, pool, limits) == Queued(NoRunnerHasTheCapabilities) <==>
            && !GlobalLimitReached(limits)
            && (exists e | e in pool :: e.enabled)
            && forall e | e in pool && e.enabled :: exists n | n in input.needs :: !Satisfies(n, e.capabilities)
  {
    NothingEligible(input, pool, limits);
    assert NobodyMeetsNeeds(input, pool) <==>
           forall e | e in pool && e.enabled :: exists n | n in input.needs :: !Satisfies(n, e.capabilities);
  }

  /** The tier is the obstacle exactly when some enabled runner meets the needs and none that does serves it. */
  lemma TierReasonExactly(input: Input, pool: seq<PoolEntry>, limits: Limits)
    ensures Decide(input, pool, limits) == Queued(NoRunnerServesTheModelTier) <==>
            && !GlobalLimitReached(limits)
            && (exists e | e in pool :: e.enabled && MeetsNeeds(input, e))
            && forall e | e in pool && e.enabled && MeetsNeeds(input, e) :: !ServesTier(input.tier, e.capabilities)
  {
    NothingEligible(input, pool, limits);
  }

  /** Quota is the obstacle exactly when nothing is eligible and some enabled capable runner is out of it. */
  lemma QuotaReasonExactly(input: Input, pool: seq<PoolEntry>, limits: Limits)
    ensures Decide(input, pool, limits) == Queued(CapableRunnersQuotaExhausted) <==>
            && !GlobalLimitReached(limits)
            && (exists e | e in pool :: e.enabled && Capable(input, e) && Exhausted(e))
            && forall e | e in pool :: !Eligible(input, pool, limits, e)
  {
    NothingEligible(input, pool, limits);
    if e :| e in pool && e.enabled && Capable(input, e) && Exhausted(e) {
      assert !LoadBearingPreview(input, pool, limits, e);
    }
  }

  // ---------------------------------------------------------------------------------------------
  // The program
  // ---------------------------------------------------------------------------------------------

  /** The order candidates are ranked by: eligible first, then more headroom, then the lesser key. */
  predicate Precedes(a: Verdict, b: Verdict)
  {
    if a.eligible != b.eligible then a.eligible
    else if a.headroom != b.headroom then a.headroom > b.headroom
    else a.key < b.key
  }

  ghost predicate Ranked(vs: seq<Verdict>)
  {
    forall i, j | 0 <= i < j < |vs| :: !Precedes(vs[j], vs[i])
  }

  function VerdictFor(input: Input, e: PoolEntry, eligible: bool): Verdict
  {
    Verdict(e.capabilities.key, eligible, UnmetNeeds(input.needs, e.capabilities), Headroom(e), e.quota)
  }

  predicate NoneMeets(candidates: seq<Verdict>)
  {
    forall v | v in candidates :: v.unmet != []
  }

  predicate AllRefusedForTier(candidates: seq<Verdict>, tier: set<RunnerKey>)
  {
    forall v | v in candidates :: v.unmet == [] ==> v.key in tier
  }

  predicate AllRefusedAsPreview(candidates: seq<Verdict>, tier: set<RunnerKey>, preview: set<RunnerKey>)
  {
    forall v | v in candidates :: v.unmet == [] && v.key !in tier ==> v.key in preview
  }

  /** Which of several failures to report, from the verdicts and the refusals recorded on the way. */
  function Diagnose(candidates: seq<Verdict>, refusedForTier: set<RunnerKey>,
                    refusedAsPreview: set<RunnerKey>, quotaExhausted: set<RunnerKey>): QueueReason
  {
    if NoneMeets(candidates) then NoRunnerHasTheCapabilities
    else if AllRefusedForTier(candidates, refusedForTier) then NoRunnerServesTheModelTier
    else if AllRefusedAsPreview(candidates, refusedForTier, refusedAsPreview) then OnlyPreviewRunnersAndNoGaFallback
    else if quotaExhausted != {} then CapableRunnersQuotaExhausted
    else CapableRunnersAtCapacity
  }

  method RankCandidates(verdicts: seq<Verdict>) returns (ranked: seq<Verdict>)
    ensures Ranked(ranked)
    ensures multiset(ranked) == multiset(verdicts)
  {
    ranked := [];
    for i := 0 to |verdicts|
      invariant Ranked(ranked)
      invariant multiset(ranked) == multiset(verdicts[..i])
    {
      ranked := InsertRanked(ranked, verdicts[i]);
      assert verdicts[..i + 1] == verdicts[..i] + [verdicts[i]];
    }
    assert verdicts[..|verdicts|] == verdicts;
  }

  method InsertRanked(ranked: seq<Verdict>, v: Verdict) returns (ranked': seq<Verdict>)
    requires Ranked(ranked)
    ensures Ranked(ranked') && multiset(ranked') == multiset(ranked) + multiset{v}
  {
    var k := |ranked|;
    while k > 0 && Precedes(v, ranked[k - 1])
      invariant 0 <= k <= |ranked|
      invariant k < |ranked| ==> Precedes(v, ranked[k])
    {
      k := k - 1;
    }
    InsertKeepsRank(ranked, k, v);
    InsertContents(ranked, k, v);
    ranked' := ranked[..k] + [v] + ranked[k..];
  }

  lemma RankTransitive(a: Verdict, b: Verdict, c: Verdict)
    requires !Precedes(b, a) && !Precedes(c, b)
    ensures !Precedes(c, a)
  {
  }

  lemma InsertContents(ranked: seq<Verdict>, k: nat, v: Verdict)
    requires k <= |ranked|
    ensures multiset(ranked[..k] + [v] + ranked[k..]) == multiset(ranked) + multiset{v}
  {
    assert ranked == ranked[..k] + ranked[k..];
  }

  lemma InsertKeepsRank(ranked: seq<Verdict>, k: nat, v: Verdict)
    requires Ranked(ranked) && k <= |ranked|
    requires k < |ranked| ==> Precedes(v, ranked[k])
    requires k > 0 ==> !Precedes(v, ranked[k - 1])
    ensures Ranked(ranked[..k] + [v] + ranked[k..])
  {
    var r := ranked[..k] + [v] + ranked[k..];
    forall i, j | 0 <= i < j < |r|
      ensures !Precedes(r[j], r[i])
    {
      if j == k {
        if i < k - 1 { RankTransitive(ranked[i], ranked[k - 1], v); }
      } else if i == k {
        if j > k + 1 { RankTransitive(v, ranked[k], ranked[j - 1]); }
      } else {
        var i', j' := if i < k then i else i - 1, if j < k then j else j - 1;
        assert r[i] == ranked[i'] && r[j] == ranked[j'];
      }
    }
  }

  ghost predicate TierRefused(input: Input, e: PoolEntry)
  {
    MeetsNeeds(input, e) && !ServesTier(input.tier, e.capabilities)
  }

  function Enabled(pool: seq<PoolEntry>): (enabled: seq<PoolEntry>)
    ensures forall e :: e in enabled <==> e in pool && e.enabled
  {
    if pool == [] then []
    else
      var last := pool[|pool| - 1];
      assert pool == pool[..|pool| - 1] + [last];
      Enabled(pool[..|pool| - 1]) + if last.enabled then [last] else []
  }

  method EnabledOf(pool: seq<PoolEntry>) returns (enabled: seq<PoolEntry>)
    ensures enabled == Enabled(pool)
  {
    enabled := [];
    for i := 0 to |pool|
      invariant enabled == Enabled(pool[..i])
    {
      assert pool[..i + 1][..i] == pool[..i];
      if pool[i].enabled { enabled := enabled + [pool[i]]; }
    }
    assert pool[..|pool|] == pool;
  }

  /** One verdict per runner, refused for a reason that is not its own: everything is disabled, or full. */
  function RefusedAll(input: Input, pool: seq<PoolEntry>): (verdicts: seq<Verdict>)
    ensures NobodyEnabled(pool) ==>
              |verdicts| == |pool| && forall j | 0 <= j < |pool| :: verdicts[j] == Verdict(pool[j].capabilities.key, false, [], 0, None)
    ensures !NobodyEnabled(pool) ==>
              && |verdicts| == |Enabled(pool)|
              && forall j | 0 <= j < |verdicts| :: verdicts[j] == VerdictFor(input, Enabled(pool)[j], false)
  {
    if NobodyEnabled(pool) then
      seq(|pool|, j requires 0 <= j < |pool| => Verdict(pool[j].capabilities.key, false, [], 0, None))
    else
      var es := Enabled(pool);
      seq(|es|, j requires 0 <= j < |es| => VerdictFor(input, es[j], false))
  }

  /** The verdict each of these runners is owed. */
  function VerdictsOn(input: Input, pool: seq<PoolEntry>, limits: Limits, es: seq<PoolEntry>): (verdicts: seq<Verdict>)
    ensures |verdicts| == |es|
    ensures forall j | 0 <= j < |es| :: verdicts[j] == VerdictFor(input, es[j], Eligible(input, pool, limits, es[j]))
  {
    seq(|es|, j requires 0 <= j < |es| => VerdictFor(input, es[j], Eligible(input, pool, limits, es[j])))
  }

  method HasGaFallback(input: Input, enabled: seq<PoolEntry>) returns (fallback: bool)
    ensures fallback <==> exists e | e in enabled :: !IsPreview(e.capabilities) && Capable(input, e)
  {
    for i := 0 to |enabled|
      invariant forall e | e in enabled[..i] :: IsPreview(e.capabilities) || !Capable(input, e)
    {
      var e := enabled[i];
      if && !IsPreview(e.capabilities)
         && UnmetNeeds(input.needs, e.capabilities) == []
         && ServesTier(input.tier, e.capabilities)
      {
        assert Capable(input, e) && e in enabled;
        return true;
      }
    }
    assert enabled[..|enabled|] == enabled;
    return false;
  }

  /** Everything the judging pass leaves behind, stated per enabled runner. */
  ghost predicate Judged(input: Input, pool: seq<PoolEntry>, limits: Limits, enabled: seq<PoolEntry>,
                         verdicts: seq<Verdict>, refusedForTier: set<RunnerKey>, refusedAsPreview: set<RunnerKey>)
  {
    && |verdicts| == |enabled|
    && (forall j | 0 <= j < |enabled| ::
          verdicts[j] == VerdictFor(input, enabled[j], Eligible(input, pool, limits, enabled[j])))
    && (forall k :: k in refusedForTier <==>
          exists e | e in enabled :: TierRefused(input, e) && e.capabilities.key == k)
    && (forall k :: k in refusedAsPreview <==>
          exists e | e in enabled :: LoadBearingPreview(input, pool, limits, e) && e.capabilities.key == k)
  }

  /** One runner's verdict, in the branch order of the program. */
  method JudgeOne(input: Input, limits: Limits, fallback: bool, e: PoolEntry, ghost pool: seq<PoolEntry>)
    returns (v: Verdict, tier: bool, preview: bool)
    requires e in pool && e.enabled
    requires fallback <==> GaFallback(input, pool)
    ensures v == VerdictFor(input, e, Eligible(input, pool, limits, e))
    ensures tier <==> TierRefused(input, e)
    ensures preview <==> LoadBearingPreview(input, pool, limits, e)
  {
    var eligible := false;
    tier, preview := false, false;
    if UnmetNeeds(input.needs, e.capabilities) != [] {
    } else if !ServesTier(input.tier, e.capabilities) {
      tier := true;
    } else if !IsAvailable(e.capabilities) {
    } else if e.quota.Some? && e.quota.value.exhausted {
    } else if IsPreview(e.capabilities) && !fallback && !limits.allowPreview {
      preview := true;
    } else {
      eligible := Headroom(e) > 0;
    }
    v := VerdictFor(input, e, eligible);
  }

  method JudgeAll(input: Input, limits: Limits, fallback: bool, enabled: seq<PoolEntry>, ghost pool: seq<PoolEntry>)
    returns (verdicts: seq<Verdict>, refusedForTier: set<RunnerKey>, refusedAsPreview: set<RunnerKey>)
    requires forall e | e in enabled :: e in pool && e.enabled
    requires fallback <==> GaFallback(input, pool)
    ensures Judged(input, pool, limits, enabled, verdicts, refusedForTier, refusedAsPreview)
  {
    verdicts, refusedForTier, refusedAsPreview := [], {}, {};
    for i := 0 to |enabled|
      invariant Judged(input, pool, limits, enabled[..i], verdicts, refusedForTier, refusedAsPreview)
    {
      var e := enabled[i];
      var v, tier, preview := JudgeOne(input, limits, fallback, e, pool);
      assert enabled[..i + 1] == enabled[..i] + [e];
      verdicts := verdicts + [v];
      if tier { refusedForTier := refusedForTier + {e.capabilities.key}; }
      if preview { refusedAsPreview := refusedAsPreview + {e.capabilities.key}; }
    }
    assert enabled[..|enabled|] == enabled;
  }

  /** A ranked verdict and the pool entry it was given about, as the diagnosis sees the pair. */
  ghost predicate Matches(input: Input, pool: seq<PoolEntry>, limits: Limits,
                          refusedForTier: set<RunnerKey>, refusedAsPreview: set<RunnerKey>, v: Verdict, e: PoolEntry)
  {
    && (v.unmet == [] <==> MeetsNeeds(input, e))
    && (v.key in refusedForTier <==> TierRefused(input, e))
    && (v.key in refusedAsPreview <==> LoadBearingPreview(input, pool, limits, e))
  }

  lemma JudgedMatches(input: Input, pool: seq<PoolEntry>, limits: Limits, enabled: seq<PoolEntry>,
                      verdicts: seq<Verdict>, refusedForTier: set<RunnerKey>, refusedAsPreview: set<RunnerKey>, j: nat)
    requires DistinctKeys(pool)
    requires forall e :: e in enabled <==> e in pool && e.enabled
    requires Judged(input, pool, limits, enabled, verdicts, refusedForTier, refusedAsPreview)
    requires j < |enabled|
    ensures Matches(input, pool, limits, refusedForTier, refusedAsPreview, verdicts[j], enabled[j])
  {
    assert enabled[j] in enabled;
    forall f | f in enabled && f.capabilities.key == enabled[j].capabilities.key
      ensures f == enabled[j]
    {
      SameKeySameEntry(pool, enabled[j], f);
    }
  }

  /** The diagnosis sees only verdicts and recorded sets, and still reports exactly the fleet's reason. */
  lemma DiagnosisIsExact(input: Input, pool: seq<PoolEntry>, limits: Limits, enabled: seq<PoolEntry>,
                         verdicts: seq<Verdict>, candidates: seq<Verdict>,
                         refusedForTier: set<RunnerKey>, refusedAsPreview: set<RunnerKey>, quotaExhausted: set<RunnerKey>)
    requires DistinctKeys(pool)
    requires forall e :: e in enabled <==> e in pool && e.enabled
    requires Judged(input, pool, limits, enabled, verdicts, refusedForTier, refusedAsPreview)
    requires multiset(candidates) == multiset(verdicts)
    requires quotaExhausted == set e | e in ExhaustedCapable(input, pool) :: e.capabilities.key
    ensures Diagnose(candidates, refusedForTier, refusedAsPreview, quotaExhausted) == FleetReason(input, pool, limits)
  {
    forall j | 0 <= j < |enabled|
      ensures Matches(input, pool, limits, refusedForTier, refusedAsPreview, verdicts[j], enabled[j])
    {
      JudgedMatches(input, pool, limits, enabled, verdicts, refusedForTier, refusedAsPreview, j);
    }
    assert forall v :: v in candidates <==> v in multiset(candidates);
    assert forall v :: v in verdicts <==> v in multiset(verdicts);
    DiagnoseByMembers(candidates, verdicts, refusedForTier, refusedAsPreview, quotaExhausted);
    SpentExactly(input, pool, quotaExhausted);
    MatchedReason(input, pool, limits, enabled, verdicts, refusedForTier, refusedAsPreview, quotaExhausted);
  }

  lemma SpentExactly(input: Input, pool: seq<PoolEntry>, quotaExhausted: set<RunnerKey>)
    requires quotaExhausted == set e | e in ExhaustedCapable(input, pool) :: e.capabilities.key
    ensures quotaExhausted != {} <==> SomeCapableExhausted(input, pool)
  {
    if e :| e in pool && e.enabled && Capable(input, e) && Exhausted(e) {
      assert e.capabilities.key in quotaExhausted;
    }
  }

  lemma DiagnoseByMembers(a: seq<Verdict>, b: seq<Verdict>, tier: set<RunnerKey>, preview: set<RunnerKey>, spent: set<RunnerKey>)
    requires forall v :: v in a <==> v in b
    ensures Diagnose(a, tier, preview, spent) == Diagnose(b, tier, preview, spent)
  {
  }

  lemma MatchedReason(input: Input, pool: seq<PoolEntry>, limits: Limits, enabled: seq<PoolEntry>, verdicts: seq<Verdict>,
                      tier: set<RunnerKey>, preview: set<RunnerKey>, spent: set<RunnerKey>)
    requires forall e :: e in enabled <==> e in pool && e.enabled
    requires |verdicts| == |enabled|
    requires forall j | 0 <= j < |enabled| :: Matches(input, pool, limits, tier, preview, verdicts[j], enabled[j])
    requires spent != {} <==> SomeCapableExhausted(input, pool)
    ensures Diagnose(verdicts, tier, preview, spent) == FleetReason(input, pool, limits)
  {
    assert NoneMeets(verdicts) <==> NobodyMeetsNeeds(input, pool) by {
      AllTransfer(verdicts, enabled, (v: Verdict) => v.unmet != [], (e: PoolEntry) => !MeetsNeeds(input, e));
    }
    assert AllRefusedForTier(verdicts, tier) <==> NobodyCapable(input, pool) by {
      AllTransfer(verdicts, enabled, (v: Verdict) => v.unmet == [] ==> v.key in tier, (e: PoolEntry) => !Capable(input, e));
    }
    assert AllRefusedAsPreview(verdicts, tier, preview) <==> OnlyLoadBearingPreviews(input, pool, limits) by {
      AllTransfer(verdicts, enabled, (v: Verdict) => v.unmet == [] && v.key !in tier ==> v.key in preview,
                  (e: PoolEntry) => Capable(input, e) ==> LoadBearingPreview(input, pool, limits, e));
    }
  }

  lemma AllTransfer(vs: seq<Verdict>, es: seq<PoolEntry>, p: Verdict -> bool, q: PoolEntry -> bool)
    requires |vs| == |es| && forall j | 0 <= j < |es| :: p(vs[j]) <==> q(es[j])
    ensures (forall v | v in vs :: p(v)) <==> (forall e | e in es :: q(e))
  {
    if forall v | v in vs :: p(v) {
      forall e | e in es ensures q(e) {
        var j :| 0 <= j < |es| && es[j] == e;
        assert vs[j] in vs;
      }
    } else {
      var v :| v in vs && !p(v);
      var j :| 0 <= j < |vs| && vs[j] == v;
      assert es[j] in es;
    }
  }

  lemma EntryHasVerdict(input: Input, pool: seq<PoolEntry>, limits: Limits, enabled: seq<PoolEntry>,
                        verdicts: seq<Verdict>, candidates: seq<Verdict>, e: PoolEntry)
    requires |verdicts| == |enabled|
    requires forall j | 0 <= j < |enabled| ::
               verdicts[j] == VerdictFor(input, enabled[j], Eligible(input, pool, limits, enabled[j]))
    requires multiset(candidates) == multiset(verdicts)
    requires e in enabled
    ensures VerdictFor(input, e, Eligible(input, pool, limits, e)) in candidates
  {
    var j :| 0 <= j < |enabled| && enabled[j] == e;
    assert verdicts[j] in multiset(verdicts) && verdicts[j] in multiset(candidates);
  }

  lemma EligibleLeads(candidates: seq<Verdict>, first: nat)
    requires Ranked(candidates) && first < |candidates| && candidates[first].eligible
    requires forall i | 0 <= i < first :: !candidates[i].eligible
    ensures first == 0
  {
    assert first == 0 || !Precedes(candidates[first], candidates[0]);
  }

  /** The first eligible verdict in rank order belongs to the reference winner. */
  lemma FirstEligibleIsBest(input: Input, pool: seq<PoolEntry>, limits: Limits, enabled: seq<PoolEntry>,
                            verdicts: seq<Verdict>, tier: set<RunnerKey>, preview: set<RunnerKey>,
                            candidates: seq<Verdict>, first: nat)
    requires DistinctKeys(pool)
    requires forall e :: e in enabled <==> e in pool && e.enabled
    requires Judged(input, pool, limits, enabled, verdicts, tier, preview)
    requires multiset(candidates) == multiset(verdicts) && Ranked(candidates)
    requires first <= |candidates| && forall i | 0 <= i < first :: !candidates[i].eligible
    requires first < |candidates| ==> candidates[first].eligible
    ensures first == |candidates| <==> Best(EligibleOf(input, pool, limits, pool)).None?
    ensures first < |candidates| ==>
              var w := Best(EligibleOf(input, pool, limits, pool)).value;
              && first == 0
              && candidates[first].key == w.capabilities.key && candidates[first].headroom == Headroom(w)
  {
    if first < |candidates| { EligibleLeads(candidates, first); }
    var es := EligibleOf(input, pool, limits, pool);
    if es != [] {
      var w := Best(es).value;
      EntryHasVerdict(input, pool, limits, enabled, verdicts, candidates, w);
      var k :| 0 <= k < |candidates| && candidates[k] == VerdictFor(input, w, true);
      assert first <= k;
    }
    if first < |candidates| {
      assert candidates[first] in multiset(candidates) && candidates[first] in multiset(verdicts);
      var j :| 0 <= j < |verdicts| && verdicts[j] == candidates[first];
      assert enabled[j] in enabled && enabled[j] in es;
      var w := Best(es).value;
      EntryHasVerdict(input, pool, limits, enabled, verdicts, candidates, w);
      var k :| 0 <= k < |candidates| && candidates[k] == VerdictFor(input, w, true);
      assert first < k ==> !Precedes(candidates[k], candidates[first]);
      assert !Better(enabled[j], w);
      SameKeySameEntry(pool, enabled[j], w);
    }
  }

  /** The judged and ranked enabled runners, with the reason to report if none of them is eligible. */
  method JudgeAndRank(input: Input, pool: seq<PoolEntry>, limits: Limits, enabled: seq<PoolEntry>, quotaExhausted: set<RunnerKey>)
    returns (candidates: seq<Verdict>, first: nat, reason: QueueReason)
    requires DistinctKeys(pool)
    requires forall e :: e in enabled <==> e in pool && e.enabled
    requires quotaExhausted == set e | e in ExhaustedCapable(input, pool) :: e.capabilities.key
    ensures Ranked(candidates) && first <= |candidates|
    ensures first == |candidates| <==> Best(EligibleOf(input, pool, limits, pool)).None?
    ensures first < |candidates| ==>
              var w := Best(EligibleOf(input, pool, limits, pool)).value;
              && first == 0 && candidates[0].eligible
              && candidates[0].key == w.capabilities.key && candidates[0].headroom == Headroom(w)
    ensures reason == FleetReason(input, pool, limits)
    ensures multiset(candidates) == multiset(VerdictsOn(input, pool, limits, enabled))
  {
    var fallback := HasGaFallback(input, enabled);
    var verdicts, refusedForTier, refusedAsPreview := JudgeAll(input, limits, fallback, enabled, pool);
    assert verdicts == VerdictsOn(input, pool, limits, enabled);
    candidates := RankCandidates(verdicts);
    first := 0;
    while first < |candidates| && !candidates[first].eligible
      invariant 0 <= first <= |candidates|
      invariant forall i | 0 <= i < first :: !candidates[i].eligible
    {
      first := first + 1;
    }
    FirstEligibleIsBest(input, pool, limits, enabled, verdicts, refusedForTier, refusedAsPreview, candidates, first);
    DiagnosisIsExact(input, pool, limits, enabled, verdicts, candidates, refusedForTier, refusedAsPreview, quotaExhausted);
    reason := Diagnose(candidates, refusedForTier, refusedAsPreview, quotaExhausted);
  }

  /**
   * `decideDispatch`: the enabled runners are judged one by one, ranked, and either the first eligible
   * one takes the work or the refusals are diagnosed. On a pool with distinct keys it is the reference,
   * the candidates are the enabled runners' verdicts, one each, and the ranking is led by the chosen runner,
   * carrying its headroom. When no runner is enabled, or the fleet is full, each is listed as refused.
   */
  method DecideDispatch(input: Input, pool: seq<PoolEntry>, limits: Limits)
    returns (d: Decision, candidates: seq<Verdict>)
    requires DistinctKeys(pool)
    ensures d == Decide(input, pool, limits)
    ensures if NobodyEnabled(pool) || GlobalLimitReached(limits) then candidates == RefusedAll(input, pool)
            else Ranked(candidates) && multiset(candidates) == multiset(VerdictsOn(input, pool, limits, Enabled(pool)))
    ensures d.Dispatch? ==>
              && candidates != []
              && candidates[0].key == d.runner && candidates[0].headroom == d.headroom && candidates[0].eligible
  {
    var enabled := EnabledOf(pool);
    candidates := RefusedAll(input, pool);
    if enabled == [] {
      return Queued(if pool == [] then NoRunnersRegistered else AllRunnersDisabled), candidates;
    }
    assert enabled[0] in enabled;
    if GlobalLimitReached(limits) {
      return Queued(GlobalConcurrencyReached), candidates;
    }
    var spent := ExhaustedCapable(input, pool);
    var quotaExhausted := set e | e in spent :: e.capabilities.key;
    var ranked, first, reason := JudgeAndRank(input, pool, limits, enabled, quotaExhausted);
    candidates := ranked;
    if first == |candidates| {
      return Queued(reason), candidates;
    }
    var chosen := candidates[first];
    ChosenIsNotSpent(input, pool, limits, quotaExhausted);
    d := Dispatch(chosen.key, chosen.headroom,
                  if quotaExhausted != {} && chosen.key !in quotaExhausted
                  then Some(AvoidedPark(chosen.key, RecordsByKey(spent))) else None);
  }

  lemma ChosenIsNotSpent(input: Input, pool: seq<PoolEntry>, limits: Limits, quotaExhausted: set<RunnerKey>)
    requires DistinctKeys(pool)
    requires quotaExhausted == set e | e in ExhaustedCapable(input, pool) :: e.capabilities.key
    requires Best(EligibleOf(input, pool, limits, pool)).Some?
    ensures Best(EligibleOf(input, pool, limits, pool)).value.capabilities.key !in quotaExhausted
    ensures quotaExhausted == {} <==> ExhaustedCapable(input, pool) == []
  {
    var w := Best(EligibleOf(input, pool, limits, pool)).value;
    var spent := ExhaustedCapable(input, pool);
    if spent != [] {
      assert spent[0] in spent && spent[0].capabilities.key in quotaExhausted;
    }
    forall e | e in spent
      ensures e.capabilities.key != w.capabilities.key
    {
      if e.capabilities.key == w.capabilities.key {
        SameKeySameEntry(pool, e, w);
      }
    }
  }
}
