/**
 * Quota positions (`dispatch.service.ts`): what blocked runs say about a runner's quota, how that
 * reading is combined with the runner's own meter, and what routing then does with it.
 */
module Quota {
  import opened Base
  import opened Timestamps
  import opened DispatchPolicy

  datatype BlockEvent = BlockEvent(reason: Option<string>, until: Option<Stamp>)

  /** A run in `blocked`, with its newest `run_blocked` event if it has one. */
  datatype BlockedRun = BlockedRun(runner: RunnerKey, event: Option<BlockEvent>, resumesAt: Option<Stamp>)

  ghost predicate ValidRow(row: BlockedRun)
  {
    && (row.event.Some? && row.event.value.until.Some? ==> Valid(row.event.value.until.value))
    && (row.resumesAt.Some? ==> Valid(row.resumesAt.value))
  }

  predicate IsQuotaReason(reason: Option<string>)
  {
    reason == Some("rate-limit") || reason == Some("quota-exhausted")
  }

  /** The row names a quota reason and this date is one of the two it carries. */
  ghost predicate DatedBlock(row: BlockedRun, date: Stamp)
  {
    && row.event.Some? && IsQuotaReason(row.event.value.reason)
    && (row.event.value.until == Some(date) || row.resumesAt == Some(date))
  }

  /** Some row dates a quota block on this runner to an instant still ahead. */
  ghost predicate LiveBlock(rows: seq<BlockedRun>, runner: RunnerKey, now: int, date: Stamp)
  {
    exists row | row in rows :: row.runner == runner && DatedBlock(row, date) && Instant(date) > now
  }

  /** The date is live for the runner and no live date of the runner is later. */
  ghost predicate LatestLiveBlock(rows: seq<BlockedRun>, runner: RunnerKey, now: int, date: Stamp)
  {
    && LiveBlock(rows, runner, now, date)
    && forall d :: LiveBlock(rows, runner, now, d) ==> Instant(d) <= Instant(date)
  }

  function Later(a: Stamp, b: Stamp): Stamp
  {
    if Instant(a) > Instant(b) then a else b
  }

  /** The row's own reset time: the later of its dates, when the block is a quota block still in force. */
  function RowUntil(row: BlockedRun, now: int): (until: Option<Stamp>)
    ensures until.None? ==> forall d :: DatedBlock(row, d) ==> Instant(d) <= now
    ensures until.Some? ==> DatedBlock(row, until.value) && Instant(until.value) > now
                            && forall d :: DatedBlock(row, d) ==> Instant(d) <= Instant(until.value)
  {
    if row.event.None? || !IsQuotaReason(row.event.value.reason) then None
    else
      var best := match (row.event.value.until, row.resumesAt)
                  case (None, None) => None
                  case (Some(d), None) => Some(d)
                  case (None, Some(d)) => Some(d)
                  case (Some(d), Some(d')) => Some(Later(d, d'));
      if best.Some? && Instant(best.value) > now then best else None
  }

  /**
   * `quotaPositions`: one pass over the blocked runs. A runner has a position exactly when it has a live
   * dated quota block, and its reset time is the latest of them, in whatever order the rows arrive.
   */
  method QuotaPositions(rows: seq<BlockedRun>, now: int) returns (latest: map<RunnerKey, Stamp>)
    ensures forall k :: k in latest <==> exists d :: LiveBlock(rows, k, now, d)
    ensures forall k | k in latest :: LatestLiveBlock(rows, k, now, latest[k])
  {
    latest := map[];
    for i := 0 to |rows|
      invariant Positions(rows[..i], now, latest)
    {
      var row := rows[i];
      var until := RowUntil(row, now);
      ghost var before := latest;
      if until.Some? {
        if row.runner !in latest || Instant(until.value) > Instant(latest[row.runner]) {
          latest := latest[row.runner := until.value];
        }
      }
      assert rows[..i + 1] == rows[..i] + [row];
      PositionsNext(rows[..i], row, now, before, latest);
    }
    assert rows[..|rows|] == rows;
  }

  /** What the pass has found in these rows. */
  ghost predicate Positions(rows: seq<BlockedRun>, now: int, latest: map<RunnerKey, Stamp>)
  {
    && (forall k :: k in latest <==> exists d :: LiveBlock(rows, k, now, d))
    && forall k | k in latest :: LatestLiveBlock(rows, k, now, latest[k])
  }

  lemma PositionsNext(rows: seq<BlockedRun>, row: BlockedRun, now: int, before: map<RunnerKey, Stamp>, after: map<RunnerKey, Stamp>)
    requires Positions(rows, now, before)
    requires var until := RowUntil(row, now);
             after == if until.Some? && (row.runner !in before || Instant(until.value) > Instant(before[row.runner]))
                      then before[row.runner := until.value] else before
    ensures Positions(rows + [row], now, after)
  {
    var until := RowUntil(row, now);
    OneMoreRow(rows, row, now);
    forall k ensures k in after <==> exists d :: LiveBlock(rows + [row], k, now, d) {
      if k == row.runner && until.Some? {
        assert LiveBlock(rows + [row], k, now, until.value);
      }
    }
    forall k | k in after ensures LatestLiveBlock(rows + [row], k, now, after[k]) {
      LatestOfMore(rows, row, now, before, after, k);
    }
  }

  lemma LatestOfMore(rows: seq<BlockedRun>, row: BlockedRun, now: int, before: map<RunnerKey, Stamp>, after: map<RunnerKey, Stamp>,
                     k: RunnerKey)
    requires Positions(rows, now, before) && k in after
    requires var until := RowUntil(row, now);
             after == if until.Some? && (row.runner !in before || Instant(until.value) > Instant(before[row.runner]))
                      then before[row.runner := until.value] else before
    ensures LatestLiveBlock(rows + [row], k, now, after[k])
  {
    OneMoreRow(rows, row, now);
    if k in before {
      assert LatestLiveBlock(rows, k, now, before[k]);
    }
  }

  lemma OneMoreRow(rows: seq<BlockedRun>, row: BlockedRun, now: int)
    ensures forall k, d :: LiveBlock(rows + [row], k, now, d) <==>
              LiveBlock(rows, k, now, d) || (k == row.runner && DatedBlock(row, d) && Instant(d) > now)
  {
    forall k, d
      ensures LiveBlock(rows + [row], k, now, d) <==>
              LiveBlock(rows, k, now, d) || (k == row.runner && DatedBlock(row, d) && Instant(d) > now)
    {
      assert row in rows + [row];
      assert forall r :: r in rows + [row] <==> r in rows || r == row;
    }
  }

  /** The latest live date is unique, so it depends on which rows exist and not on their order. */
  lemma RowOrderIrrelevant(rows: seq<BlockedRun>, rows': seq<BlockedRun>, runner: RunnerKey, now: int, d: Stamp, d': Stamp)
    requires forall row | row in rows :: ValidRow(row)
    requires forall row :: row in rows <==> row in rows'
    requires LatestLiveBlock(rows, runner, now, d) && LatestLiveBlock(rows', runner, now, d')
    ensures d == d'
  {
    assert LiveBlock(rows, runner, now, d') && LiveBlock(rows', runner, now, d);
    StringOrderIsChronological(d, d');
  }

  // ---------------------------------------------------------------------------------------------
  // Combining with the meter
  // ---------------------------------------------------------------------------------------------

  /** `laterOf`: the greater of two rendered reset times, as strings. */
  function LaterOf(a: Option<string>, b: Option<string>): Option<string>
  {
    if a.None? then b else if b.None? then a
    else if StringLess(b.value, a.value) then a else b
  }

  function ResolveQuotaPosition(derived: Option<QuotaPosition>, meter: Option<QuotaPosition>): Option<QuotaPosition>
  {
    if derived.None? then meter
    else if meter.None? then derived
    else if derived.value.exhausted && meter.value.exhausted then
      Some(QuotaPosition(true, LaterOf(derived.value.resumesAt, meter.value.resumesAt)))
    else if derived.value.exhausted != meter.value.exhausted then
      Some(QuotaPosition(true, if derived.value.exhausted then derived.value.resumesAt else meter.value.resumesAt))
    else meter
  }

  /** Disagreement resolves to exhausted, and two dated exhaustions to the chronologically later date. */
  lemma ResolutionIsCautious(derived: Option<QuotaPosition>, meter: Option<QuotaPosition>)
    ensures ResolveQuotaPosition(derived, meter).Some? <==> derived.Some? || meter.Some?
    ensures ResolveQuotaPosition(derived, meter).Some? ==>
              (ResolveQuotaPosition(derived, meter).value.exhausted <==>
               (derived.Some? && derived.value.exhausted) || (meter.Some? && meter.value.exhausted))
    ensures forall a, b | Valid(a) && Valid(b)
                            && derived == Some(QuotaPosition(true, Some(Iso(a))))
                            && meter == Some(QuotaPosition(true, Some(Iso(b)))) ::
              ResolveQuotaPosition(derived, meter)
              == Some(QuotaPosition(true, Some(Iso(if Instant(a) > Instant(b) then a else b))))
  {
    forall a, b | Valid(a) && Valid(b)
      && derived == Some(QuotaPosition(true, Some(Iso(a)))) && meter == Some(QuotaPosition(true, Some(Iso(b))))
      ensures ResolveQuotaPosition(derived, meter)
              == Some(QuotaPosition(true, Some(Iso(if Instant(a) > Instant(b) then a else b))))
    {
      StringOrderIsChronological(b, a);
    }
  }

  /**
   * The position itself, case by case: one source alone stands; of two that disagree, the exhausted one; of two
   * healthy ones, the meter; of two exhausted ones of which only one has a date, that one.
   */
  lemma ResolvedExactly(derived: Option<QuotaPosition>, meter: Option<QuotaPosition>)
    ensures derived.None? ==> ResolveQuotaPosition(derived, meter) == meter
    ensures meter.None? ==> ResolveQuotaPosition(derived, meter) == derived
    ensures derived.Some? && meter.Some? ==>
              var (d, m) := (derived.value, meter.value);
              && (!m.exhausted && d.exhausted ==> ResolveQuotaPosition(derived, meter) == derived)
              && (!d.exhausted ==> ResolveQuotaPosition(derived, meter) == meter)
              && (d.exhausted && m.exhausted && m.resumesAt.None? ==> ResolveQuotaPosition(derived, meter) == derived)
              && (d.exhausted && m.exhausted && d.resumesAt.None? ==> ResolveQuotaPosition(derived, meter) == meter)
  {
  }

  function DerivedPosition(latest: map<RunnerKey, Stamp>, key: RunnerKey): Option<QuotaPosition>
  {
    if key in latest then Some(QuotaPosition(true, Some(Iso(latest[key])))) else None
  }

  // ---------------------------------------------------------------------------------------------
  // What routing does with a position
  // ---------------------------------------------------------------------------------------------

  /**
   * A runner with a dated quota block still in force is never chosen, whatever its meter says: the block
   * reaches the pool entry through the loop and the resolution, and the entry is then not eligible.
   */
  lemma BlockedRunnerNeverChosen(rows: seq<BlockedRun>, now: int, latest: map<RunnerKey, Stamp>,
                                 meter: Option<QuotaPosition>, input: Input, pool: seq<PoolEntry>, limits: Limits,
                                 e: PoolEntry, date: Stamp)
    requires forall k :: k in latest <==> exists d :: LiveBlock(rows, k, now, d)
    requires e in pool && DistinctKeys(pool)
    requires e.quota == ResolveQuotaPosition(DerivedPosition(latest, e.capabilities.key), meter)
    requires LiveBlock(rows, e.capabilities.key, now, date)
    ensures Decide(input, pool, limits).Dispatch? ==> Decide(input, pool, limits).runner != e.capabilities.key
  {
    ResolutionIsCautious(DerivedPosition(latest, e.capabilities.key), meter);
    assert Exhausted(e);
    if Decide(input, pool, limits).Dispatch? {
      var w := WinnerIsBest(input, pool, limits);
      if w.capabilities.key == e.capabilities.key {
        SameKeySameEntry(pool, w, e);
      }
    }
  }

  /**
   * From rows to position: without a live block the meter speaks alone; with one, the runner is exhausted until
   * the latest live date, or until the meter's own date when the meter says exhausted until later.
   */
  lemma PositionFromRows(rows: seq<BlockedRun>, now: int, latest: map<RunnerKey, Stamp>, key: RunnerKey, meter: Option<QuotaPosition>)
    requires forall row | row in rows :: ValidRow(row)
    requires Positions(rows, now, latest)
    ensures var position := ResolveQuotaPosition(DerivedPosition(latest, key), meter);
            && ((forall d :: !LiveBlock(rows, key, now, d)) ==> position == meter)
            && forall d | LatestLiveBlock(rows, key, now, d) ::
                 && (meter.None? || !meter.value.exhausted || meter.value.resumesAt.None? ==>
                       position == Some(QuotaPosition(true, Some(Iso(d)))))
                 && forall m | Valid(m) && meter == Some(QuotaPosition(true, Some(Iso(m)))) ::
                      position == Some(QuotaPosition(true, Some(Iso(if Instant(d) > Instant(m) then d else m))))
  {
    var derived := DerivedPosition(latest, key);
    ResolvedExactly(derived, meter);
    ResolutionIsCautious(derived, meter);
    forall d | LatestLiveBlock(rows, key, now, d) ensures derived == Some(QuotaPosition(true, Some(Iso(d)))) && Valid(d) {
      assert LiveBlock(rows, key, now, d);
      RowOrderIrrelevant(rows, rows, key, now, d, latest[key]);
    }
  }

  /** The avoided park names a blocked runner that could have done the work, with the instant its quota returns. */
  lemma ParkNamesReset(rows: seq<BlockedRun>, now: int, latest: map<RunnerKey, Stamp>, meter: Option<QuotaPosition>,
                       input: Input, pool: seq<PoolEntry>, limits: Limits, e: PoolEntry, date: Stamp)
    requires forall row | row in rows :: ValidRow(row)
    requires Positions(rows, now, latest)
    requires e in pool && DistinctKeys(pool) && e.enabled && Capable(input, e)
    requires e.quota == ResolveQuotaPosition(DerivedPosition(latest, e.capabilities.key), meter)
    requires LatestLiveBlock(rows, e.capabilities.key, now, date) && (meter.None? || !meter.value.exhausted)
    ensures var d := Decide(input, pool, limits);
            d.Dispatch? ==> d.avoidedPark.Some? && ExhaustedRunner(e.capabilities.key, Some(Iso(date))) in d.avoidedPark.value.exhausted
  {
    PositionFromRows(rows, now, latest, e.capabilities.key, meter);
    ParkNamesExhausted(input, pool, limits, e);
    assert RecordOf(e) == ExhaustedRunner(e.capabilities.key, Some(Iso(date)));
  }

  /** The same fleet, in which some runners may have recovered quota and none has lost any. */
  ghost predicate Recovered(pool: seq<PoolEntry>, pool': seq<PoolEntry>)
  {
    && |pool| == |pool'|
    && forall i | 0 <= i < |pool| ::
         pool'[i] == pool[i].(quota := pool'[i].quota) && (Exhausted(pool'[i]) ==> Exhausted(pool[i]))
  }

  lemma RecoveryKeepsFallback(input: Input, pool: seq<PoolEntry>, pool': seq<PoolEntry>)
    requires Recovered(pool, pool') && GaFallback(input, pool)
    ensures GaFallback(input, pool')
  {
    var f :| f in pool && f.enabled && !IsPreview(f.capabilities) && Capable(input, f);
    var j :| 0 <= j < |pool| && pool[j] == f;
    assert pool'[j] in pool' && Capable(input, pool'[j]);
  }

  lemma RecoveryKeepsEligible(input: Input, pool: seq<PoolEntry>, pool': seq<PoolEntry>, limits: Limits, i: nat)
    requires Recovered(pool, pool') && i < |pool| && Eligible(input, pool, limits, pool[i])
    ensures Eligible(input, pool', limits, pool'[i])
  {
    if GaFallback(input, pool) {
      RecoveryKeepsFallback(input, pool, pool');
    }
    assert Capable(input, pool'[i]);
  }

  /** Clearing exhaustion never turns a dispatch into a queue. */
  lemma RecoveryKeepsDispatch(input: Input, pool: seq<PoolEntry>, pool': seq<PoolEntry>, limits: Limits)
    requires Recovered(pool, pool')
    requires Decide(input, pool, limits).Dispatch?
    ensures Decide(input, pool', limits).Dispatch?
  {
    var e := WinnerIsBest(input, pool, limits);
    var i :| 0 <= i < |pool| && pool[i] == e;
    RecoveryKeepsEligible(input, pool, pool', limits, i);
    assert pool'[i] in pool';
    DispatchExactly(input, pool', limits);
  }

  /** The entry with a position that is not an exhaustion forgotten. */
  function Forget(e: PoolEntry): PoolEntry
  {
    if e.quota.Some? && !e.quota.value.exhausted then e.(quota := None) else e
  }

  function ForgetAll(es: seq<PoolEntry>): (r: seq<PoolEntry>)
    ensures |r| == |es| && forall i | 0 <= i < |es| :: r[i] == Forget(es[i])
  {
    if es == [] then [] else [Forget(es[0])] + ForgetAll(es[1..])
  }

  /** A question that forgetting does not change has the same answer over the whole fleet. */
  lemma ForgetTransfer(pool: seq<PoolEntry>, p: PoolEntry -> bool, q: PoolEntry -> bool)
    requires forall e | e in pool :: p(Forget(e)) <==> q(e)
    ensures (forall f | f in ForgetAll(pool) :: p(f)) <==> (forall e | e in pool :: q(e))
  {
    if forall f | f in ForgetAll(pool) :: p(f) {
      forall e | e in pool ensures q(e) {
        var i :| 0 <= i < |pool| && pool[i] == e;
        assert ForgetAll(pool)[i] in ForgetAll(pool);
      }
    } else {
      var f :| f in ForgetAll(pool) && !p(f);
      var i :| 0 <= i < |pool| && ForgetAll(pool)[i] == f;
      assert pool[i] in pool;
    }
  }

  lemma ForgetKeepsFallback(input: Input, pool: seq<PoolEntry>)
    ensures GaFallback(input, ForgetAll(pool)) <==> GaFallback(input, pool)
  {
    var p := (e: PoolEntry) => !(e.enabled && !IsPreview(e.capabilities) && Capable(input, e));
    ForgetTransfer(pool, p, p);
  }

  lemma {:induction false} ForgetKeepsEligible(input: Input, pool: seq<PoolEntry>, limits: Limits, rest: seq<PoolEntry>)
    ensures EligibleOf(input, ForgetAll(pool), limits, ForgetAll(rest)) == ForgetAll(EligibleOf(input, pool, limits, rest))
  {
    ForgetKeepsFallback(input, pool);
    if rest != [] {
      ForgetKeepsEligible(input, pool, limits, rest[1..]);
      assert ForgetAll(rest)[1..] == ForgetAll(rest[1..]);
      assert Capable(input, Forget(rest[0])) <==> Capable(input, rest[0]);
      assert Eligible(input, ForgetAll(pool), limits, Forget(rest[0])) <==> Eligible(input, pool, limits, rest[0]);
    }
  }

  lemma ForgetKeepsOrder(a: PoolEntry, b: PoolEntry)
    ensures Better(Forget(a), Forget(b)) <==> Better(a, b)
  {
  }

  lemma {:induction false} ForgetKeepsBest(es: seq<PoolEntry>)
    ensures es == [] ==> Best(ForgetAll(es)).None?
    ensures es != [] ==> Best(ForgetAll(es)) == Some(Forget(Best(es).value))
  {
    if es != [] {
      ForgetKeepsBest(es[1..]);
      assert ForgetAll(es)[1..] == ForgetAll(es[1..]) && ForgetAll(es)[0] == Forget(es[0]);
      if es[1..] == [] {
        assert Best(ForgetAll(es)) == Some(Forget(es[0]));
      } else {
        ForgetKeepsOrder(Best(es[1..]).value, es[0]);
      }
    }
  }

  lemma {:induction false} ForgetKeepsExhausted(input: Input, pool: seq<PoolEntry>)
    ensures ExhaustedCapable(input, ForgetAll(pool)) == ExhaustedCapable(input, pool)
  {
    if pool != [] {
      ForgetKeepsExhausted(input, pool[1..]);
      assert ForgetAll(pool)[1..] == ForgetAll(pool[1..]);
      assert Capable(input, Forget(pool[0])) <==> Capable(input, pool[0]);
    }
  }

  lemma ForgetKeepsEnabled(pool: seq<PoolEntry>)
    ensures NobodyEnabled(ForgetAll(pool)) <==> NobodyEnabled(pool)
  {
    var p := (e: PoolEntry) => !e.enabled;
    ForgetTransfer(pool, p, p);
  }

  lemma ForgetKeepsNeeds(input: Input, pool: seq<PoolEntry>)
    ensures NobodyMeetsNeeds(input, ForgetAll(pool)) <==> NobodyMeetsNeeds(input, pool)
  {
    var p := (e: PoolEntry) => e.enabled ==> !MeetsNeeds(input, e);
    ForgetTransfer(pool, p, p);
  }

  lemma ForgetKeepsCapable(input: Input, pool: seq<PoolEntry>)
    ensures NobodyCapable(input, ForgetAll(pool)) <==> NobodyCapable(input, pool)
  {
    var p := (e: PoolEntry) => e.enabled ==> !Capable(input, e);
    ForgetTransfer(pool, p, p);
  }

  lemma ForgetKeepsPreviews(input: Input, pool: seq<PoolEntry>, limits: Limits)
    ensures OnlyLoadBearingPreviews(input, ForgetAll(pool), limits) <==> OnlyLoadBearingPreviews(input, pool, limits)
  {
    var pool' := ForgetAll(pool);
    ForgetKeepsFallback(input, pool);
    ForgetTransfer(pool, (e: PoolEntry) => e.enabled && Capable(input, e) ==> LoadBearingPreview(input, pool', limits, e),
                   (e: PoolEntry) => e.enabled && Capable(input, e) ==> LoadBearingPreview(input, pool, limits, e));
  }

  lemma ForgetKeepsSpent(input: Input, pool: seq<PoolEntry>)
    ensures SomeCapableExhausted(input, ForgetAll(pool)) <==> SomeCapableExhausted(input, pool)
  {
    var p := (e: PoolEntry) => !(e.enabled && Capable(input, e) && Exhausted(e));
    ForgetTransfer(pool, p, p);
  }

  lemma ForgetKeepsReason(input: Input, pool: seq<PoolEntry>, limits: Limits)
    ensures FleetReason(input, ForgetAll(pool), limits) == FleetReason(input, pool, limits)
  {
    ForgetKeepsNeeds(input, pool);
    ForgetKeepsCapable(input, pool);
    ForgetKeepsPreviews(input, pool, limits);
    ForgetKeepsSpent(input, pool);
  }

  /** A position that says "not exhausted" routes exactly like no position at all. */
  lemma NotExhaustedRoutesLikeUnknown(input: Input, pool: seq<PoolEntry>, limits: Limits)
    ensures Decide(input, ForgetAll(pool), limits) == Decide(input, pool, limits)
  {
    ForgetKeepsEnabled(pool);
    ForgetKeepsEligible(input, pool, limits, pool);
    ForgetKeepsBest(EligibleOf(input, pool, limits, pool));
    ForgetKeepsExhausted(input, pool);
    ForgetKeepsReason(input, pool, limits);
    var es := EligibleOf(input, pool, limits, pool);
    if es != [] {
      ForgetKeepsConclusion(Best(es), ExhaustedCapable(input, pool), FleetReason(input, pool, limits));
    }
  }

  lemma ForgetKeepsConclusion(winner: Option<PoolEntry>, spent: seq<PoolEntry>, reason: QueueReason)
    requires winner.Some?
    ensures Conclude(Some(Forget(winner.value)), spent, reason) == Conclude(winner, spent, reason)
  {
  }
}
