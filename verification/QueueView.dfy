/**
 * The queue read model (`queue.service.ts`): one routing decision per distinct routing input, and a walk
 * down the queue that consumes the headroom those decisions found.
 */
module QueueView {
  import opened Base
  import opened DispatchPolicy

  /** A listed work order: `queued` or `held`, with the needs and tier columns as stored. */
  datatype WorkOrder = WorkOrder(needs: seq<Need>, tier: Option<string>, held: bool)

  datatype EntryState = Held | Waiting(outOfHeadroom: bool) | Ready

  // ---------------------------------------------------------------------------------------------
  // The routing key
  // ---------------------------------------------------------------------------------------------

  function InsertString(x: string, ss: seq<string>): seq<string>
  {
    if ss == [] || !StringLess(ss[0], x) then [x] + ss else [ss[0]] + InsertString(x, ss[1..])
  }

  function SortStrings(ss: seq<string>): seq<string>
  {
    if ss == [] then [] else InsertString(ss[0], SortStrings(ss[1..]))
  }

  function Join(ss: seq<string>): string
  {
    if ss == [] then "" else if |ss| == 1 then ss[0] else ss[0] + "," + Join(ss[1..])
  }

  function TierText(tier: Option<string>): string
  {
    if tier.Some? then tier.value else ""
  }

  function RoutingKey(row: WorkOrder): string
  {
    Join(SortStrings(row.needs)) + "|" + TierText(row.tier)
  }

  /** A tier this build does not know is dropped: the read model routes the row as having none. */
  function AsModelTier(tier: Option<string>): Option<ModelTier>
  {
    if tier == Some("small") then Some(Small)
    else if tier == Some("standard") then Some(Standard)
    else if tier == Some("large") then Some(Large)
    else None
  }

  /** No need contains either separator. */
  ghost predicate PlainNeeds(row: WorkOrder)
  {
    forall n | n in row.needs :: ',' !in n && '|' !in n
  }

  lemma {:induction false} InsertStringContents(x: string, ss: seq<string>)
    ensures multiset(InsertString(x, ss)) == multiset(ss) + multiset{x}
  {
    if ss != [] && StringLess(ss[0], x) {
      InsertStringContents(x, ss[1..]);
      assert ss == [ss[0]] + ss[1..];
    }
  }

  lemma {:induction false} SortStringsContents(ss: seq<string>)
    ensures multiset(SortStrings(ss)) == multiset(ss)
    ensures forall s :: s in SortStrings(ss) <==> s in ss
  {
    if ss != [] {
      SortStringsContents(ss[1..]);
      InsertStringContents(ss[0], SortStrings(ss[1..]));
      assert ss == [ss[0]] + ss[1..];
    }
    assert forall s :: s in SortStrings(ss) <==> s in multiset(SortStrings(ss));
    assert forall s :: s in ss <==> s in multiset(ss);
  }

  lemma {:induction false} JoinAvoids(ss: seq<string>, c: char)
    requires c != ',' && forall s | s in ss :: c !in s
    ensures c !in Join(ss)
  {
    if |ss| > 1 {
      JoinAvoids(ss[1..], c);
      assert ss[0] in ss;
    } else if |ss| == 1 {
      assert ss[0] in ss;
    }
  }

  lemma {:induction false} JoinInjective(ss: seq<string>, tt: seq<string>)
    requires ss != [] && tt != [] && Join(ss) == Join(tt)
    requires (forall s | s in ss :: ',' !in s) && (forall t | t in tt :: ',' !in t)
    ensures ss == tt
  {
    HeadsAndTails(ss, tt);
    if |ss| > 1 {
      assert forall s | s in ss[1..] :: s in ss;
      assert forall t | t in tt[1..] :: t in tt;
      JoinInjective(ss[1..], tt[1..]);
    }
    assert ss == [ss[0]] + ss[1..] && tt == [tt[0]] + tt[1..];
  }

  /** The one way two lists of plain needs join alike without being the same list. */
  lemma JoinAlikeExactly(ss: seq<string>, tt: seq<string>)
    requires (forall s | s in ss :: ',' !in s) && (forall t | t in tt :: ',' !in t)
    ensures Join(ss) == Join(tt) <==> ss == tt || (ss == [] && tt == [""]) || (ss == [""] && tt == [])
  {
    if ss != [] && tt != [] && Join(ss) == Join(tt) {
      JoinInjective(ss, tt);
    }
  }

  lemma HeadsAndTails(ss: seq<string>, tt: seq<string>)
    requires ss != [] && tt != [] && Join(ss) == Join(tt)
    requires (forall s | s in ss :: ',' !in s) && (forall t | t in tt :: ',' !in t)
    ensures ss[0] == tt[0] && (|ss| > 1 <==> |tt| > 1) && (|ss| > 1 ==> Join(ss[1..]) == Join(tt[1..]))
  {
    assert ss[0] in ss && tt[0] in tt;
    var restS, restT := if |ss| == 1 then "" else Join(ss[1..]) + ",", if |tt| == 1 then "" else Join(tt[1..]) + ",";
    assert Join(ss) + "," == ss[0] + [','] + restS;
    assert Join(tt) + "," == tt[0] + [','] + restT;
    UniqueSplit(ss[0], restS, tt[0], restT, ',');
    if |ss| > 1 && |tt| > 1 {
      assert Join(ss[1..]) == restS[..|restS| - 1] && Join(tt[1..]) == restT[..|restT| - 1];
    }
  }

  predicate Sorted(ss: seq<string>)
  {
    forall i, j | 0 <= i < j < |ss| :: !StringLess(ss[j], ss[i])
  }

  lemma {:induction false} InsertKeepsSorted(x: string, ss: seq<string>)
    requires Sorted(ss)
    ensures Sorted(InsertString(x, ss))
  {
    if ss == [] {
    } else if !StringLess(ss[0], x) {
      forall j | 0 <= j < |ss| ensures !StringLess(ss[j], x) {
        NotLessTransitive(x, ss[0], ss[j]);
      }
    } else {
      InsertKeepsSorted(x, ss[1..]);
      InsertStringContents(x, ss[1..]);
      var rest := InsertString(x, ss[1..]);
      forall j | 0 <= j < |rest| ensures !StringLess(rest[j], ss[0]) {
        assert rest[j] in multiset(ss[1..]) + multiset{x};
        if rest[j] == x {
          StringLessTrichotomy(ss[0], x);
        } else {
          var i :| 0 <= i < |ss[1..]| && ss[1..][i] == rest[j];
        }
      }
    }
  }

  lemma NotLessTransitive(a: string, b: string, c: string)
    requires !StringLess(b, a) && (b == c || !StringLess(c, b))
    ensures !StringLess(c, a)
  {
    if StringLess(c, a) {
      StringLessTrichotomy(a, b);
      StringLessTrichotomy(b, c);
      if a != b && b != c {
        StringLessTransitive(a, b, c);
        StringLessTrichotomy(a, c);
      }
    }
  }

  lemma {:induction false} SortSorts(ss: seq<string>)
    ensures Sorted(SortStrings(ss))
  {
    if ss != [] {
      SortSorts(ss[1..]);
      InsertKeepsSorted(ss[0], SortStrings(ss[1..]));
    }
  }

  lemma {:induction false} SortedListsAgree(ss: seq<string>, tt: seq<string>)
    requires Sorted(ss) && Sorted(tt) && multiset(ss) == multiset(tt)
    ensures ss == tt
  {
    assert |ss| == |multiset(ss)| == |multiset(tt)| == |tt|;
    if ss != [] {
      HeadsAgree(ss, tt);
      assert ss == [ss[0]] + ss[1..] && tt == [tt[0]] + tt[1..];
      assert multiset(ss[1..]) == multiset(ss) - multiset{ss[0]};
      assert multiset(tt[1..]) == multiset(tt) - multiset{tt[0]};
      SortedListsAgree(ss[1..], tt[1..]);
    }
  }

  lemma HeadsAgree(ss: seq<string>, tt: seq<string>)
    requires Sorted(ss) && Sorted(tt) && multiset(ss) == multiset(tt) && ss != [] && tt != []
    ensures ss[0] == tt[0]
  {
    assert ss[0] in multiset(tt) && tt[0] in multiset(ss);
    var i :| 0 <= i < |tt| && tt[i] == ss[0];
    var j :| 0 <= j < |ss| && ss[j] == tt[0];
    StringLessTrichotomy(ss[0], tt[0]);
  }

  lemma SortIsCanonical(ss: seq<string>, tt: seq<string>)
    ensures SortStrings(ss) == SortStrings(tt) <==> multiset(ss) == multiset(tt)
  {
    SortStringsContents(ss);
    SortStringsContents(tt);
    if multiset(ss) == multiset(tt) {
      SortSorts(ss);
      SortSorts(tt);
      SortedListsAgree(SortStrings(ss), SortStrings(tt));
    }
  }

  lemma SortIsTrivial(ss: seq<string>)
    ensures (SortStrings(ss) == [] <==> ss == []) && (SortStrings(ss) == [""] <==> ss == [""])
  {
    SortStringsContents(ss);
    assert |multiset(SortStrings(ss))| == |SortStrings(ss)| && |multiset(ss)| == |ss|;
    if SortStrings(ss) == [""] {
      assert ss[0] in SortStrings(ss);
    }
    if ss == [""] {
      assert SortStrings(ss)[0] in ss;
    }
  }

  /** One row asks for nothing and the other for one need with an empty name. */
  predicate NothingBesideEmptyNeed(a: WorkOrder, b: WorkOrder)
  {
    (a.needs == [] && b.needs == [""]) || (a.needs == [""] && b.needs == [])
  }

  /**
   * Two rows share a key exactly when their tier texts agree and so do their needs, as multisets; except that
   * asking for nothing and asking for the empty need share one too.
   */
  lemma RoutingKeyExactly(a: WorkOrder, b: WorkOrder)
    requires PlainNeeds(a) && PlainNeeds(b)
    ensures RoutingKey(a) == RoutingKey(b)
            <==> TierText(a.tier) == TierText(b.tier)
                 && (multiset(a.needs) == multiset(b.needs) || NothingBesideEmptyNeed(a, b))
  {
    var sa, sb := SortStrings(a.needs), SortStrings(b.needs);
    SortStringsContents(a.needs);
    SortStringsContents(b.needs);
    JoinAvoids(sa, '|');
    JoinAvoids(sb, '|');
    if RoutingKey(a) == RoutingKey(b) {
      UniqueSplit(Join(sa), TierText(a.tier), Join(sb), TierText(b.tier), '|');
    }
    JoinAlikeExactly(sa, sb);
    SortIsCanonical(a.needs, b.needs);
    SortIsTrivial(a.needs);
    SortIsTrivial(b.needs);
  }

  // ---------------------------------------------------------------------------------------------
  // Memoised decisions
  // ---------------------------------------------------------------------------------------------

  /** What routing would say about this row by itself, on one snapshot of the fleet. */
  function Alone(row: WorkOrder, pool: seq<PoolEntry>, limits: Limits): Decision
  {
    Decide(Input(row.needs, AsModelTier(row.tier)), pool, limits)
  }

  /** Routing never gets as far as the needs. */
  predicate NeedsAreMoot(pool: seq<PoolEntry>, limits: Limits)
  {
    NobodyEnabled(pool) || GlobalLimitReached(limits)
  }

  /** No runner meets a need with an empty name, and every runner meets no needs at all. */
  lemma EmptyNeedIsDifferent(tier: Option<ModelTier>, pool: seq<PoolEntry>, limits: Limits)
    ensures Decide(Input([], tier), pool, limits) == Decide(Input([""], tier), pool, limits) <==> NeedsAreMoot(pool, limits)
  {
    var none, empty := Input([], tier), Input([""], tier);
    if !NeedsAreMoot(pool, limits) {
      var e :| e in pool && e.enabled;
      assert MeetsNeeds(none, e);
      forall f | f in pool ensures !MeetsNeeds(empty, f) {
        assert "" in empty.needs;
      }
      DispatchExactly(empty, pool, limits);
      assert Decide(empty, pool, limits) == Queued(NoRunnerHasTheCapabilities);
    }
  }

  /**
   * Sharing a decision is right for two rows with one key exactly when they are not the pair that asks for
   * nothing and for the empty need, or the fleet is such that needs do not matter.
   */
  lemma SharedDecisionExactly(a: WorkOrder, b: WorkOrder, pool: seq<PoolEntry>, limits: Limits)
    requires PlainNeeds(a) && PlainNeeds(b) && RoutingKey(a) == RoutingKey(b) && DistinctKeys(pool)
    ensures Alone(a, pool, limits) == Alone(b, pool, limits) <==> !NothingBesideEmptyNeed(a, b) || NeedsAreMoot(pool, limits)
  {
    RoutingKeyExactly(a, b);
    assert AsModelTier(a.tier) == AsModelTier(b.tier);
    if NothingBesideEmptyNeed(a, b) {
      EmptyNeedIsDifferent(AsModelTier(a.tier), pool, limits);
    } else {
      assert forall n :: n in a.needs <==> n in multiset(a.needs);
      assert forall n :: n in b.needs <==> n in multiset(b.needs);
      OrderIndependent(Input(a.needs, AsModelTier(a.tier)), Input(b.needs, AsModelTier(b.tier)), pool, pool, limits);
    }
  }

  const BARE_RUNNER := PoolEntry(
    Capabilities(0, FullStreaming, true, Structured, OwnInfrastructure, Stable, 1, None, None), true, 0, None)

  /**
   * The separators are not the only thing the key needs: an empty need joins to the same text as no need,
   * and the two rows then share a key although routing alone would dispatch one and queue the other.
   */
  lemma EmptyNeedCollides()
    ensures var a, b := WorkOrder([], None, false), WorkOrder([""], None, false);
            var pool, limits := [BARE_RUNNER], Limits(None, 0, false);
            && RoutingKey(a) == RoutingKey(b)
            && Alone(a, pool, limits).Dispatch?
            && Alone(b, pool, limits) == Queued(NoRunnerHasTheCapabilities)
  {
    var a, b := WorkOrder([], None, false), WorkOrder([""], None, false);
    var pool, limits := [BARE_RUNNER], Limits(None, 0, false);
    assert SortStrings(b.needs) == [""] by { assert SortStrings([]) == []; }
    assert BARE_RUNNER in pool && BARE_RUNNER.enabled;
    DispatchExactly(Input([], None), pool, limits);
    assert Eligible(Input([], None), pool, limits, BARE_RUNNER);
    assert "" in b.needs && !MeetsNeeds(Input([""], None), BARE_RUNNER);
    DispatchExactly(Input([""], None), pool, limits);
  }

  /** The row the memo decides for this one: the last listed with the same key. */
  function Representative(rows: seq<WorkOrder>, row: WorkOrder): WorkOrder
  {
    if rows == [] then row
    else if RoutingKey(rows[|rows| - 1]) == RoutingKey(row) then rows[|rows| - 1].(held := row.held)
    else Representative(rows[..|rows| - 1], row)
  }

  /** No row asks for nothing beside one that asks, on the same tier, for the empty need. */
  ghost predicate NoKeyClash(rows: seq<WorkOrder>)
  {
    forall a, b | a in rows && b in rows && TierText(a.tier) == TierText(b.tier) :: !NothingBesideEmptyNeed(a, b)
  }

  ghost predicate AllPlain(rows: seq<WorkOrder>)
  {
    forall row | row in rows :: PlainNeeds(row)
  }

  lemma {:induction false} RepresentativeSharesKey(rows: seq<WorkOrder>, row: WorkOrder)
    requires row in rows
    ensures var rep := Representative(rows, row);
            RoutingKey(rep) == RoutingKey(row) && rep.held == row.held && exists r | r in rows :: rep == r.(held := row.held)
  {
    var n := |rows| - 1;
    if RoutingKey(rows[n]) != RoutingKey(row) {
      RepresentativeSharesKey(rows[..n], row);
    }
  }

  /**
   * `decideOncePerRoutingInput`: every row gets its representative's decision. For plain needs that is the one
   * it would have got alone, for all rows, if and only if no keys clash or needs do not matter.
   */
  method DecideOncePerRoutingInput(rows: seq<WorkOrder>, pool: seq<PoolEntry>, limits: Limits)
    returns (decisions: map<string, Decision>)
    requires DistinctKeys(pool)
    ensures forall row | row in rows :: RoutingKey(row) in decisions
    ensures forall row | row in rows :: decisions[RoutingKey(row)] == Alone(Representative(rows, row), pool, limits)
    ensures AllPlain(rows) ==>
              ((forall row | row in rows :: decisions[RoutingKey(row)] == Alone(row, pool, limits))
               <==> NoKeyClash(rows) || NeedsAreMoot(pool, limits))
  {
    var distinct: map<string, WorkOrder> := map[];
    for i := 0 to |rows|
      invariant forall j | 0 <= j < i :: RoutingKey(rows[j]) in distinct
      invariant forall row: WorkOrder | RoutingKey(row) in distinct ::
                  Representative(rows[..i], row) == distinct[RoutingKey(row)].(held := row.held)
    {
      assert rows[..i + 1][..i] == rows[..i];
      distinct := distinct[RoutingKey(rows[i]) := rows[i]];
    }
    decisions := DecideEach(distinct, pool, limits);
    assert rows[..|rows|] == rows;
    forall row | row in rows
      ensures RoutingKey(row) in decisions && decisions[RoutingKey(row)] == Alone(Representative(rows, row), pool, limits)
    {
      var j :| 0 <= j < |rows| && rows[j] == row;
    }
    if AllPlain(rows) {
      MemoIsRightExactly(rows, decisions, pool, limits);
    }
  }

  lemma MemoIsRightExactly(rows: seq<WorkOrder>, decisions: map<string, Decision>, pool: seq<PoolEntry>, limits: Limits)
    requires DistinctKeys(pool) && AllPlain(rows)
    requires forall row | row in rows :: RoutingKey(row) in decisions
    requires forall row | row in rows :: decisions[RoutingKey(row)] == Alone(Representative(rows, row), pool, limits)
    ensures (forall row | row in rows :: decisions[RoutingKey(row)] == Alone(row, pool, limits))
            <==> NoKeyClash(rows) || NeedsAreMoot(pool, limits)
  {
    if NoKeyClash(rows) || NeedsAreMoot(pool, limits) {
      forall row | row in rows ensures decisions[RoutingKey(row)] == Alone(row, pool, limits) {
        RepresentativeDecidesAlike(rows, row, pool, limits);
      }
    } else {
      var a, b :| a in rows && b in rows && TierText(a.tier) == TierText(b.tier) && NothingBesideEmptyNeed(a, b);
      RoutingKeyExactly(a, b);
      SharedDecisionExactly(a, b, pool, limits);
    }
  }

  lemma RepresentativeDecidesAlike(rows: seq<WorkOrder>, row: WorkOrder, pool: seq<PoolEntry>, limits: Limits)
    requires DistinctKeys(pool) && AllPlain(rows) && row in rows && (NoKeyClash(rows) || NeedsAreMoot(pool, limits))
    ensures Alone(Representative(rows, row), pool, limits) == Alone(row, pool, limits)
  {
    RepresentativeSharesKey(rows, row);
    var rep := Representative(rows, row);
    var r :| r in rows && rep == r.(held := row.held);
    assert PlainNeeds(r) && PlainNeeds(rep);
    RoutingKeyExactly(rep, row);
    assert NothingBesideEmptyNeed(rep, row) ==> NothingBesideEmptyNeed(r, row);
    SharedDecisionExactly(rep, row, pool, limits);
  }

  method DecideOne(row: WorkOrder, pool: seq<PoolEntry>, limits: Limits) returns (d: Decision)
    requires DistinctKeys(pool)
    ensures d == Alone(row, pool, limits)
  {
    var candidates;
    d, candidates := DecideDispatch(Input(row.needs, AsModelTier(row.tier)), pool, limits);
  }

  method DecideEach(distinct: map<string, WorkOrder>, pool: seq<PoolEntry>, limits: Limits)
    returns (decisions: map<string, Decision>)
    requires DistinctKeys(pool)
    ensures decisions.Keys == distinct.Keys
    ensures forall k | k in decisions :: decisions[k] == Alone(distinct[k], pool, limits)
  {
    decisions := map[];
    var keys := distinct.Keys;
    while keys != {}
      invariant decisions.Keys + keys == distinct.Keys
      invariant forall k | k in decisions :: k in distinct && decisions[k] == Alone(distinct[k], pool, limits)
      decreases |keys|
    {
      var k :| k in keys;
      var d := DecideOne(distinct[k], pool, limits);
      decisions := decisions[k := d];
      keys := keys - {k};
    }
  }

  // ---------------------------------------------------------------------------------------------
  // Consuming headroom
  // ---------------------------------------------------------------------------------------------

  predicate RoutedTo(row: WorkOrder, key: RunnerKey, pool: seq<PoolEntry>, limits: Limits)
  {
    !row.held && Alone(row, pool, limits).Dispatch? && Alone(row, pool, limits).runner == key
  }

  /** How many of the rows are routed to the runner. */
  function Routed(rows: seq<WorkOrder>, key: RunnerKey, pool: seq<PoolEntry>, limits: Limits): nat
  {
    if rows == [] then 0
    else Routed(rows[..|rows| - 1], key, pool, limits) + if RoutedTo(rows[|rows| - 1], key, pool, limits) then 1 else 0
  }

  /** The state the queue promises the row at `i`: ready while the rows ahead left its runner a free slot. */
  function Promised(rows: seq<WorkOrder>, i: nat, pool: seq<PoolEntry>, limits: Limits): EntryState
    requires i < |rows|
  {
    if rows[i].held then Held
    else
      match Alone(rows[i], pool, limits)
      case Queued(_) => Waiting(false)
      case Dispatch(key, slots, _) =>
        if Routed(rows[..i], key, pool, limits) < slots then Ready else Waiting(true)
  }

  /** Every decision for one runner on one snapshot reports the same headroom: the runner's. */
  lemma SameRunnerSameHeadroom(a: WorkOrder, b: WorkOrder, key: RunnerKey, pool: seq<PoolEntry>, limits: Limits)
    requires DistinctKeys(pool) && RoutedTo(a, key, pool, limits) && RoutedTo(b, key, pool, limits)
    ensures Alone(a, pool, limits).headroom == Alone(b, pool, limits).headroom
  {
    var wa := WinnerIsBest(Input(a.needs, AsModelTier(a.tier)), pool, limits);
    var wb := WinnerIsBest(Input(b.needs, AsModelTier(b.tier)), pool, limits);
    SameKeySameEntry(pool, wa, wb);
  }

  lemma {:induction false} SomeRouted(rows: seq<WorkOrder>, key: RunnerKey, pool: seq<PoolEntry>, limits: Limits) returns (j: nat)
    requires Routed(rows, key, pool, limits) > 0
    ensures j < |rows| && RoutedTo(rows[j], key, pool, limits)
  {
    var n := |rows| - 1;
    if RoutedTo(rows[n], key, pool, limits) { j := n; } else { j := SomeRouted(rows[..n], key, pool, limits); }
  }

  /** What is left of each runner's headroom after some rows: its slots less the rows routed to it. */
  ghost predicate Remains(remaining: map<RunnerKey, nat>, rows: seq<WorkOrder>, pool: seq<PoolEntry>, limits: Limits)
  {
    && (forall key :: key in remaining <==> Routed(rows, key, pool, limits) > 0)
    && forall key, j | key in remaining && 0 <= j < |rows| && RoutedTo(rows[j], key, pool, limits) ::
         remaining[key] == Left(Alone(rows[j], pool, limits).headroom, Routed(rows, key, pool, limits))
  }

  /** The headroom `stateOf` finds for a row's runner: what earlier rows left of it, or all of it. */
  function LeftFor(remaining: map<RunnerKey, nat>, d: Decision): nat
    requires d.Dispatch?
  {
    if d.runner in remaining then remaining[d.runner] else d.headroom
  }

  function TakeOne(remaining: map<RunnerKey, nat>, d: Decision): map<RunnerKey, nat>
    requires d.Dispatch?
  {
    remaining[d.runner := if LeftFor(remaining, d) > 0 then LeftFor(remaining, d) - 1 else 0]
  }

  function Left(slots: nat, routed: nat): nat
  {
    if routed < slots then slots - routed else 0
  }

  /** What one row gets on this decision, and the headroom it leaves. */
  function Outcome(held: bool, d: Decision, remaining: map<RunnerKey, nat>): (EntryState, map<RunnerKey, nat>)
  {
    if held then (Held, remaining)
    else if d.Queued? then (Waiting(false), remaining)
    else (if LeftFor(remaining, d) > 0 then Ready else Waiting(true), TakeOne(remaining, d))
  }

  /** `stateOf`: one row's state, taking a slot from the runner it is routed to. */
  method StateOf(row: WorkOrder, decision: Decision, remaining: map<RunnerKey, nat>)
    returns (state: EntryState, remaining': map<RunnerKey, nat>)
    ensures (state, remaining') == Outcome(row.held, decision, remaining)
  {
    remaining' := remaining;
    if row.held { return Held, remaining'; }
    if decision.Queued? { return Waiting(false), remaining'; }
    var key := decision.runner;
    if key !in remaining' {
      remaining' := remaining'[key := decision.headroom];
    }
    var left := remaining'[key];
    if left <= 0 {
      assert remaining' == TakeOne(remaining, decision);
      return Waiting(true), remaining';
    }
    remaining' := remaining'[key := left - 1];
    assert remaining' == TakeOne(remaining, decision);
    return Ready, remaining';
  }

  /** What is left for a row's runner is its headroom less the rows already routed to it. */
  lemma LeftIsUnrouted(remaining: map<RunnerKey, nat>, rows: seq<WorkOrder>, row: WorkOrder, pool: seq<PoolEntry>, limits: Limits)
    requires DistinctKeys(pool) && Remains(remaining, rows, pool, limits)
    requires !row.held && Alone(row, pool, limits).Dispatch?
    ensures var d := Alone(row, pool, limits);
            LeftFor(remaining, d) == Left(d.headroom, Routed(rows, d.runner, pool, limits))
  {
    var d := Alone(row, pool, limits);
    HeadroomPositive(row, pool, limits);
    if d.runner in remaining {
      var j := SomeRouted(rows, d.runner, pool, limits);
      SameRunnerSameHeadroom(row, rows[j], d.runner, pool, limits);
    }
  }

  lemma RoutedOneMore(rows: seq<WorkOrder>, row: WorkOrder, key: RunnerKey, pool: seq<PoolEntry>, limits: Limits)
    ensures Routed(rows + [row], key, pool, limits)
            == Routed(rows, key, pool, limits) + if RoutedTo(row, key, pool, limits) then 1 else 0
  {
    assert (rows + [row])[..|rows|] == rows;
  }

  lemma TakeSlotAmount(remaining: map<RunnerKey, nat>, rows: seq<WorkOrder>, row: WorkOrder, key: RunnerKey, j: nat,
                       pool: seq<PoolEntry>, limits: Limits)
    requires DistinctKeys(pool) && Remains(remaining, rows, pool, limits)
    requires !row.held && Alone(row, pool, limits).Dispatch?
    requires key in TakeOne(remaining, Alone(row, pool, limits)) && j <= |rows| && RoutedTo((rows + [row])[j], key, pool, limits)
    ensures TakeOne(remaining, Alone(row, pool, limits))[key]
            == Left(Alone((rows + [row])[j], pool, limits).headroom, Routed(rows + [row], key, pool, limits))
  {
    RoutedOneMore(rows, row, key, pool, limits);
    LeftIsUnrouted(remaining, rows, row, pool, limits);
    if key == Alone(row, pool, limits).runner {
      SameRunnerSameHeadroom(row, (rows + [row])[j], key, pool, limits);
    } else {
      assert j < |rows| && (rows + [row])[j] == rows[j];
    }
  }

  lemma TakeSlot(remaining: map<RunnerKey, nat>, rows: seq<WorkOrder>, row: WorkOrder, pool: seq<PoolEntry>, limits: Limits)
    requires DistinctKeys(pool) && Remains(remaining, rows, pool, limits)
    requires !row.held && Alone(row, pool, limits).Dispatch?
    ensures Remains(TakeOne(remaining, Alone(row, pool, limits)), rows + [row], pool, limits)
  {
    var remaining' := TakeOne(remaining, Alone(row, pool, limits));
    forall key ensures key in remaining' <==> Routed(rows + [row], key, pool, limits) > 0 {
      RoutedOneMore(rows, row, key, pool, limits);
    }
    forall key, j | key in remaining' && 0 <= j < |rows + [row]| && RoutedTo((rows + [row])[j], key, pool, limits)
      ensures remaining'[key] == Left(Alone((rows + [row])[j], pool, limits).headroom, Routed(rows + [row], key, pool, limits))
    {
      TakeSlotAmount(remaining, rows, row, key, j, pool, limits);
    }
  }

  lemma HeadroomPositive(row: WorkOrder, pool: seq<PoolEntry>, limits: Limits)
    requires Alone(row, pool, limits).Dispatch?
    ensures Alone(row, pool, limits).headroom > 0
  {
    var w := WinnerIsBest(Input(row.needs, AsModelTier(row.tier)), pool, limits);
  }

  lemma SkipRow(remaining: map<RunnerKey, nat>, rows: seq<WorkOrder>, row: WorkOrder, pool: seq<PoolEntry>, limits: Limits)
    requires Remains(remaining, rows, pool, limits)
    requires row.held || Alone(row, pool, limits).Queued?
    ensures Remains(remaining, rows + [row], pool, limits)
  {
    var rows' := rows + [row];
    assert rows'[..|rows'| - 1] == rows;
    forall j, key | 0 <= j < |rows'| && RoutedTo(rows'[j], key, pool, limits)
      ensures j < |rows| && rows'[j] == rows[j]
    {
    }
  }

  /** The state `StateOf` gives a row on its own decision is the one promised. */
  lemma RowGetsPromised(remaining: map<RunnerKey, nat>, rows: seq<WorkOrder>, i: nat, state: EntryState, pool: seq<PoolEntry>, limits: Limits)
    requires DistinctKeys(pool) && i < |rows| && Remains(remaining, rows[..i], pool, limits)
    requires rows[i].held ==> state == Held
    requires !rows[i].held && Alone(rows[i], pool, limits).Queued? ==> state == Waiting(false)
    requires !rows[i].held && Alone(rows[i], pool, limits).Dispatch? ==>
               state == if LeftFor(remaining, Alone(rows[i], pool, limits)) > 0 then Ready else Waiting(true)
    ensures state == Promised(rows, i, pool, limits)
  {
    if !rows[i].held && Alone(rows[i], pool, limits).Dispatch? {
      LeftIsUnrouted(remaining, rows[..i], rows[i], pool, limits);
    }
  }

  function Representatives(rows: seq<WorkOrder>): (reps: seq<WorkOrder>)
    ensures |reps| == |rows| && forall i | 0 <= i < |rows| :: reps[i] == Representative(rows, rows[i])
  {
    seq(|rows|, i requires 0 <= i < |rows| => Representative(rows, rows[i]))
  }

  lemma {:induction false} RoutedAlike(rows: seq<WorkOrder>, rows': seq<WorkOrder>, key: RunnerKey, pool: seq<PoolEntry>, limits: Limits)
    requires |rows'| == |rows|
    requires forall i | 0 <= i < |rows| :: rows'[i].held == rows[i].held && Alone(rows'[i], pool, limits) == Alone(rows[i], pool, limits)
    ensures Routed(rows', key, pool, limits) == Routed(rows, key, pool, limits)
  {
    if rows != [] {
      RoutedAlike(rows[..|rows| - 1], rows'[..|rows| - 1], key, pool, limits);
    }
  }

  lemma PromisedAlike(rows: seq<WorkOrder>, rows': seq<WorkOrder>, i: nat, pool: seq<PoolEntry>, limits: Limits)
    requires |rows'| == |rows| && i < |rows|
    requires forall j | 0 <= j < |rows| :: rows'[j].held == rows[j].held && Alone(rows'[j], pool, limits) == Alone(rows[j], pool, limits)
    ensures Promised(rows', i, pool, limits) == Promised(rows, i, pool, limits)
  {
    if !rows[i].held && Alone(rows[i], pool, limits).Dispatch? {
      RoutedAlike(rows[..i], rows'[..i], Alone(rows[i], pool, limits).runner, pool, limits);
    }
  }

  /**
   * `list`: every entry gets the state promised for its representative among the representatives ahead of it.
   * With plain needs and no clashing keys that is exactly the state promised for the rows themselves.
   */
  method List(rows: seq<WorkOrder>, pool: seq<PoolEntry>, limits: Limits) returns (states: seq<EntryState>)
    requires DistinctKeys(pool)
    ensures |states| == |rows|
    ensures forall i | 0 <= i < |rows| :: states[i] == Promised(Representatives(rows), i, pool, limits)
    ensures AllPlain(rows) && (NoKeyClash(rows) || NeedsAreMoot(pool, limits)) ==>
              forall i | 0 <= i < |rows| :: states[i] == Promised(rows, i, pool, limits)
  {
    var decisions := DecideOncePerRoutingInput(rows, pool, limits);
    forall i | 0 <= i < |rows| ensures Representatives(rows)[i].held == rows[i].held {
      RepresentativeSharesKey(rows, rows[i]);
    }
    states := Walk(rows, Representatives(rows), decisions, pool, limits);
    if AllPlain(rows) && (NoKeyClash(rows) || NeedsAreMoot(pool, limits)) {
      forall i | 0 <= i < |rows| ensures states[i] == Promised(rows, i, pool, limits) {
        forall j | 0 <= j < |rows|
          ensures Alone(Representatives(rows)[j], pool, limits) == Alone(rows[j], pool, limits)
        {
          RepresentativeDecidesAlike(rows, rows[j], pool, limits);
        }
        PromisedAlike(rows, Representatives(rows), i, pool, limits);
      }
    }
  }

  /** On its own decision a row gets the promised state, and leaves what the rows up to it leave. */
  lemma RowDone(rows: seq<WorkOrder>, i: nat, d: Decision, remaining: map<RunnerKey, nat>, pool: seq<PoolEntry>, limits: Limits)
    requires DistinctKeys(pool) && i < |rows| && Remains(remaining, rows[..i], pool, limits) && d == Alone(rows[i], pool, limits)
    ensures Outcome(rows[i].held, d, remaining).0 == Promised(rows, i, pool, limits)
    ensures Remains(Outcome(rows[i].held, d, remaining).1, rows[..i + 1], pool, limits)
  {
    RowGetsPromised(remaining, rows, i, Outcome(rows[i].held, d, remaining).0, pool, limits);
    assert rows[..i + 1] == rows[..i] + [rows[i]];
    if rows[i].held || d.Queued? {
      SkipRow(remaining, rows[..i], rows[i], pool, limits);
    } else {
      TakeSlot(remaining, rows[..i], rows[i], pool, limits);
    }
  }

  /** The walk has come to row `n`: every state so far is the promised one, and so is what remains. */
  ghost predicate WalkedTo(n: nat, states: seq<EntryState>, remaining: map<RunnerKey, nat>, rows: seq<WorkOrder>,
                           pool: seq<PoolEntry>, limits: Limits)
  {
    && |states| == n <= |rows|
    && (forall j | 0 <= j < n :: states[j] == Promised(rows, j, pool, limits))
    && Remains(remaining, rows[..n], pool, limits)
  }

  lemma WalkOn(n: nat, states: seq<EntryState>, remaining: map<RunnerKey, nat>, rows: seq<WorkOrder>, d: Decision,
               pool: seq<PoolEntry>, limits: Limits)
    requires DistinctKeys(pool) && n < |rows| && WalkedTo(n, states, remaining, rows, pool, limits) && d == Alone(rows[n], pool, limits)
    ensures var (state, remaining') := Outcome(rows[n].held, d, remaining);
            WalkedTo(n + 1, states + [state], remaining', rows, pool, limits)
  {
    RowDone(rows, n, d, remaining, pool, limits);
  }

  /** The walk down the queue, each row decided as the map says. */
  method Walk(rows: seq<WorkOrder>, ghost reps: seq<WorkOrder>, decisions: map<string, Decision>, pool: seq<PoolEntry>, limits: Limits)
    returns (states: seq<EntryState>)
    requires DistinctKeys(pool) && |reps| == |rows|
    requires forall row | row in rows :: RoutingKey(row) in decisions
    requires forall i | 0 <= i < |rows| :: decisions[RoutingKey(rows[i])] == Alone(reps[i], pool, limits)
    requires forall i | 0 <= i < |rows| :: reps[i].held == rows[i].held
    ensures |states| == |rows|
    ensures forall i | 0 <= i < |rows| :: states[i] == Promised(reps, i, pool, limits)
  {
    var remaining: map<RunnerKey, nat> := map[];
    states := [];
    for i := 0 to |rows|
      invariant WalkedTo(i, states, remaining, reps, pool, limits)
    {
      var d := decisions[RoutingKey(rows[i])];
      WalkOn(i, states, remaining, reps, d, pool, limits);
      var state, remaining' := StateOf(rows[i], d, remaining);
      states := states + [state];
      remaining := remaining';
    }
  }

  function ReadyFor(rows: seq<WorkOrder>, n: nat, key: RunnerKey, pool: seq<PoolEntry>, limits: Limits): nat
    requires n <= |rows|
  {
    if n == 0 then 0
    else ReadyFor(rows, n - 1, key, pool, limits)
         + if RoutedTo(rows[n - 1], key, pool, limits) && Promised(rows, n - 1, pool, limits).Ready? then 1 else 0
  }

  /** One more row is one more ready row exactly if it is routed to the runner while slots last. */
  lemma ReadyOneMore(rows: seq<WorkOrder>, n: nat, key: RunnerKey, slots: nat, pool: seq<PoolEntry>, limits: Limits)
    requires n < |rows| && (RoutedTo(rows[n], key, pool, limits) ==> Alone(rows[n], pool, limits).headroom == slots)
    ensures ReadyFor(rows, n + 1, key, pool, limits)
            == ReadyFor(rows, n, key, pool, limits)
               + if RoutedTo(rows[n], key, pool, limits) && Routed(rows[..n], key, pool, limits) < slots then 1 else 0
  {
    if RoutedTo(rows[n], key, pool, limits) {
      assert Promised(rows, n, pool, limits).Ready? <==> Routed(rows[..n], key, pool, limits) < slots;
    }
  }

  lemma RoutedNext(rows: seq<WorkOrder>, n: nat, key: RunnerKey, pool: seq<PoolEntry>, limits: Limits)
    requires n < |rows|
    ensures Routed(rows[..n + 1], key, pool, limits)
            == Routed(rows[..n], key, pool, limits) + if RoutedTo(rows[n], key, pool, limits) then 1 else 0
  {
    assert rows[..n + 1] == rows[..n] + [rows[n]];
    RoutedOneMore(rows[..n], rows[n], key, pool, limits);
  }

  /** The lesser of the rows routed and the slots. */
  function Filled(routed: nat, slots: nat): nat
  {
    if routed < slots then routed else slots
  }

  ghost predicate Fills(rows: seq<WorkOrder>, n: nat, key: RunnerKey, slots: nat, pool: seq<PoolEntry>, limits: Limits)
  {
    n <= |rows| && ReadyFor(rows, n, key, pool, limits) == Filled(Routed(rows[..n], key, pool, limits), slots)
  }

  lemma FillsOneMore(rows: seq<WorkOrder>, n: nat, key: RunnerKey, slots: nat, pool: seq<PoolEntry>, limits: Limits)
    requires n < |rows| && (RoutedTo(rows[n], key, pool, limits) ==> Alone(rows[n], pool, limits).headroom == slots)
    requires Fills(rows, n, key, slots, pool, limits)
    ensures Fills(rows, n + 1, key, slots, pool, limits)
  {
    ReadyOneMore(rows, n, key, slots, pool, limits);
    RoutedNext(rows, n, key, pool, limits);
  }

  /** For each runner, the ready rows number exactly the lesser of its headroom and the rows routed to it. */
  lemma ReadyRowsFillHeadroom(rows: seq<WorkOrder>, n: nat, key: RunnerKey, slots: nat, pool: seq<PoolEntry>, limits: Limits)
    requires n <= |rows|
    requires forall i | 0 <= i < n && RoutedTo(rows[i], key, pool, limits) :: Alone(rows[i], pool, limits).headroom == slots
    ensures Fills(rows, n, key, slots, pool, limits)
  {
    var k := 0;
    while k < n
      invariant k <= n && Fills(rows, k, key, slots, pool, limits)
    {
      FillsOneMore(rows, k, key, slots, pool, limits);
      k := k + 1;
    }
  }

  /** The first rows routed to a runner are ready, one per free slot, and the rest of them wait. */
  lemma ReadyExactly(rows: seq<WorkOrder>, j: nat, pool: seq<PoolEntry>, limits: Limits)
    requires DistinctKeys(pool) && j < |rows| && !rows[j].held && Alone(rows[j], pool, limits).Dispatch?
    ensures var d := Alone(rows[j], pool, limits);
            ReadyFor(rows, |rows|, d.runner, pool, limits) == Filled(Routed(rows, d.runner, pool, limits), d.headroom)
  {
    var d := Alone(rows[j], pool, limits);
    forall i | 0 <= i < |rows| && RoutedTo(rows[i], d.runner, pool, limits)
      ensures Alone(rows[i], pool, limits).headroom == d.headroom
    {
      SameRunnerSameHeadroom(rows[i], rows[j], d.runner, pool, limits);
    }
    ReadyRowsFillHeadroom(rows, |rows|, d.runner, d.headroom, pool, limits);
    assert rows[..|rows|] == rows;
  }

  /** The rows ahead of row `n` that are routed to the runner. */
  ghost function RoutedAhead(rows: seq<WorkOrder>, n: nat, key: RunnerKey, pool: seq<PoolEntry>, limits: Limits): set<nat>
  {
    set j: nat | j < n && j < |rows| && RoutedTo(rows[j], key, pool, limits)
  }

  lemma AheadGrows(rows: seq<WorkOrder>, n: nat, key: RunnerKey, pool: seq<PoolEntry>, limits: Limits)
    requires n < |rows|
    ensures RoutedAhead(rows, n + 1, key, pool, limits)
            == RoutedAhead(rows, n, key, pool, limits) + if RoutedTo(rows[n], key, pool, limits) then {n} else {}
  {
    forall j: nat ensures j in RoutedAhead(rows, n + 1, key, pool, limits)
                          <==> j in RoutedAhead(rows, n, key, pool, limits) || (j == n && RoutedTo(rows[n], key, pool, limits)) {
    }
  }

  lemma {:induction false} RoutedCounts(rows: seq<WorkOrder>, n: nat, key: RunnerKey, pool: seq<PoolEntry>, limits: Limits)
    requires n <= |rows|
    ensures Routed(rows[..n], key, pool, limits) == |RoutedAhead(rows, n, key, pool, limits)|
  {
    if n == 0 {
      assert RoutedAhead(rows, 0, key, pool, limits) == {};
    } else {
      RoutedCounts(rows, n - 1, key, pool, limits);
      RoutedNext(rows, n - 1, key, pool, limits);
      AheadGrows(rows, n - 1, key, pool, limits);
    }
  }

  /**
   * What each state promised means. A held row is held; a row the policy queues waits for the policy; a row it
   * would dispatch is ready while fewer rows ahead of it go to its runner than the runner has free slots, and
   * otherwise waits for them: first come, first served.
   */
  lemma StatesExactly(rows: seq<WorkOrder>, i: nat, pool: seq<PoolEntry>, limits: Limits)
    requires DistinctKeys(pool) && i < |rows|
    ensures var (state, d) := (Promised(rows, i, pool, limits), Alone(rows[i], pool, limits));
            && (state == Held <==> rows[i].held)
            && (state == Waiting(false) <==> !rows[i].held && d.Queued?)
            && (!rows[i].held && d.Dispatch? ==>
                  exists w | w in pool && w.capabilities.key == d.runner ::
                    && (state == Ready <==> |RoutedAhead(rows, i, d.runner, pool, limits)| < Headroom(w))
                    && (state == Waiting(true) <==> |RoutedAhead(rows, i, d.runner, pool, limits)| >= Headroom(w)))
  {
    var d := Alone(rows[i], pool, limits);
    if !rows[i].held && d.Dispatch? {
      RoutedCounts(rows, i, d.runner, pool, limits);
      var w := WinnerIsBest(Input(rows[i].needs, AsModelTier(rows[i].tier)), pool, limits);
      assert w in pool && w.capabilities.key == d.runner && d.headroom == Headroom(w);
    }
  }
}
