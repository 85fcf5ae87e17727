/** The conditional-request cache (`etag-cache.service.ts`): a map in insertion order, used as an LRU. */
module EtagCache {
  import opened Base

  datatype CachedResponse = CachedResponse(etag: string, body: string, link: Option<string>)

  /** One entry of the map, which is kept oldest first. */
  datatype Slot = Slot(key: string, entry: CachedResponse)

  function Upper(c: char): char
  {
    if 'a' <= c <= 'z' then (c as int - 'a' as int + 'A' as int) as char else c
  }

  function UpperCase(s: string): (u: string)
    ensures |u| == |s| && forall i | 0 <= i < |s| :: u[i] == Upper(s[i])
  {
    if s == [] then [] else [Upper(s[0])] + UpperCase(s[1..])
  }

  function KeyFor(verb: string, url: string): string
  {
    UpperCase(verb) + " " + url
  }

  lemma UpperAddsNoSpace(verb: string)
    requires ' ' !in verb
    ensures ' ' !in UpperCase(verb)
  {
    forall i | 0 <= i < |verb| ensures UpperCase(verb)[i] != ' ' {
      assert verb[i] in verb;
    }
  }

  /** Two requests share a key exactly when they agree on the URL and, but for case, on the method. */
  lemma KeysSeparateRequests(verb: string, url: string, verb': string, url': string)
    requires ' ' !in verb && ' ' !in verb'
    ensures KeyFor(verb, url) == KeyFor(verb', url') <==> UpperCase(verb) == UpperCase(verb') && url == url'
  {
    UpperAddsNoSpace(verb);
    UpperAddsNoSpace(verb');
    if KeyFor(verb, url) == KeyFor(verb', url') {
      UniqueSplit(UpperCase(verb), url, UpperCase(verb'), url', ' ');
    }
  }

  // ---------------------------------------------------------------------------------------------
  // The map as a sequence
  // ---------------------------------------------------------------------------------------------

  function Keep(entries: seq<Slot>, p: Slot -> bool): seq<Slot>
  {
    if entries == [] then []
    else Keep(entries[..|entries| - 1], p) + if p(entries[|entries| - 1]) then [entries[|entries| - 1]] else []
  }

  function Not(key: string): Slot -> bool
  {
    (s: Slot) => s.key != key
  }

  function Marker(owner: string, name: string): string
  {
    "/repos/" + owner + "/" + name
  }

  function Outside(marker: string): Slot -> bool
  {
    (s: Slot) => !Contains(s.key, marker)
  }

  function Find(entries: seq<Slot>, key: string): Option<CachedResponse>
  {
    if entries == [] then None
    else if entries[|entries| - 1].key == key then Some(entries[|entries| - 1].entry)
    else Find(entries[..|entries| - 1], key)
  }

  predicate DistinctKeys(entries: seq<Slot>)
  {
    forall i, j | 0 <= i < j < |entries| :: entries[i].key != entries[j].key
  }

  /** An operation on the cache, and what the map is after it. */
  datatype Op = Get(key: string) | Set(key: string, entry: CachedResponse) | Invalidate(marker: string) | Clear

  function Apply(entries: seq<Slot>, maxEntries: nat, op: Op): seq<Slot>
  {
    match op
    case Get(key) =>
      var found := Find(entries, key);
      if found.None? then entries else Keep(entries, Not(key)) + [Slot(key, found.value)]
    case Set(key, entry) => Newest(Keep(entries, Not(key)) + [Slot(key, entry)], maxEntries)
    case Invalidate(marker) => Keep(entries, Outside(marker))
    case Clear => []
  }

  /** The last `n` entries. */
  function Newest(entries: seq<Slot>, n: nat): seq<Slot>
  {
    if |entries| > n then entries[|entries| - n..] else entries
  }

  lemma {:induction false} KeepFacts(entries: seq<Slot>, p: Slot -> bool)
    ensures |Keep(entries, p)| <= |entries|
    ensures forall s :: s in Keep(entries, p) <==> s in entries && p(s)
  {
    if entries != [] {
      var n := |entries| - 1;
      KeepFacts(entries[..n], p);
      assert entries == entries[..n] + [entries[n]];
    }
  }

  lemma {:induction false} KeepAll(entries: seq<Slot>, p: Slot -> bool)
    requires forall s | s in entries :: p(s)
    ensures Keep(entries, p) == entries
  {
    if entries != [] {
      KeepAll(entries[..|entries| - 1], p);
    }
  }

  lemma DistinctAppend(entries: seq<Slot>, s: Slot)
    requires DistinctKeys(entries) && forall other | other in entries :: other.key != s.key
    ensures DistinctKeys(entries + [s])
  {
    forall i, j | 0 <= i < j < |entries + [s]| ensures (entries + [s])[i].key != (entries + [s])[j].key {
      assert entries[i] in entries;
    }
  }

  lemma {:induction false} KeepDistinct(entries: seq<Slot>, p: Slot -> bool)
    requires DistinctKeys(entries)
    ensures DistinctKeys(Keep(entries, p))
  {
    if entries != [] {
      var n := |entries| - 1;
      KeepDistinct(entries[..n], p);
      if p(entries[n]) {
        KeepFacts(entries[..n], p);
        DistinctAppend(Keep(entries[..n], p), entries[n]);
      } else {
        assert Keep(entries, p) == Keep(entries[..n], p);
      }
    }
  }

  lemma {:induction false} FindFacts(entries: seq<Slot>, key: string)
    requires DistinctKeys(entries)
    ensures forall e :: Find(entries, key) == Some(e) <==> Slot(key, e) in entries
    ensures Find(entries, key).None? <==> forall s | s in entries :: s.key != key
  {
    if entries != [] {
      var n := |entries| - 1;
      FindFacts(entries[..n], key);
      assert entries == entries[..n] + [entries[n]];
      if entries[n].key == key {
        forall s | s in entries[..n] ensures s.key != key {
          var i :| 0 <= i < n && entries[i] == s;
        }
      }
    }
  }

  // ---------------------------------------------------------------------------------------------
  // The service
  // ---------------------------------------------------------------------------------------------

  predicate Sound(entries: seq<Slot>, maxEntries: nat)
  {
    DistinctKeys(entries) && |entries| <= maxEntries
  }

  lemma UseKeepsDistinct(entries: seq<Slot>, key: string, entry: CachedResponse)
    requires DistinctKeys(entries)
    ensures DistinctKeys(Keep(entries, Not(key)) + [Slot(key, entry)])
  {
    KeepFacts(entries, Not(key));
    KeepDistinct(entries, Not(key));
    DistinctAppend(Keep(entries, Not(key)), Slot(key, entry));
  }

  lemma ApplyKeepsSound(entries: seq<Slot>, maxEntries: nat, op: Op)
    requires Sound(entries, maxEntries)
    ensures Sound(Apply(entries, maxEntries, op), maxEntries)
  {
    match op {
      case Get(key) =>
        if Find(entries, key).Some? {
          UseKeepsDistinct(entries, key, Find(entries, key).value);
          KeepLength(entries, key);
        }
      case Set(key, entry) =>
        UseKeepsDistinct(entries, key, entry);
      case Invalidate(marker) =>
        KeepFacts(entries, Outside(marker));
        KeepDistinct(entries, Outside(marker));
      case Clear =>
    }
  }

  /** Taking out one key shortens the map by one exactly when the key is there. */
  lemma {:induction false} KeepLength(entries: seq<Slot>, key: string)
    requires DistinctKeys(entries)
    ensures |Keep(entries, Not(key))| == |entries| - if Find(entries, key).Some? then 1 else 0
  {
    if entries != [] {
      var n := |entries| - 1;
      KeepLength(entries[..n], key);
      FindFacts(entries[..n], key);
      if entries[n].key == key {
        forall s | s in entries[..n] ensures s.key != key {
          var i :| 0 <= i < n && entries[i] == s;
        }
      }
    }
  }

  class EtagCacheService {
    const maxEntries: nat
    var entries: seq<Slot>

    ghost predicate Valid()
      reads this
    {
      Sound(entries, maxEntries)
    }

    constructor (maxEntries: nat)
      ensures Valid() && entries == [] && this.maxEntries == maxEntries
    {
      this.maxEntries := maxEntries;
      entries := [];
    }

    /** A hit moves the entry to the newest end; a miss changes nothing. */
    method Fetch(key: string) returns (found: Option<CachedResponse>)
      requires Valid()
      modifies this
      ensures Valid() && entries == Apply(old(entries), maxEntries, Get(key))
      ensures found == Find(old(entries), key) == Find(entries, key)
    {
      ApplyKeepsSound(entries, maxEntries, Get(key));
      found := Find(entries, key);
      if found.Some? {
        entries := Keep(entries, Not(key));
        entries := entries + [Slot(key, found.value)];
      }
    }

    method Store(key: string, entry: CachedResponse)
      requires Valid()
      modifies this
      ensures Valid() && entries == Apply(old(entries), maxEntries, Set(key, entry))
      ensures maxEntries > 0 ==> Find(entries, key) == Some(entry)
    {
      ApplyKeepsSound(entries, maxEntries, Set(key, entry));
      entries := Keep(entries, Not(key));
      entries := entries + [Slot(key, entry)];
      ghost var grown := entries;
      while |entries| > maxEntries
        invariant |entries| <= |grown| && entries == grown[|grown| - |entries|..]
        invariant |grown| >= maxEntries ==> |entries| >= maxEntries
        invariant |grown| < maxEntries ==> entries == grown
      {
        entries := entries[1..];
      }
    }

    /** `invalidateRepository`: how many keys contained the repository's path. */
    method InvalidateRepository(owner: string, name: string) returns (removed: nat)
      requires Valid()
      modifies this
      ensures Valid() && entries == Apply(old(entries), maxEntries, Invalidate(Marker(owner, name)))
      ensures removed == |old(entries)| - |entries|
    {
      ApplyKeepsSound(entries, maxEntries, Invalidate(Marker(owner, name)));
      var before := entries;
      var kept: seq<Slot> := [];
      removed := 0;
      for i := 0 to |before|
        invariant kept == Keep(before[..i], Outside(Marker(owner, name))) && removed == i - |kept|
      {
        assert before[..i + 1][..i] == before[..i];
        if Contains(before[i].key, Marker(owner, name)) {
          removed := removed + 1;
        } else {
          kept := kept + [before[i]];
        }
      }
      assert before[..|before|] == before;
      entries := kept;
    }

    method ClearAll()
      modifies this
      ensures Valid() && entries == []
    {
      entries := [];
    }
  }

  // ---------------------------------------------------------------------------------------------
  // Whole traces
  // ---------------------------------------------------------------------------------------------

  function Run(maxEntries: nat, ops: seq<Op>): seq<Slot>
  {
    if ops == [] then [] else Apply(Run(maxEntries, ops[..|ops| - 1]), maxEntries, ops[|ops| - 1])
  }

  lemma {:induction false} AlwaysSound(maxEntries: nat, ops: seq<Op>)
    ensures Sound(Run(maxEntries, ops), maxEntries)
  {
    if ops != [] {
      AlwaysSound(maxEntries, ops[..|ops| - 1]);
      ApplyKeepsSound(Run(maxEntries, ops[..|ops| - 1]), maxEntries, ops[|ops| - 1]);
    }
  }

  /** The value a key was last set to, if nothing has invalidated it since. */
  function LastSet(ops: seq<Op>, key: string): Option<CachedResponse>
  {
    if ops == [] then None
    else
      var before := LastSet(ops[..|ops| - 1], key);
      match ops[|ops| - 1]
      case Get(_) => before
      case Set(k, entry) => if k == key then Some(entry) else before
      case Invalidate(marker) => if Contains(key, marker) then None else before
      case Clear => None
  }

  /** What any step leaves findable: the value just set, or what was findable before and not invalidated. */
  lemma FindAfter(entries: seq<Slot>, maxEntries: nat, op: Op, key: string)
    requires Sound(entries, maxEntries)
    ensures op.Get? ==> Find(Apply(entries, maxEntries, op), key) == Find(entries, key)
    ensures op.Set? ==>
              var after, expected := Find(Apply(entries, maxEntries, op), key), if op.key == key then Some(op.entry) else Find(entries, key);
              (after.Some? ==> after == expected) && (|entries| < maxEntries ==> after == expected)
    ensures op.Invalidate? ==> Find(Apply(entries, maxEntries, op), key) == if Contains(key, op.marker) then None else Find(entries, key)
    ensures op.Clear? ==> Find(Apply(entries, maxEntries, op), key).None?
  {
    var after := Apply(entries, maxEntries, op);
    ApplyKeepsSound(entries, maxEntries, op);
    FindFacts(entries, key);
    FindFacts(after, key);
    match op {
      case Get(k) =>
        KeepFacts(entries, Not(k));
        FindFacts(entries, k);
      case Set(k, entry) =>
        KeepFacts(entries, Not(k));
        var grown := Keep(entries, Not(k)) + [Slot(k, entry)];
        assert forall s | s in after :: s in grown;
        if |entries| < maxEntries {
          assert after == grown;
        }
      case Invalidate(marker) =>
        KeepFacts(entries, Outside(marker));
      case Clear =>
    }
  }

  /** The cache never returns anything but the last value set, and forgets nothing while it has room. */
  lemma {:induction false} HitsReturnLastSet(maxEntries: nat, ops: seq<Op>, key: string)
    ensures Find(Run(maxEntries, ops), key).Some? ==> Find(Run(maxEntries, ops), key) == LastSet(ops, key)
    ensures |ops| <= maxEntries ==> Find(Run(maxEntries, ops), key) == LastSet(ops, key) && |Run(maxEntries, ops)| <= |ops|
  {
    if ops != [] {
      var n := |ops| - 1;
      var before := Run(maxEntries, ops[..n]);
      HitsReturnLastSet(maxEntries, ops[..n], key);
      AlwaysSound(maxEntries, ops[..n]);
      FindAfter(before, maxEntries, ops[n], key);
      if |ops| <= maxEntries {
        SizeGrowsByOne(before, maxEntries, ops[n]);
      }
    }
  }

  lemma SizeGrowsByOne(entries: seq<Slot>, maxEntries: nat, op: Op)
    requires Sound(entries, maxEntries)
    ensures |Apply(entries, maxEntries, op)| <= |entries| + 1
  {
    match op {
      case Get(key) => KeepFacts(entries, Not(key));
      case Set(key, _) => KeepFacts(entries, Not(key));
      case Invalidate(marker) => KeepFacts(entries, Outside(marker));
      case Clear =>
    }
  }

  // ---------------------------------------------------------------------------------------------
  // Eviction
  // ---------------------------------------------------------------------------------------------

  /** The position, counted from one, of the last read or write of a key; zero if there is none. */
  function LastUse(ops: seq<Op>, key: string): nat
  {
    if ops == [] then 0
    else
      var op := ops[|ops| - 1];
      if (op.Get? || op.Set?) && op.key == key then |ops| else LastUse(ops[..|ops| - 1], key)
  }

  predicate ByRecency(ops: seq<Op>, entries: seq<Slot>)
  {
    forall i, j | 0 <= i < j < |entries| :: LastUse(ops, entries[i].key) < LastUse(ops, entries[j].key)
  }

  lemma {:induction false} LastUseBound(ops: seq<Op>, key: string)
    ensures LastUse(ops, key) <= |ops|
  {
    if ops != [] {
      LastUseBound(ops[..|ops| - 1], key);
    }
  }

  lemma RecencyAppend(ops: seq<Op>, entries: seq<Slot>, s: Slot)
    requires ByRecency(ops, entries) && forall other | other in entries :: LastUse(ops, other.key) < LastUse(ops, s.key)
    ensures ByRecency(ops, entries + [s])
  {
    forall i, j | 0 <= i < j < |entries + [s]|
      ensures LastUse(ops, (entries + [s])[i].key) < LastUse(ops, (entries + [s])[j].key)
    {
      assert entries[i] in entries;
    }
  }

  /** Leaving entries out keeps the order of those that stay. */
  lemma {:induction false} KeepByRecency(ops: seq<Op>, entries: seq<Slot>, p: Slot -> bool)
    requires ByRecency(ops, entries)
    ensures ByRecency(ops, Keep(entries, p))
  {
    if entries != [] {
      var n := |entries| - 1;
      KeepByRecency(ops, entries[..n], p);
      if p(entries[n]) {
        KeepFacts(entries[..n], p);
        RecencyAppend(ops, Keep(entries[..n], p), entries[n]);
      } else {
        assert Keep(entries, p) == Keep(entries[..n], p);
      }
    }
  }

  lemma RecencyTransfer(ops: seq<Op>, ops': seq<Op>, entries: seq<Slot>)
    requires ByRecency(ops, entries)
    requires forall s | s in entries :: LastUse(ops', s.key) == LastUse(ops, s.key)
    ensures ByRecency(ops', entries)
  {
    forall i, j | 0 <= i < j < |entries| ensures LastUse(ops', entries[i].key) < LastUse(ops', entries[j].key) {
      assert entries[i] in entries && entries[j] in entries;
    }
  }

  lemma UseMovesToEnd(ops: seq<Op>, op: Op, entries: seq<Slot>, entry: CachedResponse)
    requires (op.Get? || op.Set?) && ByRecency(ops, entries)
    ensures ByRecency(ops + [op], Keep(entries, Not(op.key)) + [Slot(op.key, entry)])
  {
    var kept := Keep(entries, Not(op.key));
    KeepByRecency(ops, entries, Not(op.key));
    KeepFacts(entries, Not(op.key));
    assert (ops + [op])[..|ops|] == ops;
    forall s | s in kept ensures LastUse(ops + [op], s.key) == LastUse(ops, s.key) <= |ops| {
      LastUseBound(ops, s.key);
    }
    RecencyTransfer(ops, ops + [op], kept);
    RecencyAppend(ops + [op], kept, Slot(op.key, entry));
  }

  /** The map is always ordered by last use. */
  lemma {:induction false} AlwaysByRecency(maxEntries: nat, ops: seq<Op>)
    ensures ByRecency(ops, Run(maxEntries, ops))
  {
    if ops != [] {
      var before, op := ops[..|ops| - 1], ops[|ops| - 1];
      AlwaysByRecency(maxEntries, before);
      var entries := Run(maxEntries, before);
      assert ops == before + [op];
      match op {
        case Get(key) =>
          if Find(entries, key).Some? {
            UseMovesToEnd(before, op, entries, Find(entries, key).value);
          } else {
            MissChangesNoUse(maxEntries, before, op);
          }
        case Set(key, entry) =>
          UseMovesToEnd(before, op, entries, entry);
        case Invalidate(marker) =>
          KeepByRecency(before, entries, Outside(marker));
          assert forall key :: LastUse(ops, key) == LastUse(before, key);
        case Clear =>
      }
    }
  }

  lemma MissChangesNoUse(maxEntries: nat, ops: seq<Op>, op: Op)
    requires op.Get? && Find(Run(maxEntries, ops), op.key).None? && ByRecency(ops, Run(maxEntries, ops))
    ensures ByRecency(ops + [op], Run(maxEntries, ops))
  {
    var entries := Run(maxEntries, ops);
    AlwaysSound(maxEntries, ops);
    FindFacts(entries, op.key);
    assert (ops + [op])[..|ops|] == ops;
    forall i | 0 <= i < |entries| ensures LastUse(ops + [op], entries[i].key) == LastUse(ops, entries[i].key) {
      assert entries[i] in entries;
    }
  }

  /** Of a map in order of use, everything cut off was used before everything kept. */
  lemma CutOffIsOlder(ops: seq<Op>, entries: seq<Slot>, n: nat, gone: Slot, stays: Slot)
    requires ByRecency(ops, entries) && gone in entries && gone !in Newest(entries, n) && stays in Newest(entries, n)
    ensures LastUse(ops, gone.key) < LastUse(ops, stays.key)
  {
    var i :| 0 <= i < |entries| && entries[i] == gone;
    var cut := |entries| - |Newest(entries, n)|;
    var j :| 0 <= j < |Newest(entries, n)| && Newest(entries, n)[j] == stays;
    assert entries[cut + j] == stays;
    forall t | cut <= t < |entries| ensures entries[t] in Newest(entries, n) {
      assert Newest(entries, n)[t - cut] == entries[t];
    }
  }

  /** What a write evicts was used less recently than everything it leaves. */
  lemma EvictsLeastRecentlyUsed(maxEntries: nat, ops: seq<Op>, key: string, entry: CachedResponse, gone: Slot, stays: Slot)
    requires var before := Run(maxEntries, ops);
             var after := Apply(before, maxEntries, Set(key, entry));
             gone in before && gone.key != key && gone !in after && stays in after
    ensures LastUse(ops + [Set(key, entry)], gone.key) < LastUse(ops + [Set(key, entry)], stays.key)
  {
    var before := Run(maxEntries, ops);
    AlwaysByRecency(maxEntries, ops);
    UseMovesToEnd(ops, Set(key, entry), before, entry);
    KeepFacts(before, Not(key));
    CutOffIsOlder(ops + [Set(key, entry)], Keep(before, Not(key)) + [Slot(key, entry)], maxEntries, gone, stays);
  }

  // ---------------------------------------------------------------------------------------------
  // A larger cache holds everything a smaller one does
  // ---------------------------------------------------------------------------------------------

  /** `a` is `b` with some entries left out. */
  predicate Sub(a: seq<Slot>, b: seq<Slot>)
    decreases |b|
  {
    a == [] ||
    (b != [] &&
     if a[|a| - 1] == b[|b| - 1] then Sub(a[..|a| - 1], b[..|b| - 1]) else Sub(a, b[..|b| - 1]))
  }

  lemma {:induction false} SubMember(a: seq<Slot>, b: seq<Slot>, s: Slot)
    requires Sub(a, b) && s in a
    ensures s in b
    decreases |b|
  {
    var m, n := |a| - 1, |b| - 1;
    if a[m] == b[n] {
      if s != a[m] {
        SubMember(a[..m], b[..n], s);
      }
    } else {
      SubMember(a, b[..n], s);
    }
  }

  lemma {:induction false} SubLength(a: seq<Slot>, b: seq<Slot>)
    requires Sub(a, b)
    ensures |a| <= |b|
    decreases |b|
  {
    if a != [] {
      if a[|a| - 1] == b[|b| - 1] {
        SubLength(a[..|a| - 1], b[..|b| - 1]);
      } else {
        SubLength(a, b[..|b| - 1]);
      }
    }
  }

  lemma SubAppend(a: seq<Slot>, b: seq<Slot>, s: Slot)
    requires Sub(a, b)
    ensures Sub(a + [s], b + [s])
  {
    assert (a + [s])[..|a|] == a && (b + [s])[..|b|] == b;
  }

  lemma {:induction false} SubOfMore(a: seq<Slot>, b: seq<Slot>, s: Slot)
    requires Sub(a, b) && s !in a
    ensures Sub(a, b + [s])
  {
    assert (b + [s])[..|b|] == b;
  }

  /** The same test keeps a part of a part, and takes at least as many entries out of the whole. */
  lemma {:induction false} SubKeep(a: seq<Slot>, b: seq<Slot>, p: Slot -> bool)
    requires Sub(a, b) && DistinctKeys(b)
    ensures Sub(Keep(a, p), Keep(b, p))
    ensures |a| - |Keep(a, p)| <= |b| - |Keep(b, p)|
    decreases |b|
  {
    if a == [] {
      KeepFacts(b, p);
    } else if a[|a| - 1] == b[|b| - 1] {
      SubKeepBoth(a, b, p);
    } else {
      SubKeepOne(a, b, p);
    }
  }

  lemma SubKeepBoth(a: seq<Slot>, b: seq<Slot>, p: Slot -> bool)
    requires a != [] && b != [] && Sub(a[..|a| - 1], b[..|b| - 1]) && a[|a| - 1] == b[|b| - 1] && DistinctKeys(b)
    ensures Sub(Keep(a, p), Keep(b, p))
    ensures |a| - |Keep(a, p)| <= |b| - |Keep(b, p)|
    decreases |b|, 0
  {
    var m, n := |a| - 1, |b| - 1;
    SubKeep(a[..m], b[..n], p);
    if p(b[n]) {
      SubAppend(Keep(a[..m], p), Keep(b[..n], p), b[n]);
    } else {
      assert Keep(a, p) == Keep(a[..m], p) && Keep(b, p) == Keep(b[..n], p);
    }
  }

  lemma SubKeepOne(a: seq<Slot>, b: seq<Slot>, p: Slot -> bool)
    requires b != [] && Sub(a, b[..|b| - 1]) && DistinctKeys(b)
    ensures Sub(Keep(a, p), Keep(b, p))
    ensures |a| - |Keep(a, p)| <= |b| - |Keep(b, p)|
    decreases |b|, 0
  {
    var n := |b| - 1;
    SubKeep(a, b[..n], p);
    if p(b[n]) {
      KeepFacts(a, p);
      if b[n] in a {
        SubMember(a, b[..n], b[n]);
      }
      SubOfMore(Keep(a, p), Keep(b[..n], p), b[n]);
    } else {
      assert Keep(b, p) == Keep(b[..n], p);
    }
  }

  lemma EndsCommute(b: seq<Slot>)
    requires |b| >= 2
    ensures b[1..][..|b| - 2] == b[..|b| - 1][1..] && b[1..][|b| - 2] == b[|b| - 1]
  {
  }

  lemma {:induction false} SubDropFirst(a: seq<Slot>, b: seq<Slot>)
    requires Sub(a, b) && a != []
    ensures b != [] && Sub(a[1..], b[1..]) && Sub(a[1..], b)
    decreases |b|
  {
    var m, n := |a| - 1, |b| - 1;
    if m > 0 {
      EndsCommute(a);
      if a[m] == b[n] {
        SubDropFirst(a[..m], b[..n]);
      } else {
        SubDropFirst(a, b[..n]);
      }
      EndsCommute(b);
    }
  }

  /** The small cache's entries are among the large one's, in order, and the large one is never far ahead. */
  ghost predicate Included(small: seq<Slot>, n: nat, large: seq<Slot>, m: nat)
  {
    Sub(small, large) && |large| - |small| <= m - n
  }

  /** A write that grows both maps by the same entry keeps the one included in the other. */
  lemma CutKeepsIncluded(small: seq<Slot>, n: nat, large: seq<Slot>, m: nat)
    requires n <= m && |small| <= n + 1 && |large| <= m + 1 && Sub(small, large)
    requires |large| - |small| <= m - n || |small| == n + 1
    ensures Included(Newest(small, n), n, Newest(large, m), m)
  {
    if |small| == n + 1 {
      SubDropFirst(small, large);
    }
  }

  lemma SetKeepsIncluded(small: seq<Slot>, n: nat, large: seq<Slot>, m: nat, key: string, entry: CachedResponse)
    requires n <= m && Sound(small, n) && Sound(large, m) && Included(small, n, large, m)
    ensures Included(Apply(small, n, Set(key, entry)), n, Apply(large, m, Set(key, entry)), m)
  {
    SubKeep(small, large, Not(key));
    KeepLength(small, key);
    KeepLength(large, key);
    SubAppend(Keep(small, Not(key)), Keep(large, Not(key)), Slot(key, entry));
    CutKeepsIncluded(Keep(small, Not(key)) + [Slot(key, entry)], n, Keep(large, Not(key)) + [Slot(key, entry)], m);
  }

  lemma StepKeepsIncluded(small: seq<Slot>, n: nat, large: seq<Slot>, m: nat, op: Op)
    requires n <= m && Sound(small, n) && Sound(large, m) && Included(small, n, large, m)
    ensures Included(Apply(small, n, op), n, Apply(large, m, op), m)
  {
    match op {
      case Get(key) => GetKeepsIncluded(small, n, large, m, key);
      case Set(key, entry) => SetKeepsIncluded(small, n, large, m, key, entry);
      case Invalidate(marker) => SubKeep(small, large, Outside(marker));
      case Clear =>
    }
  }

  lemma GetKeepsIncluded(small: seq<Slot>, n: nat, large: seq<Slot>, m: nat, key: string)
    requires n <= m && Sound(small, n) && Sound(large, m) && Included(small, n, large, m)
    ensures Included(Apply(small, n, Get(key)), n, Apply(large, m, Get(key)), m)
  {
    FindFacts(small, key);
    FindFacts(large, key);
    KeepLength(small, key);
    KeepLength(large, key);
    SubKeep(small, large, Not(key));
    KeepFacts(small, Not(key));
    if Find(small, key).Some? {
      SubMember(small, large, Slot(key, Find(small, key).value));
      SubAppend(Keep(small, Not(key)), Keep(large, Not(key)), Slot(key, Find(small, key).value));
    } else if Find(large, key).Some? {
      KeepAll(small, Not(key));
      SubOfMore(small, Keep(large, Not(key)), Slot(key, Find(large, key).value));
    }
  }

  lemma {:induction false} AlwaysIncluded(n: nat, m: nat, ops: seq<Op>)
    requires n <= m
    ensures Included(Run(n, ops), n, Run(m, ops), m)
  {
    if ops != [] {
      var before := ops[..|ops| - 1];
      AlwaysIncluded(n, m, before);
      AlwaysSound(n, before);
      AlwaysSound(m, before);
      StepKeepsIncluded(Run(n, before), n, Run(m, before), m, ops[|ops| - 1]);
    }
  }

  /** On the same trace a larger cache hits wherever a smaller one does, with the same answer. */
  lemma LargerCacheHitsToo(n: nat, m: nat, ops: seq<Op>, key: string)
    requires n <= m && Find(Run(n, ops), key).Some?
    ensures Find(Run(m, ops), key) == Find(Run(n, ops), key)
  {
    AlwaysIncluded(n, m, ops);
    AlwaysSound(n, ops);
    AlwaysSound(m, ops);
    FindFacts(Run(n, ops), key);
    FindFacts(Run(m, ops), key);
    SubMember(Run(n, ops), Run(m, ops), Slot(key, Find(Run(n, ops), key).value));
  }

  // ---------------------------------------------------------------------------------------------
  // What invalidating a repository drops
  // ---------------------------------------------------------------------------------------------

  const REPOS: string := "/repos/"

  /** The key of a request under a repository's path. */
  function RepoKey(verb: string, host: string, owner: string, name: string, rest: string): string
  {
    KeyFor(verb, host + Marker(owner, name) + rest)
  }

  function PathAt(verb: string, host: string): nat
  {
    |verb| + 1 + |host|
  }

  predicate PathSegment(s: string)
  {
    '/' !in s && '?' !in s
  }

  /** What can follow a whole path segment. */
  predicate EndsSegment(rest: string)
  {
    rest == "" || rest[0] == '/' || rest[0] == '?'
  }

  /** Segment by segment, a path begins with another exactly when the owners agree and the names' beginnings do. */
  lemma PathsBeginAlike(owner: string, name: string, owner': string, name': string, rest: string)
    requires PathSegment(owner) && PathSegment(name) && PathSegment(owner') && PathSegment(name') && EndsSegment(rest)
    ensures owner + "/" + name <= owner' + "/" + name' + rest <==> owner' == owner && name <= name'
  {
    var prefix, path := owner + "/" + name, owner' + "/" + name' + rest;
    assert path == owner' + ['/'] + (name' + rest);
    if prefix <= path {
      var tail := path[|prefix|..];
      assert path == owner + ['/'] + (name + tail);
      UniqueSplit(owner, name + tail, owner', name' + rest, '/');
      NamesBeginAlike(name, tail, name', rest);
    }
    if owner' == owner && name <= name' {
      assert name' == name + name'[|name|..];
      assert path == prefix + (name'[|name|..] + rest);
    }
  }

  lemma NamesBeginAlike(name: string, tail: string, name': string, rest: string)
    requires name + tail == name' + rest && PathSegment(name) && EndsSegment(rest)
    ensures name <= name'
  {
    var path := name' + rest;
    forall i | 0 <= i < |name| ensures path[i] in name {
      assert path[i] == (name + tail)[i] == name[i];
    }
    assert rest != "" ==> path[|name'|] == rest[0];
    assert |name| <= |name'|;
    assert name == path[..|name|] == name'[..|name|];
  }

  lemma OwnPathExactly(verb: string, host: string, owner: string, name: string, owner': string, name': string, rest: string)
    requires PathSegment(owner) && PathSegment(name) && PathSegment(owner') && PathSegment(name') && EndsSegment(rest)
    ensures OccursAt(RepoKey(verb, host, owner', name', rest), Marker(owner, name), PathAt(verb, host))
            <==> owner' == owner && name <= name'
  {
    var key, pos := RepoKey(verb, host, owner', name', rest), PathAt(verb, host);
    var path, prefix := owner' + "/" + name' + rest, owner + "/" + name;
    assert key == (UpperCase(verb) + " " + host) + (REPOS + path);
    assert key[pos..] == REPOS + path;
    assert Marker(owner, name) == REPOS + prefix;
    PathsBeginAlike(owner, name, owner', name', rest);
    AtTailExactly(key, Marker(owner, name), pos);
    assert (REPOS + path)[|REPOS|..] == path;
    if prefix <= path {
      assert (REPOS + path)[..|REPOS + prefix|] == REPOS + prefix;
    }
    if REPOS + prefix <= REPOS + path {
      assert prefix == (REPOS + path)[|REPOS|..|REPOS + prefix|];
    }
  }

  lemma AtTailExactly(s: string, t: string, k: nat)
    requires k <= |s|
    ensures OccursAt(s, t, k) <==> t <= s[k..]
  {
    if k + |t| <= |s| {
      assert s[k..][..|t|] == s[k..k + |t|];
    }
  }

  /**
   * A repository's entry is dropped exactly when it has the named owner and a name beginning with the one
   * named, or the marker occurs elsewhere in its key; and it cannot occur elsewhere if the key has but one
   * "/repos/".
   */
  lemma DroppedExactly(entries: seq<Slot>, maxEntries: nat, slot: Slot, verb: string, host: string,
                       owner: string, name: string, owner': string, name': string, rest: string)
    requires PathSegment(owner) && PathSegment(name) && PathSegment(owner') && PathSegment(name') && EndsSegment(rest)
    requires slot in entries && slot.key == RepoKey(verb, host, owner', name', rest)
    ensures slot !in Apply(entries, maxEntries, Invalidate(Marker(owner, name)))
            <==> (owner' == owner && name <= name') || OccursElsewhere(slot.key, Marker(owner, name), PathAt(verb, host))
    ensures !OccursElsewhere(slot.key, REPOS, PathAt(verb, host)) ==> !OccursElsewhere(slot.key, Marker(owner, name), PathAt(verb, host))
  {
    var marker, pos := Marker(owner, name), PathAt(verb, host);
    KeepFacts(entries, Outside(marker));
    OwnPathExactly(verb, host, owner, name, owner', name', rest);
    assert OccursAt(slot.key, marker, pos) ==> pos <= |slot.key|;
    MarkersStartWithRepos(slot.key, owner, name);
  }

  lemma MarkersStartWithRepos(key: string, owner: string, name: string)
    ensures forall k: nat :: OccursAt(key, Marker(owner, name), k) ==> OccursAt(key, REPOS, k)
  {
    var marker := Marker(owner, name);
    forall k: nat | OccursAt(key, marker, k) ensures OccursAt(key, REPOS, k) {
      assert marker[..|REPOS|] == REPOS;
      assert key[k..k + |REPOS|] == key[k..k + |marker|][..|REPOS|];
    }
  }

  predicate OccursElsewhere(s: string, t: string, pos: nat)
  {
    exists k | 0 <= k <= |s| :: k != pos && OccursAt(s, t, k)
  }

  /** Invalidating `o/n` empties a cache that holds only a response about `o/n-extra`. */
  lemma NamesakeIsDropped(entry: CachedResponse)
    ensures var slot := Slot(RepoKey("GET", "https://api.github.com", "o", "n-extra", ""), entry);
            Apply([slot], 1, Invalidate(Marker("o", "n"))) == []
  {
    var slot := Slot(RepoKey("GET", "https://api.github.com", "o", "n-extra", ""), entry);
    DroppedExactly([slot], 1, slot, "GET", "https://api.github.com", "o", "n", "o", "n-extra", "");
    KeepFacts([slot], Outside(Marker("o", "n")));
  }

  /** Invalidating `x/y` empties a cache that holds only a response about an owner called `repos`. */
  lemma OwnerCalledReposIsDropped(entry: CachedResponse)
    ensures var slot := Slot(RepoKey("GET", "https://api.github.com", "repos", "x", "/y"), entry);
            Apply([slot], 1, Invalidate(Marker("x", "y"))) == []
  {
    var host := "https://api.github.com";
    var slot := Slot(RepoKey("GET", host, "repos", "x", "/y"), entry);
    assert slot.key == (UpperCase("GET") + " " + host + "/repos") + Marker("x", "y");
    assert OccursAt(slot.key, Marker("x", "y"), PathAt("GET", host) + 6);
    DroppedExactly([slot], 1, slot, "GET", host, "x", "y", "repos", "x", "/y");
    KeepFacts([slot], Outside(Marker("x", "y")));
  }

  // ---------------------------------------------------------------------------------------------
  // How long an entry is retained
  // ---------------------------------------------------------------------------------------------

  function KeySet(entries: seq<Slot>): set<string>
  {
    set i | 0 <= i < |entries| :: entries[i].key
  }

  /**
   * Which keys are held after a trace, from the trace alone: a write of the key puts it in, if there is any
   * room; a write of another key leaves it in while fewer keys than there is room for are newer; clearing, and
   * invalidating a path the key contains, take it out.
   */
  predicate Kept(maxEntries: nat, ops: seq<Op>, key: string)
    decreases |ops|, 1
  {
    ops != [] &&
    var before := ops[..|ops| - 1];
    match ops[|ops| - 1]
    case Get(_) => Kept(maxEntries, before, key)
    case Set(k, _) =>
      if k == key then maxEntries > 0
      else Kept(maxEntries, before, key) && |Newer(maxEntries, ops, key)| < maxEntries
    case Invalidate(marker) => Kept(maxEntries, before, key) && !Contains(key, marker)
    case Clear => false
  }

  /** The keys written, or read with a hit, since the key itself was, and not invalidated since. */
  function Newer(maxEntries: nat, ops: seq<Op>, key: string): set<string>
    decreases |ops|, 0
  {
    if ops == [] then {}
    else
      var before := ops[..|ops| - 1];
      match ops[|ops| - 1]
      case Get(k) =>
        if !Kept(maxEntries, before, k) then Newer(maxEntries, before, key)
        else if k == key then {}
        else Newer(maxEntries, before, key) + {k}
      case Set(k, _) => if k == key then {} else Newer(maxEntries, before, key) + {k}
      case Invalidate(marker) => set k | k in Newer(maxEntries, before, key) && !Contains(k, marker)
      case Clear => {}
  }

  lemma {:induction false} DistinctKeysCount(entries: seq<Slot>)
    requires DistinctKeys(entries)
    ensures |KeySet(entries)| == |entries|
  {
    if entries != [] {
      var n := |entries| - 1;
      DistinctKeysCount(entries[..n]);
      assert KeySet(entries) == KeySet(entries[..n]) + {entries[n].key};
    }
  }

  lemma {:induction false} KeepConcat(a: seq<Slot>, b: seq<Slot>, p: Slot -> bool)
    ensures Keep(a + b, p) == Keep(a, p) + Keep(b, p)
  {
    if b == [] {
      assert a + b == a;
    } else {
      KeepConcat(a, b[..|b| - 1], p);
      assert (a + b)[..|a + b| - 1] == a + b[..|b| - 1];
    }
  }

  /** Entry `slot` is held, and exactly the given keys are newer. */
  ghost predicate HeldUnder(entries: seq<Slot>, slot: Slot, newer: set<string>)
  {
    exists n | 0 <= n < |entries| :: entries[n] == slot && KeySet(entries[n + 1..]) == newer
  }

  lemma KeepAround(entries: seq<Slot>, n: nat, p: Slot -> bool)
    requires n < |entries| && p(entries[n])
    ensures Keep(entries, p) == Keep(entries[..n], p) + [entries[n]] + Keep(entries[n + 1..], p)
  {
    assert entries == entries[..n + 1] + entries[n + 1..];
    KeepConcat(entries[..n + 1], entries[n + 1..], p);
    assert entries[..n + 1][..n] == entries[..n];
  }

  lemma WriteOver(entries: seq<Slot>, maxEntries: nat, slot: Slot, newer: set<string>, op: Op)
    requires Sound(entries, maxEntries) && op.Set? && op.key != slot.key && HeldUnder(entries, slot, newer)
    ensures var after := Apply(entries, maxEntries, op);
            if |newer + {op.key}| < maxEntries then HeldUnder(after, slot, newer + {op.key})
            else Find(after, slot.key).None?
  {
    var n :| 0 <= n < |entries| && entries[n] == slot && KeySet(entries[n + 1..]) == newer;
    var p, written := Not(op.key), Slot(op.key, op.entry);
    KeepAround(entries, n, p);
    var below, kept := Keep(entries[..n], p), Keep(entries[n + 1..], p);
    KeepFacts(entries[n + 1..], p);
    KeySetAfterWrite(entries[n + 1..], kept, written);
    UseKeepsDistinct(entries, op.key, op.entry);
    Regroup(below, slot, kept, written);
    WrittenCut(below, slot, kept + [written], maxEntries, newer + {op.key});
  }

  lemma Regroup(below: seq<Slot>, slot: Slot, kept: seq<Slot>, written: Slot)
    ensures below + [slot] + kept + [written] == below + [slot] + (kept + [written])
  {
  }

  lemma KeySetAfterWrite(newer: seq<Slot>, kept: seq<Slot>, written: Slot)
    requires forall s :: s in kept <==> s in newer && s.key != written.key
    ensures KeySet(kept + [written]) == KeySet(newer) + {written.key}
  {
    forall key ensures key in KeySet(kept + [written]) <==> key in KeySet(newer) + {written.key} {
      if key in KeySet(newer) && key != written.key {
        var i :| 0 <= i < |newer| && newer[i].key == key;
        assert newer[i] in kept;
        var j :| 0 <= j < |kept| && kept[j] == newer[i];
        assert (kept + [written])[j].key == key;
      }
      if key in KeySet(kept + [written]) && key != written.key {
        var j :| 0 <= j < |kept + [written]| && (kept + [written])[j].key == key;
        assert kept[j] in newer;
      }
      assert (kept + [written])[|kept|].key == written.key;
    }
  }

  lemma WrittenCut(below: seq<Slot>, slot: Slot, above: seq<Slot>, maxEntries: nat, newer: set<string>)
    requires DistinctKeys(below + [slot] + above) && KeySet(above) == newer
    ensures var after := Newest(below + [slot] + above, maxEntries);
            if |newer| < maxEntries then HeldUnder(after, slot, newer) else Find(after, slot.key).None?
  {
    var grown := below + [slot] + above;
    AboveDistinct(below, slot, above);
    DistinctKeysCount(above);
    if |above| < maxEntries {
      CutBelow(below, slot, above, maxEntries);
    } else {
      CutAbove(below, slot, above, maxEntries);
    }
  }

  lemma AboveDistinct(below: seq<Slot>, slot: Slot, above: seq<Slot>)
    requires DistinctKeys(below + [slot] + above)
    ensures DistinctKeys(above) && forall i | 0 <= i < |above| :: above[i].key != slot.key
  {
    var grown := below + [slot] + above;
    forall i | 0 <= i < |above| ensures above[i] == grown[|below| + 1 + i] && above[i].key != slot.key {
      assert grown[|below|] == slot;
    }
  }

  lemma CutBelow(below: seq<Slot>, slot: Slot, above: seq<Slot>, maxEntries: nat)
    requires |above| < maxEntries
    ensures HeldUnder(Newest(below + [slot] + above, maxEntries), slot, KeySet(above))
  {
    var after := Newest(below + [slot] + above, maxEntries);
    var n := |after| - |above| - 1;
    assert after[n] == slot && after[n + 1..] == above;
  }

  lemma CutAbove(below: seq<Slot>, slot: Slot, above: seq<Slot>, maxEntries: nat)
    requires |above| >= maxEntries && DistinctKeys(above) && forall i | 0 <= i < |above| :: above[i].key != slot.key
    ensures Find(Newest(below + [slot] + above, maxEntries), slot.key).None?
  {
    var after := Newest(below + [slot] + above, maxEntries);
    assert after == above[|above| - maxEntries..];
    FindFacts(after, slot.key);
  }

  /** The cache holds the key exactly when the trace says so, with exactly the keys it names newer. */
  ghost predicate Retained(maxEntries: nat, ops: seq<Op>, key: string)
  {
    var entries := Run(maxEntries, ops);
    match Find(entries, key)
    case Some(e) => Kept(maxEntries, ops, key) && HeldUnder(entries, Slot(key, e), Newer(maxEntries, ops, key))
    case None => !Kept(maxEntries, ops, key)
  }

  lemma HeldIsFound(entries: seq<Slot>, slot: Slot, newer: set<string>)
    requires DistinctKeys(entries) && HeldUnder(entries, slot, newer)
    ensures Find(entries, slot.key) == Some(slot.entry)
  {
    FindFacts(entries, slot.key);
  }

  lemma UsedIsNewest(entries: seq<Slot>, slot: Slot)
    ensures HeldUnder(Keep(entries, Not(slot.key)) + [slot], slot, {})
  {
    var used := Keep(entries, Not(slot.key)) + [slot];
    assert used[|used| - 1] == slot && KeySet(used[|used|..]) == {};
  }

  /** A read of another entry that hits, like a write, puts its key above this one. */
  lemma ReadOver(entries: seq<Slot>, slot: Slot, newer: set<string>, read: Slot)
    requires read.key != slot.key && HeldUnder(entries, slot, newer)
    ensures HeldUnder(Keep(entries, Not(read.key)) + [read], slot, newer + {read.key})
  {
    var n :| 0 <= n < |entries| && entries[n] == slot && KeySet(entries[n + 1..]) == newer;
    var p := Not(read.key);
    KeepAround(entries, n, p);
    var below, kept := Keep(entries[..n], p), Keep(entries[n + 1..], p);
    KeepFacts(entries[n + 1..], p);
    KeySetAfterWrite(entries[n + 1..], kept, read);
    Regroup(below, slot, kept, read);
    HeldBetween(below, slot, kept + [read]);
  }

  lemma HeldBetween(below: seq<Slot>, slot: Slot, above: seq<Slot>)
    ensures HeldUnder(below + [slot] + above, slot, KeySet(above))
  {
    var entries := below + [slot] + above;
    assert entries[|below|] == slot && entries[|below| + 1..] == above;
  }

  lemma DropOver(entries: seq<Slot>, slot: Slot, newer: set<string>, marker: string)
    requires !Contains(slot.key, marker) && HeldUnder(entries, slot, newer)
    ensures HeldUnder(Keep(entries, Outside(marker)), slot, set k | k in newer && !Contains(k, marker))
  {
    var n :| 0 <= n < |entries| && entries[n] == slot && KeySet(entries[n + 1..]) == newer;
    var p := Outside(marker);
    KeepAround(entries, n, p);
    var below, kept := Keep(entries[..n], p), Keep(entries[n + 1..], p);
    KeySetAfterDrop(entries[n + 1..], marker);
    HeldBetween(below, slot, kept);
  }

  lemma KeySetAfterDrop(entries: seq<Slot>, marker: string)
    ensures KeySet(Keep(entries, Outside(marker))) == set k | k in KeySet(entries) && !Contains(k, marker)
  {
    var kept := Keep(entries, Outside(marker));
    KeepFacts(entries, Outside(marker));
    forall i | 0 <= i < |kept| ensures kept[i].key in KeySet(entries) && !Contains(kept[i].key, marker) {
      assert kept[i] in entries;
    }
    forall i | 0 <= i < |entries| && !Contains(entries[i].key, marker) ensures entries[i].key in KeySet(kept) {
      assert entries[i] in kept;
    }
  }

  lemma RetainedAfterSet(maxEntries: nat, ops: seq<Op>, key: string)
    requires ops != [] && ops[|ops| - 1].Set? && Retained(maxEntries, ops[..|ops| - 1], key)
    ensures Retained(maxEntries, ops, key)
  {
    var before, op := ops[..|ops| - 1], ops[|ops| - 1];
    var entries := Run(maxEntries, before);
    AlwaysSound(maxEntries, before);
    AlwaysSound(maxEntries, ops);
    if op.key == key {
      UseKeepsDistinct(entries, key, op.entry);
      WrittenNewest(Keep(entries, Not(key)), Slot(key, op.entry), maxEntries);
      if maxEntries > 0 {
        HeldIsFound(Run(maxEntries, ops), Slot(key, op.entry), {});
      }
    } else if Find(entries, key).Some? {
      var slot := Slot(key, Find(entries, key).value);
      WriteOver(entries, maxEntries, slot, Newer(maxEntries, before, key), op);
      if |Newer(maxEntries, ops, key)| < maxEntries {
        HeldIsFound(Run(maxEntries, ops), slot, Newer(maxEntries, ops, key));
      }
    } else {
      FindAfter(entries, maxEntries, op, key);
    }
  }

  lemma WrittenNewest(kept: seq<Slot>, slot: Slot, maxEntries: nat)
    requires DistinctKeys(kept + [slot])
    ensures var after := Newest(kept + [slot], maxEntries);
            if 0 < maxEntries then HeldUnder(after, slot, {}) else Find(after, slot.key).None?
  {
    assert kept + [slot] == kept + [slot] + [] && KeySet([]) == {};
    WrittenCut(kept, slot, [], maxEntries, {});
  }

  lemma RetainedAfterGet(maxEntries: nat, ops: seq<Op>, key: string)
    requires ops != [] && ops[|ops| - 1].Get?
    requires Retained(maxEntries, ops[..|ops| - 1], key) && Retained(maxEntries, ops[..|ops| - 1], ops[|ops| - 1].key)
    ensures Retained(maxEntries, ops, key)
  {
    var before, op := ops[..|ops| - 1], ops[|ops| - 1];
    var entries := Run(maxEntries, before);
    AlwaysSound(maxEntries, before);
    AlwaysSound(maxEntries, ops);
    FindAfter(entries, maxEntries, op, key);
    if Find(entries, op.key).Some? && Find(entries, key).Some? {
      var read, slot := Slot(op.key, Find(entries, op.key).value), Slot(key, Find(entries, key).value);
      if op.key == key {
        UsedIsNewest(entries, slot);
      } else {
        ReadOver(entries, slot, Newer(maxEntries, before, key), read);
      }
    }
  }

  lemma RetainedAfterInvalidate(maxEntries: nat, ops: seq<Op>, key: string)
    requires ops != [] && ops[|ops| - 1].Invalidate? && Retained(maxEntries, ops[..|ops| - 1], key)
    ensures Retained(maxEntries, ops, key)
  {
    var before, op := ops[..|ops| - 1], ops[|ops| - 1];
    var entries := Run(maxEntries, before);
    AlwaysSound(maxEntries, before);
    FindAfter(entries, maxEntries, op, key);
    if Find(entries, key).Some? && !Contains(key, op.marker) {
      DropOver(entries, Slot(key, Find(entries, key).value), Newer(maxEntries, before, key), op.marker);
    }
  }

  lemma {:induction false} AlwaysRetained(maxEntries: nat, ops: seq<Op>, key: string)
    ensures Retained(maxEntries, ops, key)
    decreases |ops|
  {
    if ops != [] {
      var before, op := ops[..|ops| - 1], ops[|ops| - 1];
      AlwaysRetained(maxEntries, before, key);
      match op {
        case Set(_, _) => RetainedAfterSet(maxEntries, ops, key);
        case Get(k) =>
          AlwaysRetained(maxEntries, before, k);
          RetainedAfterGet(maxEntries, ops, key);
        case Invalidate(_) => RetainedAfterInvalidate(maxEntries, ops, key);
        case Clear =>
      }
    }
  }

  /** After any trace of reads, writes, invalidations and clears, the cache holds exactly the keys kept. */
  lemma HeldExactly(maxEntries: nat, ops: seq<Op>, key: string)
    ensures Find(Run(maxEntries, ops), key).Some? <==> Kept(maxEntries, ops, key)
  {
    AlwaysRetained(maxEntries, ops, key);
  }

  /** Beside a held key there is always room for the newer ones. */
  lemma NewerFit(maxEntries: nat, ops: seq<Op>, key: string)
    requires Kept(maxEntries, ops, key)
    ensures |Newer(maxEntries, ops, key)| < maxEntries
  {
    AlwaysRetained(maxEntries, ops, key);
    AlwaysSound(maxEntries, ops);
    var entries, newer := Run(maxEntries, ops), Newer(maxEntries, ops, key);
    var n :| 0 <= n < |entries| && KeySet(entries[n + 1..]) == newer;
    DistinctKeysCount(entries[n + 1..]);
  }

  /** The operation takes the key out whatever room there is. */
  predicate TakesOut(op: Op, key: string)
  {
    op.Clear? || (op.Invalidate? && Contains(key, op.marker))
  }

  /** After `n` of these operations there is room for the key beside the newer ones, and the next leaves it in. */
  ghost predicate RoomAt(maxEntries: nat, first: seq<Op>, since: seq<Op>, key: string, n: nat)
    requires n <= |since|
  {
    |Newer(maxEntries, first + since[..n], key)| < maxEntries && (n < |since| ==> !TakesOut(since[n], key))
  }

  ghost predicate AlwaysRoom(maxEntries: nat, first: seq<Op>, since: seq<Op>, key: string)
  {
    forall n | 0 <= n <= |since| :: RoomAt(maxEntries, first, since, key, n)
  }

  ghost predicate NotWritten(ops: seq<Op>, key: string)
  {
    forall i | 0 <= i < |ops| && ops[i].Set? :: ops[i].key != key
  }

  lemma LastApart(first: seq<Op>, since: seq<Op>)
    requires since != []
    ensures var ops := first + since;
            ops != [] && ops[..|ops| - 1] == first + since[..|since| - 1] && ops[|ops| - 1] == since[|since| - 1]
  {
  }

  lemma {:induction false} KeptExactlyWhileRoom(maxEntries: nat, first: seq<Op>, since: seq<Op>, key: string)
    requires NotWritten(since, key)
    requires Kept(maxEntries, first, key) <==> |Newer(maxEntries, first, key)| < maxEntries
    ensures Kept(maxEntries, first + since, key) <==> AlwaysRoom(maxEntries, first, since, key)
  {
    if since == [] {
      assert first + since == first && first + since[..0] == first;
      assert AlwaysRoom(maxEntries, first, since, key) <==> RoomAt(maxEntries, first, since, key, 0);
    } else {
      var last := |since| - 1;
      KeptExactlyWhileRoom(maxEntries, first, since[..last], key);
      LastApart(first, since);
      assert since[..|since|] == since;
      KeptOneMore(maxEntries, first + since, key);
      RoomOneMore(maxEntries, first, since, key);
    }
  }

  /** One more operation keeps a kept key exactly if it does not take it out and leaves it room. */
  lemma KeptOneMore(maxEntries: nat, ops: seq<Op>, key: string)
    requires ops != [] && (ops[|ops| - 1].Set? ==> ops[|ops| - 1].key != key)
    ensures Kept(maxEntries, ops, key)
            <==> Kept(maxEntries, ops[..|ops| - 1], key) && !TakesOut(ops[|ops| - 1], key) && |Newer(maxEntries, ops, key)| < maxEntries
  {
    if Kept(maxEntries, ops, key) {
      NewerFit(maxEntries, ops, key);
    }
  }

  lemma RoomOneMore(maxEntries: nat, first: seq<Op>, since: seq<Op>, key: string)
    requires since != []
    ensures AlwaysRoom(maxEntries, first, since, key)
            <==> AlwaysRoom(maxEntries, first, since[..|since| - 1], key)
                 && !TakesOut(since[|since| - 1], key) && |Newer(maxEntries, first + since, key)| < maxEntries
  {
    var last := |since| - 1;
    assert since[..|since|] == since;
    forall n | 0 <= n < |since|
      ensures RoomAt(maxEntries, first, since, key, n)
              <==> RoomAt(maxEntries, first, since[..last], key, n) && (n == last ==> !TakesOut(since[last], key))
    {
      assert since[..last][..n] == since[..n];
    }
    assert RoomAt(maxEntries, first, since, key, |since|) <==> |Newer(maxEntries, first + since, key)| < maxEntries;
    if AlwaysRoom(maxEntries, first, since, key) {
      assert RoomAt(maxEntries, first, since, key, last);
      forall n | 0 <= n <= last ensures RoomAt(maxEntries, first, since[..last], key, n) {
        assert RoomAt(maxEntries, first, since, key, n);
      }
    }
  }

  /**
   * How long an entry survives after it was written: until the key is written again, it is held if and only if
   * at every moment since fewer keys than the cache has room for were newer, and nothing took it out.
   */
  lemma RetainedExactly(maxEntries: nat, ops: seq<Op>, key: string, entry: CachedResponse, since: seq<Op>)
    requires NotWritten(since, key)
    ensures var first := ops + [Set(key, entry)];
            Find(Run(maxEntries, first + since), key).Some?
            <==> AlwaysRoom(maxEntries, first, since, key)
  {
    var first := ops + [Set(key, entry)];
    HeldExactly(maxEntries, first + since, key);
    KeptExactlyWhileRoom(maxEntries, first, since, key);
  }

  ghost predicate UsesOthers(ops: seq<Op>, key: string)
  {
    forall i | 0 <= i < |ops| :: (ops[i].Set? || ops[i].Get?) && ops[i].key != key
  }

  /** The count at the end decides whether the key is held. */
  predicate CountDecides(maxEntries: nat, ops: seq<Op>, key: string)
  {
    Kept(maxEntries, ops, key) <==> |Newer(maxEntries, ops, key)| < maxEntries
  }

  lemma CountStillDecides(maxEntries: nat, before: seq<Op>, op: Op, key: string)
    requires CountDecides(maxEntries, before, key) && (op.Set? || op.Get?) && op.key != key
    ensures CountDecides(maxEntries, before + [op], key)
  {
    var ops := before + [op];
    assert ops[..|ops| - 1] == before;
    KeptOneMore(maxEntries, ops, key);
    var newer, newer' := Newer(maxEntries, before, key), Newer(maxEntries, ops, key);
    assert newer' == newer + (newer' - newer);
  }

  lemma {:induction false} CountDecidesSince(maxEntries: nat, first: seq<Op>, since: seq<Op>, key: string)
    requires UsesOthers(since, key) && CountDecides(maxEntries, first, key)
    ensures CountDecides(maxEntries, first + since, key)
  {
    if since == [] {
      assert first + since == first;
    } else {
      var last := |since| - 1;
      CountDecidesSince(maxEntries, first, since[..last], key);
      CountStillDecides(maxEntries, first + since[..last], since[last], key);
      assert first + since == first + since[..last] + [since[last]];
    }
  }

  /** Among reads and writes of other keys the newer keys only accumulate, so their count at the end decides. */
  lemma RetainedByCount(maxEntries: nat, ops: seq<Op>, key: string, entry: CachedResponse, since: seq<Op>)
    requires UsesOthers(since, key)
    ensures var trace := ops + [Set(key, entry)] + since;
            Find(Run(maxEntries, trace), key).Some? <==> |Newer(maxEntries, trace, key)| < maxEntries
  {
    HeldExactly(maxEntries, ops + [Set(key, entry)] + since, key);
    CountDecidesSince(maxEntries, ops + [Set(key, entry)], since, key);
  }

  /**
   * Room that an invalidation frees brings nothing back, so with invalidations the count at the end is not
   * enough: a live key stays out with nothing live used since.
   */
  lemma FreedRoomStaysEmpty(a: CachedResponse, b: CachedResponse)
    ensures var ops := [Set("a", a), Set("b", b), Invalidate("b")];
            LastSet(ops, "a") == Some(a) && LastSet(ops, "b").None? && Run(1, ops) == []
  {
    var one, two := [Set("a", a)], [Set("a", a), Set("b", b)];
    var ops := [Set("a", a), Set("b", b), Invalidate("b")];
    assert one[..0] == [] && two[..1] == one && ops[..2] == two;
    OnlyInItself();
    assert Run(1, one) == [Slot("a", a)] && LastSet(one, "a") == Some(a);
    assert Run(1, two) == [Slot("b", b)] && LastSet(two, "a") == Some(a);
    KeepFacts(Run(1, two), Outside("b"));
    assert Run(1, ops) == Keep(Run(1, two), Outside("b"));
  }

  lemma OnlyInItself()
    ensures Contains("b", "b") && !Contains("a", "b")
  {
    assert OccursAt("b", "b", 0);
    forall k | 0 <= k <= |"a"| ensures !OccursAt("a", "b", k) {
      if k == 0 {
        assert "a"[0..1] == "a";
      }
    }
  }
}
