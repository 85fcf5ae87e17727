/**
 * Conditional requests and pagination through the cache (`github-http.service.ts`): a client that revalidates
 * answers exactly what one without a cache would, over any server that honours RFC 9110, sections 13.1.2 and
 * 15.4.5.
 */
module GitHubClient {
  import opened Base
  import opened EtagCache

  /** What the server would say about a resource at one moment. */
  datatype Reply =
    | Unreachable
    | Rejected(status: nat)
    | Page(etag: Option<string>, body: string, link: Option<string>)

  /** The server over time: its reply at each attempt, for each method and URL. It may change at any attempt. */
  type Server = (nat, string) -> Reply

  /** What goes over the wire; `NotModified` has no body. */
  datatype Response = Failed | Refusal(status: nat) | NotModified | Fresh(etag: Option<string>, body: string, link: Option<string>)

  /** 304 exactly when the condition names the current entity tag. */
  function Respond(reply: Reply, ifNoneMatch: Option<string>): Response
  {
    match reply
    case Unreachable => Failed
    case Rejected(status) => Refusal(status)
    case Page(etag, body, link) =>
      if etag.Some? && ifNoneMatch == etag then NotModified else Fresh(etag, body, link)
  }

  /** An entity tag of a resource fixes its body and its link, whenever it is served. */
  ghost predicate TagsFixContent(server: Server)
  {
    forall key, etag, body, link, body', link' ::
      Serves(server, key, CachedResponse(etag, body, link)) && Serves(server, key, CachedResponse(etag, body', link'))
      ==> body == body' && link == link'
  }

  ghost predicate Serves(server: Server, key: string, entry: CachedResponse)
  {
    exists t: nat :: server(t, key) == Page(Some(entry.etag), entry.body, entry.link)
  }

  /** Everything cached was once served. */
  ghost predicate Authentic(server: Server, entries: seq<Slot>)
  {
    forall s | s in entries :: Serves(server, s.key, s.entry)
  }

  datatype Answer = Answer(data: string, link: Option<string>, etag: Option<string>)

  datatype Outcome<+T> = Ok(value: T) | NoCredential | TransientFailure | Refused(status: nat)

  // ---------------------------------------------------------------------------------------------
  // The client without a cache
  // ---------------------------------------------------------------------------------------------

  /** One request: the first reply that is not a transient failure, within the retries; and the next attempt's number. */
  function Uncached(server: Server, t: nat, key: string, retries: nat): (Outcome<Answer>, nat)
    decreases retries
  {
    match server(t, key)
    case Unreachable => if retries == 0 then (TransientFailure, t + 1) else Uncached(server, t + 1, key, retries - 1)
    case Rejected(status) => (Refused(status), t + 1)
    case Page(etag, body, link) => (Ok(Answer(body, link, etag)), t + 1)
  }

  datatype Listing = Listing(items: seq<string>, pages: nat, truncated: bool)

  /** How a list endpoint is read: what a page holds, and where its `Link` header points next. */
  datatype Reader = Reader(extract: string -> seq<string>, next: Option<string> -> Option<string>)

  /** All pages from `url` on, at most `left` of them. */
  function Pages(server: Server, reader: Reader, retries: nat, t: nat, url: Option<string>, left: nat): (Outcome<Listing>, nat)
    decreases left
  {
    if url.None? then (Ok(Listing([], 0, false)), t)
    else if left == 0 then (Ok(Listing([], 0, true)), t)
    else
      var (first, t') := Uncached(server, t, KeyFor("GET", url.value), retries);
      match first
      case Ok(a) =>
        (var (rest, t'') := Pages(server, reader, retries, t', reader.next(a.link), left - 1);
         (match rest
          case Ok(l) => (Ok(Listing(reader.extract(a.data) + l.items, l.pages + 1, l.truncated)), t'')
          case failed => (failed, t'')))
      case NoCredential => (NoCredential, t')
      case TransientFailure => (TransientFailure, t')
      case Refused(status) => (Refused(status), t')
  }

  /** Pages already read, put before the rest. */
  function Prepend(items: seq<string>, pages: nat, rest: (Outcome<Listing>, nat)): (Outcome<Listing>, nat)
  {
    match rest.0
    case Ok(l) => (Ok(Listing(items + l.items, pages + l.pages, l.truncated)), rest.1)
    case _ => rest
  }

  // ---------------------------------------------------------------------------------------------
  // The client with one
  // ---------------------------------------------------------------------------------------------

  /** Other requests share the cache: what they store was served too. */
  ghost predicate Honest(server: Server, ops: seq<Op>)
  {
    forall i | 0 <= i < |ops| && ops[i].Set? :: Serves(server, ops[i].key, ops[i].entry)
  }

  lemma ApplyKeepsAuthentic(server: Server, entries: seq<Slot>, maxEntries: nat, op: Op)
    requires Sound(entries, maxEntries) && Authentic(server, entries)
    requires op.Set? ==> Serves(server, op.key, op.entry)
    ensures Authentic(server, Apply(entries, maxEntries, op))
  {
    match op {
      case Get(key) =>
        KeepFacts(entries, Not(key));
        FindFacts(entries, key);
      case Set(key, entry) =>
        KeepFacts(entries, Not(key));
        var grown := Keep(entries, Not(key)) + [Slot(key, entry)];
        assert forall s | s in Newest(grown, maxEntries) :: s in grown;
      case Invalidate(_) =>
        KeepFacts(entries, Outside(op.marker));
      case Clear =>
    }
  }

  /** A cached response that the server confirms is the response the server would have sent. */
  lemma ConfirmedIsCurrent(server: Server, t: nat, key: string, entry: CachedResponse)
    requires TagsFixContent(server) && Serves(server, key, entry)
    requires Respond(server(t, key), Some(entry.etag)).NotModified?
    ensures server(t, key) == Page(Some(entry.etag), entry.body, entry.link)
  {
    var current := server(t, key);
    assert Serves(server, key, CachedResponse(entry.etag, current.body, current.link));
  }

  /** Nothing else uses the cache meanwhile. */
  ghost predicate Undisturbed(others: nat -> seq<Op>)
  {
    forall n :: others(n) == []
  }

  /** A page with a tag is in the cache, if the cache holds anything at all. */
  ghost predicate InCache(cache: EtagCacheService, key: string, a: Answer, fromCache: bool)
    reads cache
  {
    cache.maxEntries > 0 && a.etag.Some? && (a.etag.value != "" || fromCache) ==>
      Find(cache.entries, key) == Some(CachedResponse(a.etag.value, a.data, a.link))
  }

  class GitHubHttpService {
    const server: Server
    const cache: EtagCacheService
    const maxRetries: nat
    var configured: bool
    /** How many attempts have been made. */
    var clock: nat

    ghost predicate Valid()
      reads this, cache
    {
      cache.Valid() && Authentic(server, cache.entries)
    }

    constructor (server: Server, maxEntries: nat, maxRetries: nat, configured: bool)
      ensures Valid() && fresh(cache) && this.server == server && this.maxRetries == maxRetries
      ensures this.configured == configured && clock == 0 && cache.maxEntries == maxEntries && cache.entries == []
    {
      this.server := server;
      this.maxRetries := maxRetries;
      this.configured := configured;
      cache := new EtagCacheService(maxEntries);
      clock := 0;
    }

    /** Other requests use the cache while this one waits. */
    method Meanwhile(ops: seq<Op>)
      requires Valid() && Honest(server, ops)
      modifies cache
      ensures Valid() && (ops == [] ==> cache.entries == old(cache.entries))
    {
      for i := 0 to |ops|
        invariant Valid() && (ops == [] ==> cache.entries == old(cache.entries))
      {
        ApplyKeepsSound(cache.entries, cache.maxEntries, ops[i]);
        ApplyKeepsAuthentic(server, cache.entries, cache.maxEntries, ops[i]);
        cache.entries := Apply(cache.entries, cache.maxEntries, ops[i]);
      }
    }

    /**
     * `request`. Whatever is cached, evicted or invalidated, and whoever else uses the cache between attempts,
     * the answer, the failure and the number of attempts are those of a client with no cache. It is answered from
     * the cache exactly when the entry found at the start has the tag of the page served; and a tagged page it
     * returns is in the cache afterwards, if nothing else used the cache meanwhile.
     */
    method Request(verb: string, url: string, conditional: bool, others: nat -> seq<Op>)
      returns (r: Outcome<Answer>, fromCache: bool)
      requires Valid() && TagsFixContent(server) && forall n :: Honest(server, others(n))
      modifies this`clock, cache
      ensures Valid()
      ensures !configured ==> r.NoCredential? && clock == old(clock) && cache.entries == old(cache.entries)
      ensures configured ==> (r, clock) == Uncached(server, old(clock), KeyFor(verb, url), maxRetries)
      ensures fromCache ==>
                && conditional && r.Ok? && r.value.etag.Some?
                && Find(old(cache.entries), KeyFor(verb, url)) == Some(CachedResponse(r.value.etag.value, r.value.data, r.value.link))
      ensures fromCache <==>
                && configured && conditional && r.Ok? && Find(old(cache.entries), KeyFor(verb, url)).Some?
                && r.value.etag == Some(Find(old(cache.entries), KeyFor(verb, url)).value.etag)
      ensures configured && conditional && Undisturbed(others) && r.Ok? ==> InCache(cache, KeyFor(verb, url), r.value, fromCache)
    {
      if !configured {
        return NoCredential, false;
      }
      var key := KeyFor(verb, url);
      var cached: Option<CachedResponse> := None;
      if conditional {
        ApplyKeepsAuthentic(server, cache.entries, cache.maxEntries, Get(key));
        FindFacts(cache.entries, key);
        cached := cache.Fetch(key);
      }
      r, fromCache := TryUntilAnswered(key, conditional, cached, others);
    }

    /** The attempts of one request, until one is answered or the retries are used up. */
    method TryUntilAnswered(key: string, conditional: bool, cached: Option<CachedResponse>, others: nat -> seq<Op>)
      returns (r: Outcome<Answer>, fromCache: bool)
      requires Valid() && TagsFixContent(server) && forall n :: Honest(server, others(n))
      requires cached.Some? ==> conditional && Serves(server, key, cached.value)
      modifies this`clock, cache
      ensures Valid() && (r, clock) == Uncached(server, old(clock), key, maxRetries)
      ensures fromCache ==> cached.Some? && r == Ok(Answer(cached.value.body, cached.value.link, Some(cached.value.etag)))
      ensures fromCache <==> r.Ok? && cached.Some? && r.value.etag == Some(cached.value.etag)
      ensures conditional && cached == Find(old(cache.entries), key) && Undisturbed(others) && r.Ok? ==> InCache(cache, key, r.value, fromCache)
    {
      fromCache := false;
      var attempt := 0;
      while attempt <= maxRetries
        invariant attempt <= maxRetries + 1 && Valid()
        invariant attempt <= maxRetries ==> Uncached(server, clock, key, maxRetries - attempt) == Uncached(server, old(clock), key, maxRetries)
        invariant attempt > maxRetries ==> Uncached(server, old(clock), key, maxRetries) == (TransientFailure, clock)
        invariant Undisturbed(others) ==> cache.entries == old(cache.entries)
      {
        Meanwhile(others(attempt));
        var done;
        done, r, fromCache := Attempt(key, conditional, cached);
        if done {
          return;
        }
        attempt := attempt + 1;
      }
      return TransientFailure, false;
    }

    /** One attempt: a confirmed entry is returned as it is, a fresh page with a tag is stored, an error stands. */
    method Attempt(key: string, conditional: bool, cached: Option<CachedResponse>)
      returns (done: bool, r: Outcome<Answer>, fromCache: bool)
      requires Valid() && TagsFixContent(server) && (cached.Some? ==> conditional && Serves(server, key, cached.value))
      modifies this`clock, cache
      ensures Valid() && clock == old(clock) + 1
      ensures done <==> !server(old(clock), key).Unreachable?
      ensures done ==> Uncached(server, old(clock), key, 0) == (r, clock)
      ensures fromCache ==> cached.Some? && done && r == Ok(Answer(cached.value.body, cached.value.link, Some(cached.value.etag)))
      ensures fromCache <==> done && r.Ok? && cached.Some? && r.value.etag == Some(cached.value.etag)
      ensures cache.entries ==
                if conditional && done && !fromCache && r.Ok? && r.value.etag.Some? && r.value.etag.value != ""
                then Apply(old(cache.entries), cache.maxEntries, Set(key, CachedResponse(r.value.etag.value, r.value.data, r.value.link)))
                else old(cache.entries)
      ensures conditional && cached == Find(old(cache.entries), key) && r.Ok? ==> InCache(cache, key, r.value, fromCache)
    {
      var reply := server(clock, key);
      var ifNoneMatch := if cached.Some? then Some(cached.value.etag) else None;
      var response := Respond(reply, ifNoneMatch);
      if response.NotModified? {
        ConfirmedIsCurrent(server, clock, key, cached.value);
      }
      clock := clock + 1;
      match response {
        case Failed =>
          done, r, fromCache := false, TransientFailure, false;
        case Refusal(status) =>
          done, r, fromCache := true, Refused(status), false;
        case NotModified =>
          done, r, fromCache := true, Ok(Answer(cached.value.body, cached.value.link, Some(cached.value.etag))), true;
        case Fresh(etag, body, link) =>
          if etag.Some? && etag.value != "" && conditional {
            assert Serves(server, key, CachedResponse(etag.value, body, link));
            ApplyKeepsAuthentic(server, cache.entries, cache.maxEntries, Set(key, CachedResponse(etag.value, body, link)));
            cache.Store(key, CachedResponse(etag.value, body, link));
          }
          done, r, fromCache := true, Ok(Answer(body, link, etag)), false;
      }
    }

    /**
     * `paginate`: the items, the page count and the truncated flag, or the error, of a client with no cache; and
     * the error of its first request, before any attempt, without a credential.
     */
    method Paginate(start: string, reader: Reader, maxPages: nat, others: nat -> seq<Op>) returns (r: Outcome<Listing>)
      requires Valid() && TagsFixContent(server) && forall n :: Honest(server, others(n))
      modifies this`clock, cache
      ensures Valid()
      ensures configured ==> (r, clock) == Pages(server, reader, maxRetries, old(clock), Some(start), maxPages)
      ensures configured ==>
                exists visits :: Concludes(server, reader, maxRetries, old(clock), Some(start), maxPages, visits, r, clock)
      ensures !configured ==>
                && clock == old(clock) && cache.entries == old(cache.entries)
                && r == if maxPages == 0 then Ok(Listing([], 0, true)) else NoCredential
    {
      ghost var walk := WalkOf(server, reader, maxRetries, clock, Some(start), maxPages);
      r := ReadPages(start, reader, maxPages, others);
    }

    /** The pages of a listing, one request after another. */
    method ReadPages(start: string, reader: Reader, maxPages: nat, others: nat -> seq<Op>) returns (r: Outcome<Listing>)
      requires Valid() && TagsFixContent(server) && forall n :: Honest(server, others(n))
      modifies this`clock, cache
      ensures Valid()
      ensures configured ==> (r, clock) == Pages(server, reader, maxRetries, old(clock), Some(start), maxPages)
      ensures !configured ==>
                && clock == old(clock) && cache.entries == old(cache.entries)
                && r == if maxPages == 0 then Ok(Listing([], 0, true)) else NoCredential
    {
      var items: seq<string> := [];
      var next := Some(start);
      var pages := 0;
      PrependNothing(Pages(server, reader, maxRetries, clock, next, maxPages));
      while next.Some? && pages < maxPages
        invariant Valid() && pages <= maxPages
        invariant !configured ==> pages == 0 && items == [] && next == Some(start)
        invariant !configured ==> clock == old(clock) && cache.entries == old(cache.entries)
        invariant configured ==>
                    Prepend(items, pages, Pages(server, reader, maxRetries, clock, next, maxPages - pages))
                    == Pages(server, reader, maxRetries, old(clock), Some(start), maxPages)
        decreases maxPages - pages
      {
        var response, fromCache := Request("GET", next.value, true, others);
        if !response.Ok? {
          r := match response case TransientFailure => TransientFailure case Refused(status) => Refused(status) case _ => NoCredential;
          return;
        }
        var page := reader.extract(response.value.data);
        PrependTwice(items, pages, page, Pages(server, reader, maxRetries, clock, reader.next(response.value.link), maxPages - pages - 1));
        pages := pages + 1;
        items := items + page;
        next := reader.next(response.value.link);
      }
      assert items + [] == items;
      r := Ok(Listing(items, pages, next.Some?));
    }
  }

  lemma PrependNothing(rest: (Outcome<Listing>, nat))
    ensures Prepend([], 0, rest) == rest
  {
    if rest.0.Ok? {
      assert [] + rest.0.value.items == rest.0.value.items;
    }
  }

  lemma PrependTwice(items: seq<string>, pages: nat, page: seq<string>, rest: (Outcome<Listing>, nat))
    ensures Prepend(items, pages, Prepend(page, 1, rest)) == Prepend(items + page, pages + 1, rest)
  {
    if rest.0.Ok? {
      assert items + (page + rest.0.value.items) == items + page + rest.0.value.items;
    }
  }

  // ---------------------------------------------------------------------------------------------
  // What the client promises
  // ---------------------------------------------------------------------------------------------

  lemma {:induction false} RequestStops(server: Server, t: nat, key: string, retries: nat)
    ensures t < Uncached(server, t, key, retries).1 <= t + retries + 1
    decreases retries
  {
    if server(t, key).Unreachable? && retries > 0 {
      RequestStops(server, t + 1, key, retries - 1);
    }
  }

  /** No attempt in `[from, to)` reached the server. */
  ghost predicate AllUnreachable(server: Server, key: string, from: nat, to: nat)
  {
    forall u: nat | from <= u < to :: server(u, key).Unreachable?
  }

  /**
   * What a request with no cache returns: every attempt but the last was unreachable, and the last decides. A
   * page is returned as it was served, a rejection stands at once, and the retries run out only when all fail.
   */
  lemma {:induction false} UncachedExactly(server: Server, t: nat, key: string, retries: nat)
    ensures var (r, t') := Uncached(server, t, key, retries);
            && t < t' <= t + retries + 1 && AllUnreachable(server, key, t, t' - 1)
            && match r
               case Ok(a) => server(t' - 1, key) == Page(a.etag, a.data, a.link)
               case Refused(status) => server(t' - 1, key) == Rejected(status)
               case TransientFailure => t' == t + retries + 1 && server(t' - 1, key).Unreachable?
               case NoCredential => false
    decreases retries
  {
    if server(t, key).Unreachable? && retries > 0 {
      UncachedExactly(server, t + 1, key, retries - 1);
    }
  }

  /** A page of a listing: the attempt that read it, its URL, and what it answered. */
  datatype Visit = Visit(t: nat, url: string, answer: Answer)

  /** Pages read one after another, each at the first attempt on it that reached the server, from attempt `t` on. */
  ghost predicate Walk(server: Server, reader: Reader, retries: nat, t: nat, url: Option<string>, visits: seq<Visit>)
    decreases |visits|
  {
    visits != [] ==>
      var v := visits[0];
      && url == Some(v.url)
      && t <= v.t <= t + retries && AllUnreachable(server, KeyFor("GET", v.url), t, v.t)
      && server(v.t, KeyFor("GET", v.url)) == Page(v.answer.etag, v.answer.data, v.answer.link)
      && Walk(server, reader, retries, v.t + 1, reader.next(v.answer.link), visits[1..])
  }

  /** What the pages hold, in the order they were read. */
  function Gathered(reader: Reader, visits: seq<Visit>): seq<string>
  {
    if visits == [] then [] else reader.extract(visits[0].answer.data) + Gathered(reader, visits[1..])
  }

  /** Where the last page's link points; where the walk started, if no page was read. */
  function Onward(reader: Reader, url: Option<string>, visits: seq<Visit>): Option<string>
  {
    if visits == [] then url else reader.next(visits[|visits| - 1].answer.link)
  }

  /** The first attempt after the walk. */
  function Left(t: nat, visits: seq<Visit>): nat
  {
    if visits == [] then t else visits[|visits| - 1].t + 1
  }

  /** What a listing of at most `left` pages came to, after these pages. */
  ghost predicate Concludes(server: Server, reader: Reader, retries: nat, t: nat, url: Option<string>, left: nat,
                            visits: seq<Visit>, r: Outcome<Listing>, t': nat)
  {
    && Walk(server, reader, retries, t, url, visits) && |visits| <= left
    && match r
       case Ok(l) =>
         && l.items == Gathered(reader, visits) && l.pages == |visits| && t' == Left(t, visits)
         && (l.truncated <==> Onward(reader, url, visits).Some?) && (l.truncated ==> |visits| == left)
       case TransientFailure =>
         && |visits| < left && Onward(reader, url, visits).Some? && t' == Left(t, visits) + retries + 1
         && AllUnreachable(server, KeyFor("GET", Onward(reader, url, visits).value), Left(t, visits), t')
       case Refused(status) =>
         && |visits| < left && Onward(reader, url, visits).Some? && Left(t, visits) < t' <= Left(t, visits) + retries + 1
         && AllUnreachable(server, KeyFor("GET", Onward(reader, url, visits).value), Left(t, visits), t' - 1)
         && server(t' - 1, KeyFor("GET", Onward(reader, url, visits).value)) == Rejected(status)
       case NoCredential => false
  }

  /** A first page before a walk that went on from its link. */
  lemma WalkFrom(server: Server, reader: Reader, retries: nat, t: nat, url: Option<string>, v: Visit, rest: seq<Visit>)
    requires Walk(server, reader, retries, v.t + 1, reader.next(v.answer.link), rest)
    requires url == Some(v.url) && t <= v.t <= t + retries && AllUnreachable(server, KeyFor("GET", v.url), t, v.t)
    requires server(v.t, KeyFor("GET", v.url)) == Page(v.answer.etag, v.answer.data, v.answer.link)
    ensures Walk(server, reader, retries, t, url, [v] + rest)
    ensures Gathered(reader, [v] + rest) == reader.extract(v.answer.data) + Gathered(reader, rest)
    ensures Onward(reader, url, [v] + rest) == Onward(reader, reader.next(v.answer.link), rest)
    ensures Left(t, [v] + rest) == Left(v.t + 1, rest)
  {
    assert ([v] + rest)[1..] == rest;
  }

  lemma OnePageMore(server: Server, reader: Reader, retries: nat, t: nat, url: Option<string>, left: nat, v: Visit,
                    rest: seq<Visit>, l: Outcome<Listing>, t': nat)
    requires left > 0 && Concludes(server, reader, retries, v.t + 1, reader.next(v.answer.link), left - 1, rest, l, t')
    requires url == Some(v.url) && t <= v.t <= t + retries && AllUnreachable(server, KeyFor("GET", v.url), t, v.t)
    requires server(v.t, KeyFor("GET", v.url)) == Page(v.answer.etag, v.answer.data, v.answer.link)
    ensures var (r, _) := Prepend(reader.extract(v.answer.data), 1, (l, t'));
            Concludes(server, reader, retries, t, url, left, [v] + rest, r, t')
  {
    WalkFrom(server, reader, retries, t, url, v, rest);
  }

  /** Without a page to read, or when it cannot be read, the walk is empty. */
  lemma NoPage(server: Server, reader: Reader, retries: nat, t: nat, url: Option<string>, left: nat)
    requires url.None? || left == 0 || !Uncached(server, t, KeyFor("GET", url.value), retries).0.Ok?
    ensures var (r, t') := Pages(server, reader, retries, t, url, left);
            Concludes(server, reader, retries, t, url, left, [], r, t')
  {
    if url.Some? {
      UncachedExactly(server, t, KeyFor("GET", url.value), retries);
    }
  }

  lemma {:induction false} WalkOf(server: Server, reader: Reader, retries: nat, t: nat, url: Option<string>, left: nat)
    returns (visits: seq<Visit>)
    ensures var (r, t') := Pages(server, reader, retries, t, url, left);
            Concludes(server, reader, retries, t, url, left, visits, r, t')
    decreases left
  {
    if url.None? || left == 0 || !Uncached(server, t, KeyFor("GET", url.value), retries).0.Ok? {
      NoPage(server, reader, retries, t, url, left);
      visits := [];
    } else {
      var (first, t') := Uncached(server, t, KeyFor("GET", url.value), retries);
      UncachedExactly(server, t, KeyFor("GET", url.value), retries);
      var next := reader.next(first.value.link);
      var rest := WalkOf(server, reader, retries, t', next, left - 1);
      var v := Visit(t' - 1, url.value, first.value);
      var (l, t'') := Pages(server, reader, retries, t', next, left - 1);
      OnePageMore(server, reader, retries, t, url, left, v, rest, l, t'');
      assert Pages(server, reader, retries, t, url, left) == Prepend(reader.extract(first.value.data), 1, (l, t''));
      visits := [v] + rest;
    }
  }

  /** The first attempt that reaches the server within the retries decides. */
  lemma {:induction false} FirstReached(server: Server, t: nat, key: string, retries: nat, u: nat)
    requires t <= u <= t + retries && AllUnreachable(server, key, t, u) && !server(u, key).Unreachable?
    ensures match server(u, key)
            case Page(etag, body, link) => Uncached(server, t, key, retries) == (Ok(Answer(body, link, etag)), u + 1)
            case Rejected(status) => Uncached(server, t, key, retries) == (Refused(status), u + 1)
            case Unreachable => true
    decreases retries
  {
    if t < u {
      assert server(t, key).Unreachable?;
      FirstReached(server, t + 1, key, retries - 1, u);
    }
  }

  lemma {:induction false} NeverReached(server: Server, t: nat, key: string, retries: nat)
    requires AllUnreachable(server, key, t, t + retries + 1)
    ensures Uncached(server, t, key, retries) == (TransientFailure, t + retries + 1)
    decreases retries
  {
    assert server(t, key).Unreachable?;
    if retries > 0 {
      NeverReached(server, t + 1, key, retries - 1);
    }
  }

  /** What is left of a walk after its first page comes to the rest of the listing. */
  lemma RestConcludes(server: Server, reader: Reader, retries: nat, t: nat, url: Option<string>, left: nat,
                      visits: seq<Visit>, r: Outcome<Listing>, t': nat) returns (r': Outcome<Listing>)
    requires visits != [] && Concludes(server, reader, retries, t, url, left, visits, r, t')
    ensures var v := visits[0];
            && left > 0 && url == Some(v.url)
            && Concludes(server, reader, retries, v.t + 1, reader.next(v.answer.link), left - 1, visits[1..], r', t')
            && r == Prepend(reader.extract(v.answer.data), 1, (r', t')).0
  {
    var v, rest := visits[0], visits[1..];
    assert visits == [v] + rest;
    WalkFrom(server, reader, retries, t, url, v, rest);
    r' := if r.Ok? then Ok(Listing(Gathered(reader, rest), |rest|, r.value.truncated)) else r;
  }

  /** A walk comes to one end only: whatever satisfies the description is the listing. */
  lemma {:induction false} WalkDecides(server: Server, reader: Reader, retries: nat, t: nat, url: Option<string>, left: nat,
                                       visits: seq<Visit>, r: Outcome<Listing>, t': nat)
    requires Concludes(server, reader, retries, t, url, left, visits, r, t')
    ensures Pages(server, reader, retries, t, url, left) == (r, t')
    decreases left
  {
    if visits != [] {
      var v := visits[0];
      var r' := RestConcludes(server, reader, retries, t, url, left, visits, r, t');
      WalkDecides(server, reader, retries, v.t + 1, reader.next(v.answer.link), left - 1, visits[1..], r', t');
      FirstReached(server, t, KeyFor("GET", v.url), retries, v.t);
      PagesAfter(server, reader, retries, t, v.url, left, v.answer, v.t + 1);
    } else if url.Some? && left > 0 {
      StopsAtOnce(server, retries, t, KeyFor("GET", url.value), r, t');
    }
  }

  lemma PagesAfter(server: Server, reader: Reader, retries: nat, t: nat, url: string, left: nat, a: Answer, t': nat)
    requires left > 0 && Uncached(server, t, KeyFor("GET", url), retries) == (Ok(a), t')
    ensures Pages(server, reader, retries, t, Some(url), left)
            == Prepend(reader.extract(a.data), 1, Pages(server, reader, retries, t', reader.next(a.link), left - 1))
  {
  }

  /**
   * What a listing holds. It is a walk from `url`: each page is the one served at the attempt that read it, the
   * next is where its link points, the items are what the pages hold in that order, and it is truncated exactly
   * when the last page points on. A listing that fails, fails at the page after its walk, for the server's reason.
   */
  lemma ListingExactly(server: Server, reader: Reader, retries: nat, t: nat, url: Option<string>, left: nat, r: Outcome<Listing>, t': nat)
    ensures Pages(server, reader, retries, t, url, left) == (r, t')
            <==> exists visits :: Concludes(server, reader, retries, t, url, left, visits, r, t')
  {
    var walk := WalkOf(server, reader, retries, t, url, left);
    if visits :| Concludes(server, reader, retries, t, url, left, visits, r, t') {
      WalkDecides(server, reader, retries, t, url, left, visits, r, t');
    }
  }

  lemma StopsAtOnce(server: Server, retries: nat, t: nat, key: string, r: Outcome<Listing>, t': nat)
    requires t < t' <= t + retries + 1 && AllUnreachable(server, key, t, t' - 1)
    requires match r
             case TransientFailure => t' == t + retries + 1 && server(t' - 1, key).Unreachable?
             case Refused(status) => server(t' - 1, key) == Rejected(status)
             case _ => false
    ensures Uncached(server, t, key, retries).1 == t'
    ensures match r
            case Refused(status) => Uncached(server, t, key, retries).0 == Refused(status)
            case _ => Uncached(server, t, key, retries).0.TransientFailure?
  {
    if r.TransientFailure? {
      NeverReached(server, t, key, retries);
    } else {
      FirstReached(server, t, key, retries, t' - 1);
    }
  }

  /** A listing stops within its pages, and within their attempts. */
  lemma {:induction false} ListingStops(server: Server, reader: Reader, retries: nat, t: nat, url: Option<string>, left: nat)
    ensures var (r, t') := Pages(server, reader, retries, t, url, left);
            && t <= t' <= t + left * (retries + 1)
            && (r.Ok? ==> r.value.pages <= left && (r.value.truncated ==> r.value.pages == left))
    decreases left
  {
    if url.Some? && left > 0 {
      var (first, t') := Uncached(server, t, KeyFor("GET", url.value), retries);
      RequestStops(server, t, KeyFor("GET", url.value), retries);
      if first.Ok? {
        ListingStops(server, reader, retries, t', reader.next(first.value.link), left - 1);
      }
      assert left * (retries + 1) == (left - 1) * (retries + 1) + (retries + 1);
    }
  }

  /** A listing not truncated is complete: no larger page limit would add anything to it. */
  lemma {:induction false} UntruncatedIsComplete(server: Server, reader: Reader, retries: nat, t: nat, url: Option<string>, left: nat, more: nat)
    requires left <= more
    requires var r := Pages(server, reader, retries, t, url, left).0; r.Ok? && !r.value.truncated
    ensures Pages(server, reader, retries, t, url, more) == Pages(server, reader, retries, t, url, left)
    decreases left
  {
    if url.Some? {
      var (first, t') := Uncached(server, t, KeyFor("GET", url.value), retries);
      UntruncatedIsComplete(server, reader, retries, t', reader.next(first.value.link), left - 1, more - 1);
    }
  }

  /** A truncated listing is a prefix of every longer one that succeeds. */
  lemma {:induction false} TruncatedIsPrefix(server: Server, reader: Reader, retries: nat, t: nat, url: Option<string>, left: nat, more: nat)
    requires left <= more
    requires Pages(server, reader, retries, t, url, left).0.Ok? && Pages(server, reader, retries, t, url, more).0.Ok?
    ensures Pages(server, reader, retries, t, url, left).0.value.items <= Pages(server, reader, retries, t, url, more).0.value.items
    decreases left
  {
    if url.Some? && left > 0 {
      var (first, t') := Uncached(server, t, KeyFor("GET", url.value), retries);
      TruncatedIsPrefix(server, reader, retries, t', reader.next(first.value.link), left - 1, more - 1);
    }
  }
}
