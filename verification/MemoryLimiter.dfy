/** The in-memory rate limiter (backend/app/middleware/rate_limiter.py:42-67,
    160-187): a window anchored at a client's first call, and a cleanup nobody
    should notice.  Times are microseconds. */
module MemoryLimiter {
  import opened FiniteSets
  import opened Wrappers

  type Client = string

  datatype Slot = Slot(count: int, start: int)

  type Cache = map<Client, Slot>

  predicate Expired(slot: Slot, now: int, window: int) { now - slot.start > window }

  /** The cache is a default dictionary: looking a client up creates its entry. */
  function Lookup(cache: Cache, client: Client, now: int): Slot {
    if client in cache then cache[client] else Slot(0, now)
  }

  function Check(cache: Cache, client: Client, now: int, requests: int, window: int): (Cache, bool) {
    var slot := Lookup(cache, client, now);
    if Expired(slot, now, window) then (cache[client := Slot(1, now)], true)
    else if slot.count >= requests then (cache[client := slot], false)
    else (cache[client := Slot(slot.count + 1, slot.start)], true)
  }

  /** A sweep may come at any time and take any of the expired entries;
      `_cleanup_expired` takes them all.  An eviction takes entries as they are. */
  datatype Event =
    | Call(client: Client, now: int)
    | Sweep(clients: set<Client>, now: int)
    | Evict(clients: set<Client>, now: int)

  function Swept(cache: Cache, clients: set<Client>, now: int, window: int): Cache {
    map c | c in cache && !(c in clients && Expired(cache[c], now, window)) :: cache[c]
  }

  /** One event; `sweeping` false ignores the sweeps. */
  function Apply(cache: Cache, e: Event, requests: int, window: int, sweeping: bool): Cache {
    match e
    case Call(client, now) => Check(cache, client, now, requests, window).0
    case Sweep(clients, now) => if sweeping then Swept(cache, clients, now, window) else cache
    case Evict(clients, now) => cache - clients
  }

  function Run(events: seq<Event>, requests: int, window: int, sweeping: bool): Cache {
    if events == [] then map[]
    else Apply(Run(events[..|events| - 1], requests, window, sweeping),
               events[|events| - 1], requests, window, sweeping)
  }

  /** Whether the call that comes last is allowed. */
  function Allowed(events: seq<Event>, requests: int, window: int, sweeping: bool): bool
    requires events != [] && events[|events| - 1].Call?
  {
    var n := |events| - 1;
    Check(Run(events[..n], requests, window, sweeping), events[n].client, events[n].now, requests, window).1
  }

  ghost predicate Ordered(events: seq<Event>) {
    forall i, j :: 0 <= i <= j < |events| ==> events[i].now <= events[j].now
  }

  // -------------------------------------------------- sweeping is invisible

  /** The swept cache misses only entries that have expired by now. */
  ghost predicate Alike(swept: Cache, full: Cache, now: int, window: int) {
    forall c :: (c in swept ==> c in full && swept[c] == full[c])
      && (c in full && c !in swept ==> Expired(full[c], now, window))
  }

  lemma {:induction false} SweptIsAlike(events: seq<Event>, requests: int, window: int, now: int)
    requires requests >= 1 && Ordered(events)
    requires events != [] ==> events[|events| - 1].now <= now
    ensures Alike(Run(events, requests, window, true), Run(events, requests, window, false), now, window)
  {
    if events != [] {
      var n := |events| - 1;
      SweptIsAlike(events[..n], requests, window, events[n].now);
    }
  }

  /** Expired entries may be deleted at any moment: no decision changes. */
  lemma SweepingChangesNothing(events: seq<Event>, requests: int, window: int)
    requires requests >= 1 && Ordered(events) && events != [] && events[|events| - 1].Call?
    ensures Allowed(events, requests, window, true) == Allowed(events, requests, window, false)
  {
    var n := |events| - 1;
    SweptIsAlike(events[..n], requests, window, events[n].now);
  }

  ghost predicate SweepingInvisible(requests: int, window: int) {
    forall events: seq<Event> :: Ordered(events) && events != [] && events[|events| - 1].Call? ==>
      Allowed(events, requests, window, true) == Allowed(events, requests, window, false)
  }

  /** Cleanup is invisible exactly for limits of at least one: with a limit of
      zero a blocked client gets through once its expired entry is kept. */
  lemma SweepingInvisibleExactlyWhen(requests: int, window: int)
    requires window >= 0
    ensures SweepingInvisible(requests, window) <==> requests >= 1
  {
    if requests >= 1 {
      forall events: seq<Event> | Ordered(events) && events != [] && events[|events| - 1].Call?
        ensures Allowed(events, requests, window, true) == Allowed(events, requests, window, false)
      {
        SweepingChangesNothing(events, requests, window);
      }
    } else {
      var first := [Call("c", 0)];
      var swept := first + [Sweep({"c"}, window + 1)];
      var events := swept + [Call("c", window + 1)];
      assert events[..2] == swept && swept[..1] == first && first[..0] == [];
      assert Run(first, requests, window, true) == map["c" := Slot(0, 0)];
      assert Run(first, requests, window, false) == map["c" := Slot(0, 0)];
      assert Run(swept, requests, window, true) == map[];
      assert Allowed(events, requests, window, true) != Allowed(events, requests, window, false);
    }
  }

  // ----------------------------------------------------------- the bounds

  /** An allowed call: when it came and where its window is anchored. */
  datatype Grant = Grant(time: int, anchor: int)

  /** What one event, met by a given cache, adds to the grants of a client. */
  ghost function Granted(cache: Cache, e: Event, client: Client,
                         before: seq<Grant>, requests: int, window: int): seq<Grant> {
    if e.Call? && e.client == client && Check(cache, client, e.now, requests, window).1
    then before + [Grant(e.now, Check(cache, client, e.now, requests, window).0[client].start)]
    else before
  }

  /** The allowed calls of one client, in order. */
  ghost function Grants(events: seq<Event>, client: Client, requests: int, window: int): seq<Grant> {
    if events == [] then []
    else
      var n := |events| - 1;
      Granted(Run(events[..n], requests, window, true), events[n], client,
              Grants(events[..n], client, requests, window), requests, window)
  }

  /** The positions of the grants of one window. */
  ghost function At(g: seq<Grant>, anchor: int): set<nat> { set i: nat | i < |g| && g[i].anchor == anchor }

  /** The positions of the grants within a stretch of time, both ends included. */
  ghost function Within(g: seq<Grant>, from: int, to: int): set<nat> { set i: nat | i < |g| && from <= g[i].time <= to }

  /** Windows follow each other at more than their length and hold their grants. */
  ghost predicate Spaced(g: seq<Grant>, window: int) {
    && (forall i :: 0 <= i < |g| ==> g[i].anchor <= g[i].time <= g[i].anchor + window)
    && (forall i, j :: 0 <= i < j < |g| ==> g[i].anchor == g[j].anchor || g[i].anchor + window < g[j].anchor)
  }

  ghost predicate Bounded(g: seq<Grant>, requests: int) { forall a :: |At(g, a)| <= requests }

  /** How the cache stands to the grants so far: the entry counts the grants of
      the last window, and without an entry that window is over. */
  ghost predicate Tracks(cache: Cache, client: Client, g: seq<Grant>, now: int, window: int) {
    if client in cache
    then g != [] && cache[client].start == g[|g| - 1].anchor && cache[client].count == |At(g, g[|g| - 1].anchor)|
    else g != [] ==> now - g[|g| - 1].anchor > window
  }

  lemma AtAppend(g: seq<Grant>, x: Grant, a: int)
    ensures |At(g + [x], a)| == |At(g, a)| + if x.anchor == a then 1 else 0
  {
    assert At(g + [x], a) == if x.anchor == a then At(g, a) + {|g|} else At(g, a);
  }

  /** One more grant, in the last window or in one that begins after it ended. */
  lemma GrantKeeps(g: seq<Grant>, x: Grant, requests: int, window: int)
    requires Spaced(g, window) && Bounded(g, requests) && |At(g, x.anchor)| < requests
    requires x.anchor <= x.time <= x.anchor + window
    requires g != [] ==> var last := g[|g| - 1]; last.anchor == x.anchor || last.anchor + window < x.anchor
    ensures Spaced(g + [x], window) && Bounded(g + [x], requests)
  {
    forall a ensures |At(g + [x], a)| <= requests {
      AtAppend(g, x, a);
    }
    var h := g + [x];
    forall i, j | 0 <= i < j < |h| ensures h[i].anchor == h[j].anchor || h[i].anchor + window < h[j].anchor {
      if j == |g| && i < |g| - 1 {
        assert g[i].anchor == g[|g| - 1].anchor || g[i].anchor + window < g[|g| - 1].anchor;
        assert g[|g| - 1].anchor <= g[|g| - 1].time;
      }
    }
  }

  /** A window that begins after the last one ended has no grants yet. */
  lemma NoneYet(g: seq<Grant>, window: int, now: int)
    requires Spaced(g, window) && window >= 0 && (g != [] ==> g[|g| - 1].anchor + window < now)
    ensures At(g, now) == {}
  {
    forall i | 0 <= i < |g| ensures g[i].anchor < now {
      if i < |g| - 1 { assert g[i].anchor == g[|g| - 1].anchor || g[i].anchor + window < g[|g| - 1].anchor; }
    }
  }

  lemma CallTracks(cache: Cache, client: Client, g: seq<Grant>, now: int, requests: int, window: int)
    requires requests >= 1 && window >= 0
    requires Spaced(g, window) && Bounded(g, requests) && Tracks(cache, client, g, now, window)
    requires g != [] ==> g[|g| - 1].time <= now
    ensures var (cache', ok) := Check(cache, client, now, requests, window);
            var g' := if ok then g + [Grant(now, cache'[client].start)] else g;
            Spaced(g', window) && Bounded(g', requests) && Tracks(cache', client, g', now, window)
  {
    hide Bounded, At;
    var (cache', ok) := Check(cache, client, now, requests, window);
    if ok {
      var x := Grant(now, cache'[client].start);
      if client !in cache || Expired(cache[client], now, window) {
        NoneYet(g, window, now);
      }
      GrantKeeps(g, x, requests, window);
      AtAppend(g, x, x.anchor);
    }
  }

  /** Times do not go back and no eviction takes the client. */
  ghost predicate Fair(events: seq<Event>, client: Client) {
    Ordered(events) && forall i :: 0 <= i < |events| && events[i].Evict? ==> client !in events[i].clients
  }

  ghost predicate TracksAll(cache: Cache, client: Client, g: seq<Grant>, now: int, requests: int, window: int) {
    && Spaced(g, window) && Bounded(g, requests) && Tracks(cache, client, g, now, window)
    && (forall i :: 0 <= i < |g| ==> g[i].time <= now)
  }

  /** Anything but a call of the client leaves its entry or takes an expired one. */
  lemma OtherEvent(cache: Cache, e: Event, client: Client, g: seq<Grant>, requests: int, window: int)
    requires Tracks(cache, client, g, e.now, window)
    requires (e.Call? ==> e.client != client) && (e.Evict? ==> client !in e.clients)
    ensures Tracks(Apply(cache, e, requests, window, true), client, g, e.now, window)
  {
  }

  lemma EventTracks(cache: Cache, e: Event, client: Client, g: seq<Grant>, requests: int, window: int)
    requires requests >= 1 && window >= 0 && (e.Evict? ==> client !in e.clients)
    requires TracksAll(cache, client, g, e.now, requests, window)
    ensures TracksAll(Apply(cache, e, requests, window, true), client, Granted(cache, e, client, g, requests, window),
                      e.now, requests, window)
  {
    hide Spaced, Bounded, At;
    if e.Call? && e.client == client {
      CallTracks(cache, client, g, e.now, requests, window);
    } else {
      OtherEvent(cache, e, client, g, requests, window);
    }
  }

  lemma LaterTracks(cache: Cache, client: Client, g: seq<Grant>, now: int, later: int, requests: int, window: int)
    requires TracksAll(cache, client, g, now, requests, window) && now <= later
    ensures TracksAll(cache, client, g, later, requests, window)
  {
  }

  lemma {:induction false} RunTracks(events: seq<Event>, client: Client, requests: int, window: int, now: int)
    requires requests >= 1 && window >= 0 && Fair(events, client)
    requires events != [] ==> events[|events| - 1].now <= now
    ensures TracksAll(Run(events, requests, window, true), client,
                      Grants(events, client, requests, window), now, requests, window)
  {
    if events != [] {
      hide TracksAll, Apply, Granted;
      var (before, e) := (events[..|events| - 1], events[|events| - 1]);
      RunTracks(before, client, requests, window, e.now);
      EventTracks(Run(before, requests, window, true), e, client,
                  Grants(before, client, requests, window), requests, window);
      LaterTracks(Run(events, requests, window, true), client,
                  Grants(events, client, requests, window), e.now, now, requests, window);
    } else {
      assert forall a :: At([], a) == {};
    }
  }

  /** The decision, told by the client's earlier grants alone: a call gets through
      exactly when its last window is over, or was never opened, or has room;
      it then opens a window of its own or joins the last one. */
  lemma AllowedExactlyWhen(events: seq<Event>, requests: int, window: int)
    requires requests >= 1 && window >= 0 && events != [] && events[|events| - 1].Call?
    requires Fair(events, events[|events| - 1].client)
    ensures var n := |events| - 1;
            var (now, client) := (events[n].now, events[n].client);
            var (g, g') := (Grants(events[..n], client, requests, window), Grants(events, client, requests, window));
            var over := g == [] || now - g[|g| - 1].anchor > window;
            && (Allowed(events, requests, window, true) <==> over || |At(g, g[|g| - 1].anchor)| < requests)
            && g' == if Allowed(events, requests, window, true)
                     then g + [Grant(now, if over then now else g[|g| - 1].anchor)]
                     else g
  {
    hide Spaced, Bounded, At;
    var n := |events| - 1;
    RunTracks(events[..n], events[n].client, requests, window, events[n].now);
  }

  /** A stretch as long as the window meets at most two windows. */
  lemma TwoWindows(g: seq<Grant>, window: int, from: int, first: nat, last: nat, i: nat)
    requires Spaced(g, window) && first <= i <= last < |g|
    requires forall k :: k in {first, i, last} ==> from <= g[k].time <= from + window
    ensures g[i].anchor == g[first].anchor || g[i].anchor == g[last].anchor
  {
  }

  /** For every client that eviction spares, under any interleaving of calls of
      all clients, sweeps and evictions: at most `requests` calls get through in
      one window and at most twice as many in any stretch of time as long as a window. */
  lemma AtMostTwice(events: seq<Event>, client: Client, requests: int, window: int, anchor: int, from: int)
    requires requests >= 1 && window >= 0 && Fair(events, client)
    ensures var g := Grants(events, client, requests, window);
            |At(g, anchor)| <= requests && |Within(g, from, from + window)| <= 2 * requests
  {
    var g := Grants(events, client, requests, window);
    RunTracks(events, client, requests, window, if events == [] then 0 else events[|events| - 1].now);
    var inside := Within(g, from, from + window);
    if inside != {} {
      var lo, hi := Extremes(inside);
      var (a, b) := (At(g, g[lo].anchor), At(g, g[hi].anchor));
      forall i | i in inside ensures i in a + b {
        TwoWindows(g, window, from, lo, hi, i);
      }
      SubsetSize(inside, a + b);
      assert |a + b| + |a * b| == |a| + |b|;
    }
  }

  // --------------------------------------------------- the running program

  const MAX_CACHE_SIZE := 10_000
  const CLEANUP_INTERVAL := 100

  /** An entry at least as old as all others. */
  predicate Oldest(cache: Cache, c: Client) {
    c in cache && forall d :: d in cache ==> cache[c].start <= cache[d].start
  }

  lemma RemoveOne(cache: Cache, c: Client)
    requires c in cache
    ensures |cache - {c}| == |cache| - 1
  {
    assert (cache - {c}).Keys == cache.Keys - {c};
  }

  lemma {:induction false} OldestExists(cache: Cache) returns (c: Client)
    requires cache != map[]
    ensures Oldest(cache, c)
    decreases |cache|
  {
    var x :| x in cache;
    if cache - {x} == map[] {
      c := x;
      assert forall d :: d in cache ==> d == x || d in cache - {x};
    } else {
      RemoveOne(cache, x);
      var y := OldestExists(cache - {x});
      c := if cache[x].start <= cache[y].start then x else y;
      forall d | d in cache ensures cache[c].start <= cache[d].start {
        if d != x { assert d in cache - {x}; }
      }
    }
  }

  lemma RunNext(events: seq<Event>, e: Event, requests: int, window: int)
    ensures Run(events + [e], requests, window, true)
         == Apply(Run(events, requests, window, true), e, requests, window, true)
    ensures e.Call? ==>
              Allowed(events + [e], requests, window, true)
              == Check(Run(events, requests, window, true), e.client, e.now, requests, window).1
  {
    assert (events + [e])[..|events|] == events;
  }

  /** The entries still within their windows. */
  ghost function Fresh(cache: Cache, now: int, window: int): Cache {
    map c | c in cache && now - cache[c].start <= window :: cache[c]
  }

  /** What a cleanup leaves: entries within their windows, unchanged; all of them
      unless they exceed the cap, and then the newest. */
  ghost predicate Cleaned(cache: Cache, before: Cache, now: int, window: int) {
    var young := Fresh(before, now, window);
    && |cache| <= 10_000
    && (forall c :: c in cache ==> c in young && cache[c] == young[c])
    && (|young| <= 10_000 ==> cache == young)
    && (|young| > 10_000 ==> |cache| == 10_000)
    && (forall c, d :: c in young && c !in cache && d in cache ==> young[c].start <= cache[d].start)
  }

  /** The two parts of a cleanup are events of the runs above. */
  lemma SweepEvent(events: seq<Event>, before: Cache, requests: int, window: int, now: int)
    requires before == Run(events, requests, window, true)
    ensures Run(events + [Sweep(before.Keys, now)], requests, window, true) == Swept(before, before.Keys, now, window)
  {
    RunNext(events, Sweep(before.Keys, now), requests, window);
  }

  lemma EvictEvent(events: seq<Event>, before: Cache, after: Cache, requests: int, window: int, now: int)
    requires before == Run(events, requests, window, true)
    requires forall c :: c in after ==> c in before && after[c] == before[c]
    ensures Run(events + [Evict(before.Keys - after.Keys, now)], requests, window, true) == after
  {
    hide Run;
    RunNext(events, Evict(before.Keys - after.Keys, now), requests, window);
    assert before - (before.Keys - after.Keys) == after;
  }

  lemma CleanedIs(after: Cache, before: Cache, now: int, window: int)
    requires var swept := Swept(before, before.Keys, now, window);
             && |after| == (if |swept| <= 10_000 then |swept| else 10_000)
             && (|swept| <= 10_000 ==> after == swept)
             && (forall c :: c in after ==> c in swept && after[c] == swept[c])
             && (forall c, d :: c in swept && c !in after && d in after ==> swept[c].start <= after[d].start)
    ensures Cleaned(after, before, now, window)
  {
    assert Swept(before, before.Keys, now, window) == Fresh(before, now, window);
    hide Fresh, Swept;
  }

  class RateLimiter {
    const requests: int
    const window: int
    var cache: Cache
    var requestCount: nat
    /** Every call, sweep and eviction so far. */
    ghost var events: seq<Event>

    /** The cache is the one the theorems are about. */
    ghost predicate Tracked()
      reads this
    {
      cache == Run(events, requests, window, true)
    }

    constructor (requests: int, window: int)
      ensures cache == map[] && requestCount == 0 && this.requests == requests && this.window == window && SizeOk()
      ensures Tracked() && events == []
    {
      this.requests, this.window := requests, window;
      cache, requestCount, events := map[], 0, [];
    }

    /** How large the cache may be after `requestCount` requests. */
    ghost predicate SizeOk()
      reads this
    {
      |cache| <= MAX_CACHE_SIZE + requestCount % CLEANUP_INTERVAL + 1
    }

    method CleanupExpired(now: int)
      modifies this`cache
      ensures cache == Swept(old(cache), old(cache).Keys, now, window)
    {
      var expired := set c | c in cache && Expired(cache[c], now, window);
      ghost var all := expired;
      while expired != {}
        invariant expired <= all
        invariant cache == old(cache) - (all - expired)
        decreases |expired|
      {
        var c :| c in expired;
        expired := expired - {c};
        cache := cache - {c};
      }
      assert cache == old(cache) - all;
    }

    /** Removes the excess, always an entry no younger than those that stay. */
    method EvictOldest()
      modifies this`cache
      ensures |cache| == if old(|cache|) <= 10_000 then old(|cache|) else 10_000
      ensures old(|cache|) <= 10_000 ==> cache == old(cache)
      ensures forall c :: c in cache ==> c in old(cache) && cache[c] == old(cache)[c]
      ensures forall c, d :: c in old(cache) && c !in cache && d in cache ==> old(cache)[c].start <= cache[d].start
    {
      while |cache| > MAX_CACHE_SIZE
        invariant if |cache| == old(|cache|) then cache == old(cache) else MAX_CACHE_SIZE <= |cache| < old(|cache|)
        invariant forall c :: c in cache ==> c in old(cache) && cache[c] == old(cache)[c]
        invariant forall c, d :: c in old(cache) && c !in cache && d in cache ==> old(cache)[c].start <= cache[d].start
        decreases |cache|
      {
        ghost var w := OldestExists(cache);
        var c :| c in cache && Oldest(cache, c);
        RemoveOne(cache, c);
        ghost var before := cache;
        assert Oldest(before, c);
        cache := cache - {c};
        forall d | d in cache ensures before[c].start <= cache[d].start {
          assert d in before;
        }
      }
    }

    /** Every hundredth request removes the expired entries and then, above the cap
        only, the oldest ones; the others leave the cache alone. */
    method MaybeCleanup(now: int)
      requires SizeOk() && Tracked()
      modifies this
      ensures Tracked() && old(events) <= events
      ensures forall i :: |old(events)| <= i < |events| ==> !events[i].Call? && events[i].now == now
      ensures requestCount == old(requestCount) + 1
      ensures |cache| + 1 <= 10_000 + requestCount % 100 + 1
      ensures requestCount % 100 != 0 ==> cache == old(cache)
      ensures requestCount % 100 == 0 ==> Cleaned(cache, old(cache), now, window)
    {
      hide Run, Swept, Cleaned;
      requestCount := requestCount + 1;
      if requestCount % CLEANUP_INTERVAL == 0 {
        CleanupExpired(now);
        SweepEvent(events, old(cache), requests, window, now);
        ghost var swept := cache;
        EvictOldest();
        EvictEvent(events + [Sweep(old(cache).Keys, now)], swept, cache, requests, window, now);
        events := events + [Sweep(old(cache).Keys, now)] + [Evict(swept.Keys - cache.Keys, now)];
        CleanedIs(cache, old(cache), now, window);
      }
    }

    method CheckInMemory(client: Client, now: int) returns (allowed: bool)
      requires Tracked()
      modifies this`cache, this`events
      ensures Tracked() && events == old(events) + [Call(client, now)]
      ensures allowed == Allowed(events, requests, window, true)
      ensures (cache, allowed) == Check(old(cache), client, now, requests, window)
    {
      RunNext(events, Call(client, now), requests, window);
      events := events + [Call(client, now)];
      var slot := Lookup(cache, client, now);
      cache := cache[client := slot];
      if now - slot.start > window {
        cache := cache[client := Slot(1, now)];
        assert cache == old(cache)[client := Slot(1, now)];
        return true;
      }
      if slot.count >= requests {
        return false;
      }
      cache := cache[client := Slot(slot.count + 1, slot.start)];
      assert cache == old(cache)[client := Slot(slot.count + 1, slot.start)];
      return true;
    }

    /** One request whose database path answered `database`, or did not (None).
        The cache never exceeds the cap by more than the cleanup interval.
        Without a database the answer is the one the cache gave before the
        request, cleanup or not, unless more than the cap are within their
        windows; then at most a client gets through that would have been blocked. */
    method CheckRateLimit(client: Client, now: int, database: Option<bool>) returns (allowed: bool)
      requires SizeOk() && Tracked()
      modifies this
      ensures SizeOk() && Tracked() && |cache| <= 10_100
      ensures old(events) <= events
      ensures database.None? ==>
                && events != [] && events[|events| - 1] == Call(client, now)
                && allowed == Allowed(events, requests, window, true)
      ensures requestCount == old(requestCount) + 1
      ensures database.Some? ==> allowed == database.value
      ensures database.None? && requestCount % 100 != 0
          ==> (cache, allowed) == Check(old(cache), client, now, requests, window)
      ensures database.None? && requests >= 1 && window >= 0 && Check(old(cache), client, now, requests, window).1
          ==> allowed
      ensures database.None? && requests >= 1 && window >= 0 && |Fresh(old(cache), now, window)| <= 10_000
          ==> allowed == Check(old(cache), client, now, requests, window).1
    {
      MaybeCleanup(now);
      if database.Some? {
        return database.value;
      }
      ghost var before := cache;
      allowed := CheckInMemory(client, now);
      assert cache.Keys == before.Keys + {client};
    }
  }
}
