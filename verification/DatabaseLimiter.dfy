/** The rate limiter's database path (backend/app/middleware/rate_limiter.py:114-158):
    counters in aligned buckets, swept once they are two windows old.
    Times are microseconds, windows whole seconds. */
module DatabaseLimiter {
  import opened FiniteSets
  import opened Wrappers

  type Client = string

  const MICROS := 1_000_000

  /** `int(timestamp)` drops the fraction towards zero. */
  function WholeSeconds(now: int): int { if now >= 0 then now / MICROS else -((-now) / MICROS) }

  /** `seconds // window * window`, a floor. */
  function Bucket(now: int, window: nat): int
    requires window >= 1
  {
    WholeSeconds(now) / window * window
  }

  lemma WholeSecondsTruncate(now: int)
    ensures now >= 0 ==> WholeSeconds(now) * 1_000_000 <= now < (WholeSeconds(now) + 1) * 1_000_000
    ensures now < 0 ==> (WholeSeconds(now) - 1) * 1_000_000 < now <= WholeSeconds(now) * 1_000_000
  {
  }

  function Times(q: int, window: nat): int { q * window }

  ghost predicate Multiple(x: int, window: nat) { exists q :: Times(q, window) == x }

  /** A bucket begins at the last multiple of the window that is not later. */
  lemma BucketIsAligned(now: int, window: nat)
    requires window >= 1
    ensures Multiple(Bucket(now, window), window)
    ensures Bucket(now, window) <= WholeSeconds(now) < Bucket(now, window) + window
  {
    hide WholeSeconds;
    assert Times(WholeSeconds(now) / window, window) == Bucket(now, window);
  }

  type Counters = map<(Client, int), nat>

  function CountOf(rows: Counters, client: Client, bucket: int): nat {
    if (client, bucket) in rows then rows[(client, bucket)] else 0
  }

  /** One call; `sweep` says whether its request number triggers the deletion of
      rows older than two windows. */
  datatype Call = Call(client: Client, now: int, sweep: bool)

  function Increment(rows: Counters, client: Client, bucket: int): Counters {
    rows[(client, bucket) := CountOf(rows, client, bucket) + 1]
  }

  function Sweep(rows: Counters, bucket: int, window: nat): Counters {
    map k | k in rows && k.1 >= bucket - window * 2 :: rows[k]
  }

  function Check(rows: Counters, c: Call, requests: int, window: nat): (Counters, bool)
    requires window >= 1
  {
    var bucket := Bucket(c.now, window);
    var rows' := Increment(rows, c.client, bucket);
    (if c.sweep then Sweep(rows', bucket, window) else rows', CountOf(rows', c.client, bucket) <= requests)
  }

  function Run(calls: seq<Call>, requests: int, window: nat): Counters
    requires window >= 1
  {
    if calls == [] then map[]
    else Check(Run(calls[..|calls| - 1], requests, window), calls[|calls| - 1], requests, window).0
  }

  function Allowed(calls: seq<Call>, k: nat, requests: int, window: nat): bool
    requires window >= 1 && k < |calls|
  {
    Check(Run(calls[..k], requests, window), calls[k], requests, window).1
  }

  ghost predicate Ordered(calls: seq<Call>) { forall i, j :: 0 <= i <= j < |calls| ==> calls[i].now <= calls[j].now }

  /** The positions before n of the calls of one client in one bucket. */
  ghost function Same(calls: seq<Call>, n: nat, client: Client, bucket: int, window: nat): set<nat>
    requires window >= 1 && n <= |calls|
  {
    set i: nat | i < n && calls[i].client == client && Bucket(calls[i].now, window) == bucket
  }

  // --------------------------------------------------------------- buckets

  function Quotient(now: int, window: nat): int
    requires window >= 1
  {
    WholeSeconds(now) / window
  }

  lemma MulMonotone(p: int, q: int, w: nat)
    requires p <= q
    ensures p * w <= q * w
  {
  }

  lemma QuotientMonotone(s: int, t: int, window: nat)
    requires window >= 1 && s <= t
    ensures Quotient(s, window) <= Quotient(t, window)
  {
    assert WholeSeconds(s) <= WholeSeconds(t);
    if Quotient(s, window) > Quotient(t, window) { MulMonotone(Quotient(t, window) + 1, Quotient(s, window), window); }
  }

  lemma BucketMonotone(s: int, t: int, window: nat)
    requires window >= 1 && s <= t
    ensures Bucket(s, window) <= Bucket(t, window)
  {
    QuotientMonotone(s, t, window);
    MulMonotone(Quotient(s, window), Quotient(t, window), window);
  }

  /** Two calls with a whole bucket between theirs are more than a window apart. */
  lemma BucketsApart(s: int, t: int, window: nat)
    requires window >= 1 && Quotient(s, window) + 2 <= Quotient(t, window)
    ensures t - s > window * MICROS
  {
    var (p, q) := (Quotient(s, window), Quotient(t, window));
    MulMonotone(p + 2, q, window);
    assert (p + 2) * window == p * window + 2 * window;
    assert WholeSeconds(s) < p * window + window;
    assert WholeSeconds(t) >= q * window;
    assert WholeSeconds(t) - WholeSeconds(s) >= window + 1;
  }

  // -------------------------------------------------------------- counting

  /** In every bucket that can still be counted in, the row holds the calls so far. */
  ghost predicate Exact(rows: Counters, calls: seq<Call>, n: nat, from: int, window: nat)
    requires window >= 1 && n <= |calls|
  {
    forall client, bucket :: bucket >= from ==>
      CountOf(rows, client, bucket) == |Same(calls, n, client, bucket, window)|
  }

  lemma SameNext(calls: seq<Call>, n: nat, client: Client, bucket: int, window: nat)
    requires window >= 1 && n < |calls|
    ensures Same(calls, n + 1, client, bucket, window)
         == Same(calls, n, client, bucket, window)
            + (if calls[n].client == client && Bucket(calls[n].now, window) == bucket then {n} else {})
  {
  }

  /** One call counts itself in its own row, and its sweep spares every bucket
      that has come. */
  lemma CallIsExact(rows: Counters, calls: seq<Call>, n: nat, requests: int, window: nat, from: int)
    requires window >= 1 && n < |calls| && Bucket(calls[n].now, window) <= from
    requires Exact(rows, calls, n, Bucket(calls[n].now, window), window)
    ensures Exact(Check(rows, calls[n], requests, window).0, calls, n + 1, from, window)
  {
    hide Bucket, Same;
    var now := Bucket(calls[n].now, window);
    var rows' := Check(rows, calls[n], requests, window).0;
    forall client, bucket | bucket >= from
      ensures CountOf(rows', client, bucket) == |Same(calls, n + 1, client, bucket, window)|
    {
      SameNext(calls, n, client, bucket, window);
      SameBelow(calls, n, client, bucket, window);
      assert CountOf(rows, client, bucket) == |Same(calls, n, client, bucket, window)|;
    }
  }

  lemma SameBelow(calls: seq<Call>, n: nat, client: Client, bucket: int, window: nat)
    requires window >= 1 && n <= |calls|
    ensures n !in Same(calls, n, client, bucket, window)
  {
  }

  lemma {:induction false} RunIsExact(calls: seq<Call>, n: nat, requests: int, window: nat, from: int)
    requires window >= 1 && n <= |calls| && Ordered(calls)
    requires n > 0 ==> Bucket(calls[n - 1].now, window) <= from
    ensures Exact(Run(calls[..n], requests, window), calls, n, from, window)
    decreases n
  {
    if n > 0 {
      hide Bucket, Check, Same, Exact;
      var m := n - 1;
      if m > 0 { BucketMonotone(calls[m - 1].now, calls[m].now, window); }
      RunIsExact(calls, m, requests, window, Bucket(calls[m].now, window));
      assert calls[..n][..m] == calls[..m];
      CallIsExact(Run(calls[..m], requests, window), calls, m, requests, window, from);
    } else {
      assert forall client, bucket :: Same(calls, 0, client, bucket, window) == {};
    }
  }

  /** Exactly the first `requests` calls of a client in a bucket are allowed,
      whatever is swept in between. */
  lemma FirstOfBucketAllowed(calls: seq<Call>, k: nat, requests: int, window: nat)
    requires window >= 1 && k < |calls| && Ordered(calls)
    ensures Allowed(calls, k, requests, window)
        <==> |Same(calls, k, calls[k].client, Bucket(calls[k].now, window), window)| < requests
  {
    if k > 0 { BucketMonotone(calls[k - 1].now, calls[k].now, window); }
    RunIsExact(calls, k, requests, window, Bucket(calls[k].now, window));
  }

  /** A row the sweep removes is never counted in again. */
  lemma SweptRowsAreDead(calls: seq<Call>, k: nat, later: nat, requests: int, window: nat, key: (Client, int))
    requires window >= 1 && k <= later < |calls| && Ordered(calls)
    requires key in Increment(Run(calls[..k], requests, window), calls[k].client, Bucket(calls[k].now, window))
    requires key !in Check(Run(calls[..k], requests, window), calls[k], requests, window).0
    ensures key != (calls[later].client, Bucket(calls[later].now, window))
  {
    BucketMonotone(calls[k].now, calls[later].now, window);
  }

  /** The rows of one client. */
  ghost function RowsOf(rows: Counters, client: Client): set<(Client, int)> { set k | k in rows && k.0 == client }

  ghost predicate Aligned(rows: Counters, last: int, window: nat) {
    forall k :: k in rows ==> k.1 <= last && Multiple(k.1, window)
  }

  lemma {:induction false} RowsAligned(calls: seq<Call>, n: nat, requests: int, window: nat, last: int)
    requires window >= 1 && n <= |calls| && Ordered(calls)
    requires n > 0 ==> Bucket(calls[n - 1].now, window) <= last
    ensures Aligned(Run(calls[..n], requests, window), last, window)
  {
    if n > 0 {
      hide Bucket, Check;
      var m := n - 1;
      if m > 0 { BucketMonotone(calls[m - 1].now, calls[m].now, window); }
      var bucket := Bucket(calls[m].now, window);
      RowsAligned(calls, m, requests, window, bucket);
      assert calls[..n][..m] == calls[..m];
      CheckRows(Run(calls[..m], requests, window), calls[m], requests, window);
      BucketIsAligned(calls[m].now, window);
    }
  }

  lemma CheckRows(rows: Counters, c: Call, requests: int, window: nat)
    requires window >= 1
    ensures var (rows', bucket) := (Check(rows, c, requests, window).0, Bucket(c.now, window));
            && (forall k :: k in rows' <==>
                  (k in rows || k == (c.client, bucket)) && (c.sweep ==> k.1 >= bucket - 2 * window))
            && (forall k :: k in rows' && k != (c.client, bucket) ==> rows'[k] == rows[k])
  {
    hide Bucket;
  }

  /** After a call that sweeps, no client has more than three rows: of the current
      bucket and of the two before it. */
  lemma SweptTableIsSmall(calls: seq<Call>, requests: int, window: nat, client: Client)
    requires window >= 1 && Ordered(calls) && calls != [] && calls[|calls| - 1].sweep
    ensures |RowsOf(Run(calls, requests, window), client)| <= 3
  {
    hide Bucket, Check;
    var n := |calls| - 1;
    var bucket := Bucket(calls[n].now, window);
    assert calls[..|calls|] == calls;
    RowsAligned(calls, |calls|, requests, window, bucket);
    CheckRows(Run(calls[..n], requests, window), calls[n], requests, window);
    BucketIsAligned(calls[n].now, window);
    var rows := Run(calls, requests, window);
    var three := {(client, bucket), (client, bucket - window), (client, bucket - 2 * window)};
    forall k | k in RowsOf(rows, client) ensures k in three {
      assert k.1 >= bucket - 2 * window && k.1 <= bucket;
      NearMultiples(k.1, bucket, window);
      assert k == (client, k.1);
    }
    SubsetSize(RowsOf(rows, client), three);
    assert |three| <= 3;
  }

  lemma NearMultiples(x: int, y: int, window: nat)
    requires window >= 1 && Multiple(x, window) && Multiple(y, window) && y - 2 * window <= x <= y
    ensures x in {y, y - window, y - 2 * window}
  {
    var p :| Times(p, window) == x;
    var q :| Times(q, window) == y;
    var d := q - p;
    Distributes(q, p, window);
    assert Times(d, window) == y - x;
    if d < 0 { MulMonotone(d, -1, window); }
    if d > 2 { MulMonotone(3, d, window); }
  }

  lemma Distributes(q: int, p: int, window: nat)
    ensures Times(q - p, window) == Times(q, window) - Times(p, window)
  {
  }

  // ------------------------------------------------------------- the bound

  /** The allowed calls of a client at times from `from` to one window later, both included. */
  ghost function Granted(calls: seq<Call>, client: Client, from: int, requests: int, window: nat): set<nat>
    requires window >= 1
  {
    set k: nat | k < |calls| && calls[k].client == client && from <= calls[k].now <= from + window * MICROS
                && Allowed(calls, k, requests, window)
  }

  ghost function GrantedIn(calls: seq<Call>, client: Client, bucket: int, requests: int, window: nat): set<nat>
    requires window >= 1
  {
    set k: nat | k < |calls| && calls[k].client == client
      && Bucket(calls[k].now, window) == bucket && Allowed(calls, k, requests, window)
  }

  lemma BucketBound(calls: seq<Call>, client: Client, bucket: int, requests: int, window: nat)
    requires window >= 1 && requests >= 0 && Ordered(calls)
    ensures |GrantedIn(calls, client, bucket, requests, window)| <= requests
  {
    hide Bucket;
    var g := GrantedIn(calls, client, bucket, requests, window);
    if g != {} {
      var lo, hi := Extremes(g);
      FirstOfBucketAllowed(calls, hi, requests, window);
      var earlier := Same(calls, hi, client, bucket, window);
      assert g <= earlier + {hi};
      SubsetSize(g, earlier + {hi});
    }
  }

  /** At most twice the limit gets through in any stretch of time as long as the window. */
  lemma AtMostTwice(calls: seq<Call>, client: Client, from: int, requests: int, window: nat)
    requires window >= 1 && requests >= 0 && Ordered(calls)
    ensures |Granted(calls, client, from, requests, window)| <= 2 * requests
  {
    var g := Granted(calls, client, from, requests, window);
    if g != {} {
      var lo, hi := Extremes(g);
      var (p, q) := (Bucket(calls[lo].now, window), Bucket(calls[hi].now, window));
      var (a, b) := (GrantedIn(calls, client, p, requests, window), GrantedIn(calls, client, q, requests, window));
      forall k | k in g ensures k in a + b {
        BetweenBuckets(calls, lo, k, hi, window);
      }
      SubsetSize(g, a + b);
      BucketBound(calls, client, p, requests, window);
      BucketBound(calls, client, q, requests, window);
      assert |a + b| + |a * b| == |a| + |b|;
    }
  }

  lemma BetweenBuckets(calls: seq<Call>, lo: nat, k: nat, hi: nat, window: nat)
    requires window >= 1 && lo <= k <= hi < |calls| && Ordered(calls)
    requires calls[hi].now - calls[lo].now <= window * MICROS
    ensures Bucket(calls[k].now, window) in {Bucket(calls[lo].now, window), Bucket(calls[hi].now, window)}
  {
    QuotientMonotone(calls[lo].now, calls[k].now, window);
    QuotientMonotone(calls[k].now, calls[hi].now, window);
    if Quotient(calls[lo].now, window) + 2 <= Quotient(calls[hi].now, window) {
      BucketsApart(calls[lo].now, calls[hi].now, window);
      assert false;
    }
  }

  /** The next call, from the table as it stands. */
  lemma NextCall(calls: seq<Call>, c: Call, requests: int, window: nat)
    requires window >= 1 && Ordered(calls + [c])
    ensures Run(calls + [c], requests, window) == Check(Run(calls, requests, window), c, requests, window).0
    ensures Check(Run(calls, requests, window), c, requests, window).1
        <==> |Same(calls, |calls|, c.client, Bucket(c.now, window), window)| < requests
  {
    var (next, n) := (calls + [c], |calls|);
    assert next[..n] == calls;
    FirstOfBucketAllowed(next, n, requests, window);
    assert Same(next, n, c.client, Bucket(c.now, window), window)
        == Same(calls, n, c.client, Bucket(c.now, window), window);
  }

  // --------------------------------------------------- the running program

  /** The database answers, fails before the commit, or fails after it. */
  datatype Reply = Up | Down | Lost

  class CounterTable {
    const requests: int
    const window: nat
    var rows: Counters
    /** The calls that reached the table so far. */
    ghost var calls: seq<Call>

    ghost predicate Valid()
      reads this
    {
      window >= 1 && rows == Run(calls, requests, window)
    }

    constructor (requests: int, window: nat)
      requires window >= 1
      ensures Valid() && calls == [] && this.requests == requests && this.window == window
    {
      this.requests, this.window := requests, window;
      rows, calls := map[], [];
    }

    /** `_check_via_db`.  The answer is yes for exactly the first calls of the
        client in its bucket; a database that fails gives no answer, after it
        counted the call or not. */
    method CheckViaDb(client: Client, now: int, sweep: bool, reply: Reply) returns (allowed: Option<bool>)
      requires Valid() && Ordered(calls + [Call(client, now, sweep)])
      modifies this
      ensures Valid() && allowed.Some? == reply.Up?
      ensures reply.Down? ==> rows == old(rows) && calls == old(calls)
      ensures !reply.Down? ==> calls == old(calls) + [Call(client, now, sweep)]
      ensures reply.Up? ==>
                (allowed.value <==> |Same(old(calls), |old(calls)|, client, Bucket(now, window), window)| < requests)
    {
      if reply.Down? {
        return None;
      }
      var bucket := Bucket(now, window);
      NextCall(calls, Call(client, now, sweep), requests, window);
      calls := calls + [Call(client, now, sweep)];
      var count := CountOf(rows, client, bucket) + 1;
      rows := rows[(client, bucket) := count];
      if sweep {
        rows := Sweep(rows, bucket, window);
      }
      return if reply.Up? then Some(count <= requests) else None;
    }
  }
}
