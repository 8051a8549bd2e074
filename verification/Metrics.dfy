/** The capped request counter (backend/app/api/v1/metrics.py:46-84) against an
    exact histogram of the same requests. */
module Metrics {
  import opened FiniteSets

  const MAX_KEYS: nat := 2000
  const OTHER := "_other_"

  datatype Bucket = B2xx | B3xx | B4xx | B5xx

  type Key = (string, Bucket)

  type Counter = map<Key, nat>

  datatype Request = Request(route: string, status: int)

  function StatusBucket(status: int): (b: Bucket)
    ensures b == B2xx <==> status < 300
    ensures b == B3xx <==> 300 <= status < 400
    ensures b == B4xx <==> 400 <= status < 500
    ensures b == B5xx <==> status >= 500
  {
    if status >= 500 then B5xx else if status >= 400 then B4xx else if status >= 300 then B3xx else B2xx
  }

  function KeyOf(r: Request): Key { (if r.route == "" then OTHER else r.route, StatusBucket(r.status)) }

  function Count(c: Counter, k: Key): nat { if k in c then c[k] else 0 }

  /** One request: an existing key is counted, a new one is admitted below the
      cap, anything else is counted under `_other_`. */
  function Record(c: Counter, r: Request): Counter {
    var k := KeyOf(r);
    if k in c then c[k := c[k] + 1]
    else if |c| < MAX_KEYS then c[k := 1]
    else c[(OTHER, k.1) := Count(c, (OTHER, k.1)) + 1]
  }

  function Run(requests: seq<Request>): Counter {
    if requests == [] then map[] else Record(Run(requests[..|requests| - 1]), requests[|requests| - 1])
  }

  // ----------------------------------------------------- the exact histogram

  /** How often key k was requested. */
  function Exact(requests: seq<Request>, k: Key): nat {
    if requests == [] then 0
    else Exact(requests[..|requests| - 1], k) + if KeyOf(requests[|requests| - 1]) == k then 1 else 0
  }

  /** How many requests had a status in bucket b. */
  function InBucket(requests: seq<Request>, b: Bucket): nat {
    if requests == [] then 0
    else InBucket(requests[..|requests| - 1], b) + if KeyOf(requests[|requests| - 1]).1 == b then 1 else 0
  }

  /** The requests of bucket b whose key has no counter of its own: those for
      `_other_` and those for keys that were never admitted. */
  function Remainder(requests: seq<Request>, c: Counter, b: Bucket): nat {
    if requests == [] then 0
    else
      var k := KeyOf(requests[|requests| - 1]);
      Remainder(requests[..|requests| - 1], c, b) + if k.1 == b && (k.0 == OTHER || k !in c) then 1 else 0
  }

  /** The sum of the counters of the keys `ks`. */
  ghost function Sum(c: Counter, ks: set<Key>): nat
    requires ks <= c.Keys
  {
    if ks == {} then 0 else var k :| k in ks; c[k] + Sum(c, ks - {k})
  }

  ghost function KeysIn(c: Counter, b: Bucket): set<Key> { set k | k in c && k.1 == b }

  // ------------------------------------------------------------ the map's size

  ghost function Own(c: Counter): set<Key> { set k | k in c && k.0 != OTHER }

  ghost function Others(c: Counter): set<Key> { set k | k in c && k.0 == OTHER }

  /** Keys of their own never exceed the cap, and the four `_other_` keys are all that can. */
  lemma {:induction false} SizeBound(requests: seq<Request>)
    ensures |Own(Run(requests))| <= 2000 && |Run(requests)| <= 2004
  {
    var c := Run(requests);
    assert c.Keys == Own(c) + Others(c);
    var all := {(OTHER, B2xx), (OTHER, B3xx), (OTHER, B4xx), (OTHER, B5xx)};
    forall k | k in Others(c) ensures k in all {
      assert k == (OTHER, k.1);
      match k.1
      case B2xx | B3xx | B4xx | B5xx =>
    }
    SubsetSize(Others(c), all);
    OwnBound(requests);
  }

  lemma {:induction false} OwnBound(requests: seq<Request>)
    ensures |Own(Run(requests))| <= MAX_KEYS
  {
    if requests != [] {
      var n := |requests| - 1;
      OwnBound(requests[..n]);
      var (c, k) := (Run(requests[..n]), KeyOf(requests[n]));
      if k !in c && |c| < MAX_KEYS {
        SubsetSize(Own(c), c.Keys);
        SubsetSize(Own(Run(requests)), Own(c) + {k});
      } else {
        assert Own(Run(requests)) == Own(c);
      }
    }
  }

  // ------------------------------------------------------------- exactness

  /** Keys stay, and once the cap is reached no further key gets a counter of its own. */
  lemma RecordKeys(c: Counter, r: Request)
    ensures c.Keys <= Record(c, r).Keys
    ensures |c| >= MAX_KEYS ==> Own(Record(c, r)) == Own(c)
    ensures |c| <= |Record(c, r)|
  {
    SubsetSize(c.Keys, Record(c, r).Keys);
  }

  /** A key without a counter below the cap was never requested; one that was
      requested without getting a counter met a full map. */
  lemma {:induction false} OwnCountersAreExact(requests: seq<Request>, k: Key)
    requires k.0 != OTHER
    ensures var c := Run(requests);
            && (k in c ==> c[k] == Exact(requests, k) && c[k] >= 1)
            && (k !in c && |c| < 2000 ==> Exact(requests, k) == 0)
  {
    if requests != [] {
      var n := |requests| - 1;
      OwnCountersAreExact(requests[..n], k);
      RecordKeys(Run(requests[..n]), requests[n]);
    }
  }

  lemma {:induction false} RemainderGrows(requests: seq<Request>, c: Counter, c': Counter, b: Bucket)
    requires forall i :: 0 <= i < |requests| ==> var k := KeyOf(requests[i]); k.0 == OTHER || (k in c <==> k in c')
    ensures Remainder(requests, c, b) == Remainder(requests, c', b)
  {
    if requests != [] { RemainderGrows(requests[..|requests| - 1], c, c', b); }
  }

  lemma {:induction false} Requested(requests: seq<Request>, i: nat)
    requires i < |requests|
    ensures Exact(requests, KeyOf(requests[i])) >= 1
  {
    if i < |requests| - 1 { Requested(requests[..|requests| - 1], i); }
  }

  /** A key that was already requested never changes sides: what it lacked when
      it came it lacks for ever. */
  lemma SidesStay(before: seq<Request>, r: Request, i: nat)
    requires i < |before|
    ensures var k := KeyOf(before[i]); var c := Run(before); k.0 == OTHER || (k in c <==> k in Record(c, r))
  {
    hide Record;
    var (k, c) := (KeyOf(before[i]), Run(before));
    if k.0 != OTHER {
      OwnCountersAreExact(before, k);
      Requested(before, i);
      RecordKeys(c, r);
      assert k in c <==> k in Own(c);
      assert k in Record(c, r) <==> k in Own(Record(c, r));
    }
  }

  /** What one request adds to `_other_`. */
  lemma OtherGrows(c: Counter, r: Request, b: Bucket)
    ensures var (c', k) := (Record(c, r), KeyOf(r));
            Count(c', (OTHER, b)) == Count(c, (OTHER, b)) + if k.1 == b && (k.0 == OTHER || k !in c') then 1 else 0
  {
  }

  /** `_other_` holds, per status bucket, exactly the requests without a counter of their own. */
  lemma {:induction false} OtherIsTheRemainder(requests: seq<Request>, b: Bucket)
    ensures Count(Run(requests), (OTHER, b)) == Remainder(requests, Run(requests), b)
  {
    if requests != [] {
      hide Record, Count, KeyOf;
      var n := |requests| - 1;
      OtherIsTheRemainder(requests[..n], b);
      var (c, c') := (Run(requests[..n]), Run(requests));
      forall i | 0 <= i < n
        ensures var k := KeyOf(requests[i]); k.0 == OTHER || (k in c <==> k in c')
      {
        SidesStay(requests[..n], requests[n], i);
      }
      RemainderGrows(requests[..n], c, c', b);
      OtherGrows(c, requests[n], b);
    } else {
      assert Run(requests) == map[];
    }
  }

  // ---------------------------------------------------------- conservation

  lemma {:induction false} SumSplit(c: Counter, ks: set<Key>, k: Key)
    requires ks <= c.Keys && k in ks
    ensures Sum(c, ks) == c[k] + Sum(c, ks - {k})
    decreases |ks|
  {
    var j :| j in ks && Sum(c, ks) == c[j] + Sum(c, ks - {j});
    if j != k {
      SumSplit(c, ks - {j}, k);
      SumSplit(c, ks - {k}, j);
      assert ks - {j} - {k} == ks - {k} - {j};
    }
  }

  lemma {:induction false} SumFrame(c: Counter, c': Counter, ks: set<Key>)
    requires ks <= c.Keys && ks <= c'.Keys && forall k :: k in ks ==> c[k] == c'[k]
    ensures Sum(c, ks) == Sum(c', ks)
    decreases |ks|
  {
    if ks != {} {
      var k :| k in ks;
      SumSplit(c, ks, k);
      SumSplit(c', ks, k);
      SumFrame(c, c', ks - {k});
    }
  }

  /** Which key a request is counted under. */
  function Counted(c: Counter, r: Request): Key {
    var k := KeyOf(r);
    if k in c || |c| < MAX_KEYS then k else (OTHER, k.1)
  }

  lemma IncrementAddsOne(c: Counter, c': Counter, k: Key, ks: set<Key>)
    requires ks <= c.Keys && (k in c ==> k in ks) && c' == c[k := Count(c, k) + 1]
    ensures Sum(c', ks + {k}) == Sum(c, ks) + 1
  {
    var rest := ks - {k};
    SumSplit(c', ks + {k}, k);
    assert ks + {k} - {k} == rest;
    SumFrame(c, c', rest);
    if k in c {
      SumSplit(c, ks, k);
    } else {
      assert rest == ks;
    }
  }

  lemma RecordIsIncrement(c: Counter, r: Request)
    ensures Record(c, r) == c[Counted(c, r) := Count(c, Counted(c, r)) + 1]
    ensures Counted(c, r).1 == KeyOf(r).1
  {
  }

  lemma RecordAddsOne(c: Counter, r: Request, b: Bucket)
    ensures Sum(Record(c, r), KeysIn(Record(c, r), b)) == Sum(c, KeysIn(c, b)) + if KeyOf(r).1 == b then 1 else 0
  {
    hide Record, Counted, Sum, KeyOf;
    RecordIsIncrement(c, r);
    var (c', k, ks) := (Record(c, r), Counted(c, r), KeysIn(c, b));
    if k.1 == b {
      assert KeysIn(c', b) == ks + {k};
      IncrementAddsOne(c, c', k, ks);
    } else {
      assert KeysIn(c', b) == ks;
      SumFrame(c, c', ks);
    }
  }

  /** Per status bucket the counters add up to the number of requests. */
  lemma {:induction false} TotalsAreConserved(requests: seq<Request>, b: Bucket)
    ensures Sum(Run(requests), KeysIn(Run(requests), b)) == InBucket(requests, b)
  {
    if requests != [] {
      TotalsAreConserved(requests[..|requests| - 1], b);
      RecordAddsOne(Run(requests[..|requests| - 1]), requests[|requests| - 1], b);
    }
  }

  // --------------------------------------------------- the running program

  lemma RunNext(requests: seq<Request>, r: Request)
    ensures Run(requests + [r]) == Record(Run(requests), r)
  {
    assert (requests + [r])[..|requests|] == requests;
  }

  class RequestCounter {
    var counter: Counter
    /** Every request so far. */
    ghost var requests: seq<Request>

    ghost predicate Valid()
      reads this
    {
      counter == Run(requests)
    }

    constructor ()
      ensures Valid() && requests == []
    {
      counter, requests := map[], [];
    }

    method RecordRequest(route: string, status: int)
      requires Valid()
      modifies this
      ensures Valid() && requests == old(requests) + [Request(route, status)]
    {
      hide Run;
      var key := (if route == "" then OTHER else route, StatusBucket(status));
      if key in counter {
        counter := counter[key := counter[key] + 1];
      } else if |counter| < MAX_KEYS {
        counter := counter[key := 1];
      } else {
        var overflow := (OTHER, key.1);
        counter := counter[overflow := Count(counter, overflow) + 1];
      }
      RunNext(requests, Request(route, status));
      requests := requests + [Request(route, status)];
    }

    /** What a scrape reads off one route: its exact count once it has a counter of its own. */
    method Scrape(route: string, bucket: Bucket) returns (count: nat)
      requires Valid()
      ensures route != "_other_" && (route, bucket) in counter ==> count == Exact(requests, (route, bucket))
      ensures route == "_other_" ==> count == Remainder(requests, counter, bucket)
      ensures |counter| <= 2004
    {
      count := Count(counter, (route, bucket));
      SizeBound(requests);
      if route == OTHER {
        OtherIsTheRemainder(requests, bucket);
      } else {
        OwnCountersAreExact(requests, (route, bucket));
      }
    }
  }
}
