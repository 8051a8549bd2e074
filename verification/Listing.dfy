/** Sorted, limited selection over a strict total order, and what may be left
    out of the rows without changing it.  `ORDER BY ... LIMIT n` of both stores
    and the trim of their histories are selections of this kind. */
module Listing {
  /** The pairs (i, j) where row i is listed before row j. */
  type Order = set<(nat, nat)>

  ghost predicate StrictTotal(o: Order, s: set<nat>) {
    && (forall i, j :: i in s && j in s && i != j ==> ((i, j) in o) != ((j, i) in o))
    && (forall i, j, k :: i in s && j in s && k in s && (i, j) in o && (j, k) in o ==> (i, k) in o)
  }

  predicate IsFirst(o: Order, s: set<nat>, m: nat) {
    m in s && forall j :: j in s && j != m ==> (m, j) in o
  }

  lemma {:induction false} FirstExists(o: Order, s: set<nat>) returns (m: nat)
    requires StrictTotal(o, s) && s != {}
    ensures IsFirst(o, s, m)
    decreases |s|
  {
    var x :| x in s;
    if s == {x} {
      m := x;
    } else {
      assert s == s - {x} + {x};
      var n := FirstExists(o, s - {x});
      m := if (x, n) in o then x else n;
    }
  }

  /** The row listed first. */
  function First(o: Order, s: set<nat>): (m: nat)
    requires StrictTotal(o, s) && s != {}
    ensures IsFirst(o, s, m)
  {
    assert exists m :: m in s && IsFirst(o, s, m) by {
      var m := FirstExists(o, s);
    }
    var m :| m in s && IsFirst(o, s, m);
    m
  }

  lemma IsFirstIs(o: Order, s: set<nat>, m: nat)
    requires StrictTotal(o, s) && IsFirst(o, s, m)
    ensures First(o, s) == m
  {
  }

  /** The first n rows of `s`, in order. */
  function Select(o: Order, s: set<nat>, n: nat): (r: seq<nat>)
    requires StrictTotal(o, s)
    ensures forall k :: 0 <= k < |r| ==> r[k] in s
    decreases n
  {
    if n == 0 || s == {} then []
    else [First(o, s)] + Select(o, s - {First(o, s)}, n - 1)
  }

  /** No row twice, in order, as many as there are up to n, and whatever is
      left out comes after all of them. */
  lemma {:induction false} SelectIsTop(o: Order, s: set<nat>, n: nat)
    requires StrictTotal(o, s)
    ensures var r := Select(o, s, n);
            && |r| == (if n <= |s| then n else |s|)
            && (forall j, k :: 0 <= j < k < |r| ==> (r[j], r[k]) in o && r[j] != r[k])
            && (forall i, k :: i in s && i !in r && 0 <= k < |r| ==> (r[k], i) in o)
    decreases n
  {
    if n != 0 && s != {} {
      SelectIsTop(o, s - {First(o, s)}, n - 1);
    }
  }

  lemma {:induction false} SelectLonger(o: Order, s: set<nat>, n: nat, n': nat)
    requires StrictTotal(o, s) && n <= n'
    ensures forall i :: i in Select(o, s, n) ==> i in Select(o, s, n')
    decreases n
  {
    if n != 0 && s != {} {
      SelectLonger(o, s - {First(o, s)}, n - 1, n' - 1);
    }
  }

  /** A row among the first n of `s` is among the first n of any part of `s` it belongs to. */
  lemma {:induction false} SelectInPart(o: Order, s: set<nat>, part: set<nat>, n: nat, i: nat)
    requires StrictTotal(o, s) && part <= s && i in part && i in Select(o, s, n)
    ensures i in Select(o, part, n)
    decreases n
  {
    var m := First(o, s);
    if m in part {
      IsFirstIs(o, part, m);
      if i != m { SelectInPart(o, s - {m}, part - {m}, n - 1, i); }
    } else {
      SelectInPart(o, s - {m}, part, n - 1, i);
      SelectLonger(o, part, n - 1, n);
    }
  }

  /** Rows outside the first n may be missing without a trace. */
  lemma {:induction false} SelectSandwich(o: Order, s: set<nat>, part: set<nat>, n: nat)
    requires StrictTotal(o, s) && part <= s && forall i :: i in Select(o, s, n) ==> i in part
    ensures Select(o, part, n) == Select(o, s, n)
    decreases n
  {
    if n != 0 && s != {} {
      var m := First(o, s);
      assert Select(o, s, n)[0] == m;
      IsFirstIs(o, part, m);
      var rest := Select(o, s - {m}, n - 1);
      assert Select(o, s, n) == [m] + rest;
      forall i | i in rest ensures i in part - {m} {
        assert i in [m] + rest;
      }
      SelectSandwich(o, s - {m}, part - {m}, n - 1);
    }
  }

  /** The selection depends only on how the selected rows compare. */
  lemma {:induction false} SelectAgrees(o: Order, o': Order, s: set<nat>, n: nat)
    requires StrictTotal(o, s) && StrictTotal(o', s)
    requires forall i, j :: i in s && j in s && i != j ==> ((i, j) in o <==> (i, j) in o')
    ensures Select(o, s, n) == Select(o', s, n)
    decreases n
  {
    if n != 0 && s != {} {
      IsFirstIs(o', s, First(o, s));
      SelectAgrees(o, o', s - {First(o, s)}, n - 1);
    }
  }

  ghost function Image(origin: map<nat, nat>, s: set<nat>): set<nat>
    requires s <= origin.Keys
  {
    set i | i in s :: origin[i]
  }

  /** `origin` renames the rows `s` without changing how they compare. */
  ghost predicate Embeds(origin: map<nat, nat>, o: Order, o': Order, s: set<nat>) {
    && s <= origin.Keys
    && (forall i, j :: i in s && j in s && i != j ==> origin[i] != origin[j])
    && (forall i, j :: i in s && j in s && i != j ==> ((i, j) in o <==> (origin[i], origin[j]) in o'))
  }

  /** Selection commutes with renaming the rows. */
  lemma {:induction false} SelectRenamed(o: Order, o': Order, origin: map<nat, nat>, s: set<nat>, n: nat)
    requires Embeds(origin, o, o', s) && StrictTotal(o, s) && StrictTotal(o', Image(origin, s))
    ensures |Select(o, s, n)| == |Select(o', Image(origin, s), n)|
    ensures forall k :: 0 <= k < |Select(o, s, n)| ==> origin[Select(o, s, n)[k]] == Select(o', Image(origin, s), n)[k]
    decreases n
  {
    if n != 0 && s != {} {
      var m := First(o, s);
      assert origin[m] in Image(origin, s);
      IsFirstIs(o', Image(origin, s), origin[m]);
      assert Image(origin, s - {m}) == Image(origin, s) - {origin[m]};
      SelectRenamed(o, o', origin, s - {m}, n - 1);
    }
  }
}
