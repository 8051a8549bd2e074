/** Facts about finite sets that several counting arguments share. */
module FiniteSets {
  lemma SubsetSize<T>(a: set<T>, b: set<T>)
    requires a <= b
    ensures |a| <= |b|
  {
    assert b == a + (b - a);
  }

  lemma {:induction false} Extremes(s: set<nat>) returns (lo: nat, hi: nat)
    requires s != {}
    ensures lo in s && hi in s && forall k :: k in s ==> lo <= k <= hi
    decreases |s|
  {
    var x :| x in s;
    if s == {x} {
      lo, hi := x, x;
    } else {
      assert s == s - {x} + {x};
      lo, hi := Extremes(s - {x});
      lo, hi := if x < lo then x else lo, if x > hi then x else hi;
    }
  }
}
