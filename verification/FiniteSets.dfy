/** Counting sets of natural numbers below a bound. */
module FiniteSets {

  ghost function Below(n: nat): (s: set<nat>)
    ensures forall x: nat :: x in s <==> x < n
    ensures |s| == n
  {
    if n == 0 then {} else Below(n - 1) + {n - 1}
  }

  /** A set of numbers below n has at most n members; with n it has them all, with fewer it
      misses one. */
  lemma FullCount(s: set<nat>, n: nat)
    requires forall x :: x in s ==> x < n
    ensures |s| <= n
    ensures |s| == n ==> forall x: nat :: x < n ==> x in s
    ensures |s| < n ==> exists x: nat :: x < n && x !in s
  {
    assert s <= Below(n);
    assert Below(n) == s + (Below(n) - s);
    if |s| < n {
      var x :| x in Below(n) - s;
    }
  }
}
