/** Finite sums over sequences of reals and the telescoping argument that every
    conservation law of the project reduces to. */
module Sums {

  function Sum(s: seq<real>): real {
    if s == [] then 0.0 else Sum(s[..|s|-1]) + s[|s|-1]
  }

  /** If every entry changes by an inflow `f[i]` minus an outflow `f[i+1]`, the
      total changes by the first inflow minus the last outflow only. */
  lemma {:induction false} TelescopingSum(s: seq<real>, s': seq<real>, f: seq<real>)
    requires |s'| == |s| && |f| == |s| + 1
    requires forall i :: 0 <= i < |s| ==> s'[i] == s[i] + f[i] - f[i+1]
    ensures Sum(s') == Sum(s) + f[0] - f[|s|]
  {
    if s != [] {
      var n := |s| - 1;
      TelescopingSum(s[..n], s'[..n], f[..n+1]);
    }
  }

  /** The sum of q over the entries lo .. hi-1. */
  function SumOver<C>(u: seq<C>, q: C -> real, lo: nat, hi: nat): real
    requires lo <= hi <= |u|
  {
    if lo == hi then 0.0 else SumOver(u, q, lo, hi - 1) + q(u[hi-1])
  }

  /** If each interior entry changes by a flow through its two faces, their total changes by
      the flow through the two outermost faces. */
  lemma {:induction false} InteriorTelescopes<C>(u: seq<C>, v: seq<C>, q: C -> real, g: (C, C) -> real, k: nat)
    requires |u| == |v| && 1 <= k < |u|
    requires forall i :: 1 <= i < |u| - 1 ==> q(v[i]) == q(u[i]) + g(u[i-1], u[i]) - g(u[i], u[i+1])
    ensures SumOver(v, q, 1, k) == SumOver(u, q, 1, k) + g(u[0], u[1]) - g(u[k-1], u[k])
  {
    if k > 1 {
      InteriorTelescopes(u, v, q, g, k - 1);
      var i := k - 1;
      assert q(v[i]) == q(u[i]) + g(u[i-1], u[i]) - g(u[i], u[i+1]);
    }
  }

  lemma ProductNonNegative(a: real, b: real)
    requires a >= 0.0 && b >= 0.0
    ensures a * b >= 0.0
  {}

  lemma ProductPositive(a: real, b: real)
    requires a > 0.0 && b > 0.0
    ensures a * b > 0.0
  {}
}
