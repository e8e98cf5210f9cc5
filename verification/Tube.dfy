/** A row of cells with fixed ends, each interior cell advanced from itself and its two
    neighbours by a rule that may differ from step to step. */
module Tube {
  import opened Sums

  type Rule<!C> = (C, C, C) -> C

  /** The rule of each step, and the state the cells start in and the ends keep. */
  datatype Scheme<!C> = Scheme(rule: nat -> Rule<C>, init: nat -> C, nx: nat)

  function NextLayer<C>(s: Scheme<C>, t: nat, u: seq<C>): (v: seq<C>)
    requires |u| == s.nx
    ensures |v| == s.nx
  {
    seq(s.nx, i requires 0 <= i < s.nx =>
      if i == 0 || i == s.nx - 1 then s.init(i) else s.rule(t)(u[i-1], u[i], u[i+1]))
  }

  /** The tube after t steps. */
  function Layer<C>(s: Scheme<C>, t: nat): (u: seq<C>)
    ensures |u| == s.nx
  {
    if t == 0 then seq(s.nx, i requires 0 <= i => s.init(i)) else NextLayer(s, t, Layer(s, t - 1))
  }

  // --------------------------------------------------------------- conservation

  /** A quantity that changes by a flow g through the two faces of a cell. */
  ghost predicate Flows<C(!new)>(rule: Rule<C>, q: C -> real, g: (C, C) -> real) {
    forall l, m, r {:trigger rule(l, m, r)} :: q(rule(l, m, r)) == q(m) + g(l, m) - g(m, r)
  }

  /** The amount of a quantity in the interior. */
  function Amount<C>(q: C -> real, u: seq<C>): real
    requires |u| >= 2
  {
    SumOver(u, q, 1, |u| - 1)
  }

  /** What enters the interior through the two outermost faces. */
  function Inflow<C>(g: (C, C) -> real, u: seq<C>): real
    requires |u| >= 2
  {
    g(u[0], u[1]) - g(u[|u|-2], u[|u|-1])
  }

  lemma StepConserves<C(!new)>(s: Scheme<C>, t: nat, q: C -> real, g: (C, C) -> real, u: seq<C>)
    requires |u| == s.nx >= 2 && Flows(s.rule(t), q, g)
    ensures Amount(q, NextLayer(s, t, u)) == Amount(q, u) + Inflow(g, u)
  {
    var v := NextLayer(s, t, u);
    forall i | 1 <= i < s.nx - 1 ensures q(v[i]) == q(u[i]) + g(u[i-1], u[i]) - g(u[i], u[i+1]) {
      assert v[i] == s.rule(t)(u[i-1], u[i], u[i+1]);
    }
    InteriorTelescopes(u, v, q, g, s.nx - 1);
  }

  /** The net amount that entered in the first t steps. */
  function Entered<C>(s: Scheme<C>, g: nat -> (C, C) -> real, t: nat): real
    requires s.nx >= 2
  {
    if t == 0 then 0.0 else Entered(s, g, t - 1) + Inflow(g(t), Layer(s, t - 1))
  }

  lemma {:induction false} RunConserves<C(!new)>(s: Scheme<C>, q: C -> real, g: nat -> (C, C) -> real, t: nat)
    requires s.nx >= 2 && forall k: nat :: Flows(s.rule(k), q, g(k))
    ensures Amount(q, Layer(s, t)) == Amount(q, Layer(s, 0)) + Entered(s, g, t)
  {
    if t > 0 {
      RunConserves(s, q, g, t - 1);
      StepConserves(s, t, q, g(t), Layer(s, t - 1));
    }
  }

  // ----------------------------------------------------------------- invariants

  ghost predicate AllGood<C>(good: C -> bool, u: seq<C>) {
    forall i :: 0 <= i < |u| ==> good(u[i])
  }

  /** Each interior cell of layer t meets a side condition of the step that leads from it. */
  ghost predicate Guarded<C>(s: Scheme<C>, guard: nat -> (C, C, C) -> bool, t: nat) {
    var u := Layer(s, t);
    forall i :: 1 <= i < s.nx - 1 ==> guard(t + 1)(u[i-1], u[i], u[i+1])
  }

  lemma {:induction false} RunKeeps<C(!new)>(s: Scheme<C>, good: C -> bool, guard: nat -> (C, C, C) -> bool, t: nat)
    requires forall i: nat :: good(s.init(i))
    requires forall k: nat, l, m, r {:trigger s.rule(k)(l, m, r)} ::
      good(l) && good(m) && good(r) && guard(k)(l, m, r) ==> good(s.rule(k)(l, m, r))
    requires forall k: nat :: k < t ==> Guarded(s, guard, k)
    ensures AllGood(good, Layer(s, t))
  {
    if t > 0 {
      var k := t - 1;
      RunKeeps(s, good, guard, k);
      var u := Layer(s, k);
      assert Guarded(s, guard, k);
      forall i | 0 <= i < s.nx ensures good(NextLayer(s, t, u)[i]) {
        if 1 <= i < s.nx - 1 {
          assert good(u[i-1]) && good(u[i]) && good(u[i+1]) && guard(t)(u[i-1], u[i], u[i+1]);
        }
      }
    }
  }
}
