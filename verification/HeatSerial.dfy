/** The serial base line of the 1D heat solver: the specification that all the
    partitioned, futurised and distributed forms are proved against. */
module HeatSerial {
  import opened Sums

  /** The heat operator; `c` is the coefficient k*dt/(dx*dx). */
  function Heat(c: real, left: real, middle: real, right: real): real {
    middle + c * (left - 2.0 * middle + right)
  }

  function Coefficient(k: real, dt: real, dx: real): real
    requires dx != 0.0
  {
    k * dt / (dx * dx)
  }

  /** A three-point update rule: left, middle, right.  The refinement proofs hold for every
      rule on reals; the laws of heat use the heat operator.  The futurised solvers run the
      same ring on whole partitions, hence the type parameter. */
  type Rule<!T> = (T, T, T) -> T
  type Operator = Rule<real>

  function HeatOp(c: real): Operator {
    (left, middle, right) => Heat(c, left, middle, right)
  }

  /** Cyclic neighbour index. */
  function Idx(i: nat, dir: int, size: nat): nat
    requires i < size && (dir == -1 || dir == 1)
    ensures Idx(i, dir, size) < size
  {
    if i == 0 && dir == -1 then size - 1
    else if i == size - 1 && dir == 1 then 0
    else i + dir
  }

  /** Initial conditions f(0, i) = i. */
  function Ramp(n: nat): (u: seq<real>)
    ensures |u| == n
  {
    seq(n, i => i as real)
  }

  /** One time step on a ring of points. */
  function SerialStep<T>(op: Rule<T>, u: seq<T>): (v: seq<T>)
    ensures |v| == |u|
  {
    seq(|u|, i requires 0 <= i < |u| => op(u[Idx(i, -1, |u|)], u[i], u[Idx(i, 1, |u|)]))
  }

  lemma StepAt<T>(op: Rule<T>, u: seq<T>, i: nat)
    requires i < |u|
    ensures SerialStep(op, u)[i] == op(u[Idx(i, -1, |u|)], u[i], u[Idx(i, 1, |u|)])
  {}

  function SerialRun<T>(op: Rule<T>, u: seq<T>, steps: nat): (v: seq<T>)
    ensures |v| == |u|
  {
    if steps == 0 then u else SerialStep(op, SerialRun(op, u, steps - 1))
  }

  lemma {:induction false} SerialRunCompose<T>(op: Rule<T>, u: seq<T>, s: nat, t: nat)
    ensures SerialRun(op, SerialRun(op, u, s), t) == SerialRun(op, u, s + t)
  {
    if t > 0 {
      SerialRunCompose(op, u, s, t - 1);
    }
  }

  // ---------------------------------------------------------------- the solver

  /** The time loop over two buffers that swap roles.  With fewer than two points
      the loop body would read outside the buffers. */
  method DoWork(k: real, dt: real, dx: real, nx: nat, nt: nat) returns (solution: array<real>)
    requires dx != 0.0
    requires nx >= 2 || nt == 0
    ensures solution[..] == SerialRun(HeatOp(Coefficient(k, dt, dx)), Ramp(nx), nt)
    ensures forall i :: nt <= i < nx - nt ==> solution[i] == i as real
  {
    var op := HeatOp(Coefficient(k, dt, dx));
    var u0, u1 := new real[nx], new real[nx];
    var i := 0;
    while i != nx
      invariant 0 <= i <= nx
      invariant forall j :: 0 <= j < i ==> u0[j] == j as real
    {
      u0[i] := i as real;
      i := i + 1;
    }
    assert u0[..] == Ramp(nx);
    var t := 0;
    while t != nt
      invariant 0 <= t <= nt
      invariant (if t % 2 == 0 then u0 else u1)[..] == SerialRun(op, Ramp(nx), t)
    {
      var current := if t % 2 == 0 then u0 else u1;
      var next := if (t + 1) % 2 == 0 then u0 else u1;
      StepInto(op, current, next);
      t := t + 1;
    }
    solution := if nt % 2 == 0 then u0 else u1;
    forall i | nt <= i < nx - nt ensures solution[i] == i as real {
      RampStays(Coefficient(k, dt, dx), nx, nt, i);
    }
  }

  /** The body of the time loop: both ring ends are treated apart. */
  method StepInto(op: Operator, current: array<real>, next: array<real>)
    requires current != next && current.Length == next.Length >= 2
    modifies next
    ensures next[..] == SerialStep(op, current[..])
  {
    var nx := current.Length;
    ghost var u, target := current[..], SerialStep(op, current[..]);
    StepAt(op, u, 0);
    next[0] := op(current[nx-1], current[0], current[1]);
    var i := 1;
    while i != nx - 1
      invariant 1 <= i <= nx - 1
      invariant forall j :: 0 <= j < i ==> next[j] == target[j]
    {
      StepAt(op, u, i);
      next[i] := op(current[i-1], current[i], current[i+1]);
      i := i + 1;
    }
    StepAt(op, u, nx - 1);
    next[nx-1] := op(current[nx-2], current[nx-1], current[0]);
  }

  // -------------------------------------------------- exact solutions away from the seam

  /** At point i the operator adds e, also after the values around it have been lifted by s. */
  ghost predicate RaisesAt(op: Operator, u: seq<real>, e: real, i: int, s: real) {
    0 < i < |u| - 1 ==> op(u[i-1] + s, u[i] + s, u[i+1] + s) == u[i] + s + e
  }

  function Times(t: nat, e: real): real {
    if t == 0 then 0.0 else Times(t - 1, e) + e
  }

  lemma {:induction false} TimesIs(t: nat, e: real)
    ensures Times(t, e) == t as real * e
  {
    if t > 0 {
      TimesIs(t - 1, e);
      assert t as real * e == (t - 1) as real * e + e;
    }
  }

  /** Points that are raised by the same everywhere rise steadily until the seam is felt. */
  lemma {:induction false} SteadyRise(op: Operator, u: seq<real>, e: real, t: nat, i: nat)
    requires t <= i < |u| - t && forall j, s {:trigger RaisesAt(op, u, e, j, s)} :: RaisesAt(op, u, e, j, s)
    ensures SerialRun(op, u, t)[i] == u[i] + Times(t, e)
  {
    if t > 0 {
      SteadyRise(op, u, e, t - 1, i - 1);
      SteadyRise(op, u, e, t - 1, i);
      SteadyRise(op, u, e, t - 1, i + 1);
      StepAt(op, SerialRun(op, u, t - 1), i);
      assert RaisesAt(op, u, e, i, Times(t - 1, e));
    }
  }

  /** The operator adds c times the second difference, wherever the values have been lifted to. */
  lemma HeatRaises(c: real, l: real, m: real, r: real, s: real)
    ensures HeatOp(c)(l + s, m + s, r + s) == m + s + c * (l - 2.0 * m + r)
  {
    assert l + s - 2.0 * (m + s) + (r + s) == l - 2.0 * m + r;
  }

  /** Points that bend evenly: the second difference quotient is w everywhere, as it is for the
      values of (w/2)*x*x + b*x + d at points of spacing dx. */
  ghost predicate Bends(u: seq<real>, dx: real, w: real) {
    forall i :: 0 < i < |u| - 1 ==> u[i-1] - 2.0 * u[i] + u[i+1] == w * (dx * dx)
  }

  lemma QuadraticBends(u: seq<real>, a: real, b: real, d: real)
    requires forall i :: 0 <= i < |u| ==> u[i] == a * (i * i) as real + b * i as real + d
    ensures Bends(u, 1.0, 2.0 * a)
  {
    forall i | 0 < i < |u| - 1 ensures u[i-1] - 2.0 * u[i] + u[i+1] == 2.0 * a * (1.0 * 1.0) {
      SecondDifference(a, b, i);
    }
  }

  lemma SecondDifference(a: real, b: real, i: int)
    ensures a * ((i - 1) * (i - 1)) as real - 2.0 * (a * (i * i) as real) + a * ((i + 1) * (i + 1)) as real == 2.0 * a
    ensures b * (i - 1) as real - 2.0 * (b * i as real) + b * (i + 1) as real == 0.0
  {
    var x, y, z := ((i - 1) * (i - 1)) as real, (i * i) as real, ((i + 1) * (i + 1)) as real;
    assert (i - 1) * (i - 1) + (i + 1) * (i + 1) == 2 * (i * i) + 2;
    assert x - 2.0 * y + z == 2.0;
    assert a * x - 2.0 * (a * y) + a * z == a * (x - 2.0 * y + z);
    assert b * (i - 1) as real == b * i as real - b && b * (i + 1) as real == b * i as real + b;
  }

  /** The solver follows the heat equation u_t = k*u_xx: values that bend evenly rise by k*w per
      unit of time, at every point that the seam of the ring has not reached. */
  lemma FollowsHeatEquation(k: real, dt: real, dx: real, u: seq<real>, w: real, t: nat, i: nat)
    requires dx != 0.0 && Bends(u, dx, w) && t <= i < |u| - t
    ensures SerialRun(HeatOp(Coefficient(k, dt, dx)), u, t)[i] == u[i] + t as real * (k * dt * w)
  {
    var op, e := HeatOp(Coefficient(k, dt, dx)), k * dt * w;
    RiseIs(k, dt, dx, w);
    forall j, s ensures RaisesAt(op, u, e, j, s) {
      if 0 < j < |u| - 1 {
        HeatRaises(Coefficient(k, dt, dx), u[j-1], u[j], u[j+1], s);
      }
    }
    SteadyRise(op, u, e, t, i);
    TimesIs(t, e);
  }

  lemma RiseIs(k: real, dt: real, dx: real, w: real)
    requires dx != 0.0
    ensures Coefficient(k, dt, dx) * (w * (dx * dx)) == k * dt * w
  {
    CoefficientTimes(k, dt, dx);
    Regroup(Coefficient(k, dt, dx), w, dx * dx);
  }

  lemma Regroup(c: real, a: real, b: real)
    ensures c * (a * b) == a * (c * b)
  {}

  lemma CoefficientTimes(k: real, dt: real, dx: real)
    requires dx != 0.0
    ensures Coefficient(k, dt, dx) * (dx * dx) == k * dt
  {
    if dx > 0.0 {
      ProductPositive(dx, dx);
    } else {
      ProductPositive(-dx, -dx);
    }
  }

  /** The initial ramp does not change until the seam is felt. */
  lemma RampStays(c: real, n: nat, t: nat, i: nat)
    requires t <= i < n - t
    ensures SerialRun(HeatOp(c), Ramp(n), t)[i] == i as real
  {
    var op, u := HeatOp(c), Ramp(n);
    forall j, s ensures RaisesAt(op, u, 0.0, j, s) {
      if 0 < j < n - 1 {
        HeatRaises(c, u[j-1], u[j], u[j+1], s);
      }
    }
    SteadyRise(op, u, 0.0, t, i);
    TimesIs(t, 0.0);
  }

  // ------------------------------------------------------ conservation of heat

  /** A rule in flux form moves g(a, b) from each point to its right neighbour. */
  ghost predicate FluxForm(op: Operator, g: (real, real) -> real) {
    forall l, m, r :: op(l, m, r) == m + g(l, m) - g(m, r)
  }

  /** The flows into points 0 .. |u| of the ring; the last one is the first again. */
  ghost function Flow(g: (real, real) -> real, u: seq<real>): (f: seq<real>)
    requires u != []
    ensures |f| == |u| + 1
  {
    var n := |u|;
    seq(n + 1, i requires 0 <= i <= n => g(u[if i == 0 then n - 1 else i - 1], u[if i == n then 0 else i]))
  }

  lemma FlowAt(g: (real, real) -> real, u: seq<real>, i: nat)
    requires i < |u|
    ensures Flow(g, u)[i] == g(u[Idx(i, -1, |u|)], u[i])
    ensures Flow(g, u)[i+1] == g(u[i], u[Idx(i, 1, |u|)])
    ensures Flow(g, u)[0] == Flow(g, u)[|u|]
  {}

  /** A point changes by what flows in from the left minus what flows out to the right. */
  lemma StepFlows(op: Operator, g: (real, real) -> real, u: seq<real>, i: nat)
    requires FluxForm(op, g) && i < |u|
    ensures SerialStep(op, u)[i] == u[i] + Flow(g, u)[i] - Flow(g, u)[i+1]
  {
    StepAt(op, u, i);
    FlowAt(g, u, i);
    var l, m, r := u[Idx(i, -1, |u|)], u[i], u[Idx(i, 1, |u|)];
    assert op(l, m, r) == m + g(l, m) - g(m, r);
  }

  lemma StepConserves(op: Operator, g: (real, real) -> real, u: seq<real>)
    requires FluxForm(op, g)
    ensures Sum(SerialStep(op, u)) == Sum(u)
  {
    if u == [] {
      assert SerialStep(op, u) == u;
    } else {
      var v, f := SerialStep(op, u), Flow(g, u);
      forall i | 0 <= i < |u| ensures v[i] == u[i] + f[i] - f[i+1] {
        StepFlows(op, g, u, i);
      }
      FlowAt(g, u, 0);
      TelescopingSum(u, v, f);
    }
  }

  lemma {:induction false} RunConserves(op: Operator, g: (real, real) -> real, u: seq<real>, t: nat)
    requires FluxForm(op, g)
    ensures Sum(SerialRun(op, u, t)) == Sum(u)
  {
    if t > 0 {
      RunConserves(op, g, u, t - 1);
      StepConserves(op, g, SerialRun(op, u, t - 1));
    }
  }

  /** The total of all points never changes. */
  lemma HeatIsConserved(c: real, u: seq<real>, t: nat)
    ensures Sum(SerialRun(HeatOp(c), u, t)) == Sum(u)
  {
    var g := (a: real, b: real) => c * (a - b);
    forall l, m, r ensures HeatOp(c)(l, m, r) == m + g(l, m) - g(m, r) {}
    RunConserves(HeatOp(c), g, u, t);
  }

  // --------------------------------------------------------- maximum principle

  ghost predicate Within(u: seq<real>, lo: real, hi: real) {
    forall i :: 0 <= i < |u| ==> lo <= u[i] <= hi
  }

  lemma HeatWithin(c: real, l: real, m: real, r: real, lo: real, hi: real)
    requires 0.0 <= c <= 0.5
    requires lo <= l <= hi && lo <= m <= hi && lo <= r <= hi
    ensures lo <= Heat(c, l, m, r) <= hi
  {
    var d := 1.0 - 2.0 * c;
    ProductNonNegative(d, m - lo); ProductNonNegative(d, hi - m);
    ProductNonNegative(c, l - lo); ProductNonNegative(c, hi - l);
    ProductNonNegative(c, r - lo); ProductNonNegative(c, hi - r);
    assert Heat(c, l, m, r) == lo + d * (m - lo) + c * (l - lo) + c * (r - lo);
    assert Heat(c, l, m, r) == hi - d * (hi - m) - c * (hi - l) - c * (hi - r);
  }

  lemma {:induction false} RunWithin(c: real, u: seq<real>, t: nat, lo: real, hi: real)
    requires 0.0 <= c <= 0.5 && Within(u, lo, hi)
    ensures Within(SerialRun(HeatOp(c), u, t), lo, hi)
  {
    if t > 0 {
      var v := SerialRun(HeatOp(c), u, t - 1);
      RunWithin(c, u, t - 1, lo, hi);
      forall i | 0 <= i < |v| ensures lo <= SerialStep(HeatOp(c), v)[i] <= hi {
        HeatWithin(c, v[Idx(i, -1, |v|)], v[i], v[Idx(i, 1, |v|)], lo, hi);
      }
    }
  }

  ghost predicate KeepsRange(c: real, n: nat) {
    forall u: seq<real>, t: nat, lo, hi | |u| == n && Within(u, lo, hi) :: Within(SerialRun(HeatOp(c), u, t), lo, hi)
  }

  /** On any ring of at least two points, every run stays between the initial minimum
      and maximum exactly when the coefficient lies in [0, 1/2]: a single spike leaves
      the range in one step otherwise. */
  lemma MaximumPrinciple(c: real, n: nat)
    requires n >= 2
    ensures KeepsRange(c, n) <==> 0.0 <= c <= 0.5
  {
    if 0.0 <= c <= 0.5 {
      forall u: seq<real>, t: nat, lo, hi | |u| == n && Within(u, lo, hi)
        ensures Within(SerialRun(HeatOp(c), u, t), lo, hi)
      {
        RunWithin(c, u, t, lo, hi);
      }
    } else {
      var spike := seq(n, i => if i == 0 then 1.0 else 0.0);
      assert Within(spike, 0.0, 1.0);
      assert SerialRun(HeatOp(c), spike, 1) == SerialStep(HeatOp(c), SerialRun(HeatOp(c), spike, 0));
      StepAt(HeatOp(c), spike, 0);
      assert SerialStep(HeatOp(c), spike)[0] == Heat(c, 0.0, 1.0, 0.0) == 1.0 - 2.0 * c;
      assert !Within(SerialRun(HeatOp(c), spike, 1), 0.0, 1.0);
    }
  }
}
