/** The 1D hydrodynamics solver: first-order upwind fluxes on a tube of cells with fixed ends.
    Cell quantities change by what passes the two faces, so they are conserved, and densities
    stay positive under a bound on the outflow. */
module Upwind {
  import opened Sums
  import opened Tube

  datatype Cell = Cell(rho: real, mom: real, etot: real, tau: real)

  /** The fluid and the grid.  `pow` is the power function, of which nothing is assumed. */
  datatype Fluid = Fluid(gamma: real, pow: (real, real) -> real, dx: real, xMin: real, nx: nat) {
    predicate Valid() { gamma != 0.0 && dx > 0.0 && nx >= 1 }
  }

  /** Division; what the code makes of a zero density is not modelled. */
  function Over(a: real, b: real): real {
    if b == 0.0 then 0.0 else a / b
  }

  function Abs(x: real): real { if x < 0.0 then -x else x }

  function Kinetic(c: Cell): real {
    Over(0.5 * c.mom * c.mom, c.rho)
  }

  function Internal(c: Cell): real {
    c.etot - Kinetic(c)
  }

  function Pressure(f: Fluid, c: Cell): real {
    if Abs(Internal(c)) > 0.001 * c.etot then (f.gamma - 1.0) * Internal(c)
    else (f.gamma - 1.0) * f.pow(c.tau, f.gamma)
  }

  /** The Sod shock tube. */
  function InitialSod(f: Fluid, location: nat): (c: Cell)
    requires f.Valid()
    ensures c.rho > 0.0
  {
    var x := (location as real - 0.5) * f.dx + f.xMin;
    var e := if x < -0.1 then 2.5 else 0.25;
    Cell(if x < -0.1 then 1.0 else 0.125, 0.0, e, f.pow(e, 1.0 / f.gamma))
  }

  // ----------------------------------------------------------------- one cell

  function FaceVelocity(l: Cell, r: Cell): real {
    Over(l.mom + r.mom, l.rho + r.rho)
  }

  /** What a flow at speed v carries of a density q through a face. */
  function Share(q: real, v: real, dt: real, dx: real): real
    requires dx > 0.0
  {
    q * v * dt / dx
  }

  /** The pressure of a cell, as a law. */
  type StateLaw = Cell -> real

  function Law(f: Fluid): StateLaw {
    (c: Cell) => Pressure(f, c)
  }

  /** What a flow at speed v carries of a cell's contents through a face in a time dt. */
  function Carried(p: StateLaw, dt: real, dx: real, c: Cell, v: real): Cell
    requires dx > 0.0
  {
    Cell(Share(c.rho, v, dt, dx), Share(c.mom, v, dt, dx), Share(c.etot + p(c), v, dt, dx), Share(c.tau, v, dt, dx))
  }

  /** What passes the face between two cells, taken from the cell upwind. */
  function Face(p: StateLaw, dt: real, dx: real, l: Cell, r: Cell): Cell
    requires dx > 0.0
  {
    Carried(p, dt, dx, if FaceVelocity(l, r) > 0.0 then l else r, FaceVelocity(l, r))
  }

  /** The cell to the left of a face decides the direction the other way round, and at rest
      takes the other cell: it makes no difference. */
  lemma FaceFromTheLeft(p: StateLaw, dt: real, dx: real, l: Cell, r: Cell)
    requires dx > 0.0
    ensures Face(p, dt, dx, l, r) == Carried(p, dt, dx, if FaceVelocity(l, r) < 0.0 then r else l, FaceVelocity(l, r))
  {
    if FaceVelocity(l, r) == 0.0 {
      AtRest(p, dt, dx, l);
      AtRest(p, dt, dx, r);
    }
  }

  lemma AtRest(p: StateLaw, dt: real, dx: real, c: Cell)
    requires dx > 0.0
    ensures Carried(p, dt, dx, c, 0.0) == Cell(0.0, 0.0, 0.0, 0.0)
  {}

  function Kick(p: real, dt: real, dx: real): real
    requires dx > 0.0
  {
    0.5 * dt * p / dx
  }

  /** The push of the two pressures at a face. */
  function Push(p: StateLaw, dt: real, dx: real, l: Cell, r: Cell): real
    requires dx > 0.0
  {
    Kick(p(l) + p(r), dt, dx)
  }

  /** A cell after one time step: inflow at the left face, outflow at the right face. */
  function Updated(f: Fluid, dt: real, l: Cell, m: Cell, r: Cell): Cell
    requires f.Valid()
  {
    Moved(Law(f), dt, f.dx, l, m, r).(tau := NewTau(f, dt, l, m, r))
  }

  /** The same for any law of the pressure, all quantities carried along. */
  function Moved(p: StateLaw, dt: real, dx: real, l: Cell, m: Cell, r: Cell): Cell
    requires dx > 0.0
  {
    var i, o := Face(p, dt, dx, l, m), Face(p, dt, dx, m, r);
    Cell(m.rho + i.rho - o.rho,
         m.mom + i.mom - o.mom + Push(p, dt, dx, l, m) - Push(p, dt, dx, m, r),
         m.etot + i.etot - o.etot,
         m.tau + i.tau - o.tau)
  }

  /** The entropy variable is computed anew where the internal energy is not small. */
  function NewTau(f: Fluid, dt: real, l: Cell, m: Cell, r: Cell): real
    requires f.Valid()
  {
    if Abs(Internal(m)) > 0.1 * m.etot then f.pow(Internal(m), 1.0 / f.gamma) else Moved(Law(f), dt, f.dx, l, m, r).tau
  }

  lemma KickDifference(dt: real, dx: real, a: real, b: real, c: real)
    requires dx > 0.0
    ensures Kick(a + b, dt, dx) - Kick(b + c, dt, dx) == Kick(a - c, dt, dx)
  {
    assert 0.5 * dt * (a + b) - 0.5 * dt * (b + c) == 0.5 * dt * (a - c);
    QuotientDifference(0.5 * dt * (a + b), 0.5 * dt * (b + c), dx);
  }

  lemma QuotientDifference(a: real, b: real, d: real)
    requires d != 0.0
    ensures a / d - b / d == (a - b) / d
  {}

  function Plus(a: Cell, b: Cell): Cell { Cell(a.rho + b.rho, a.mom + b.mom, a.etot + b.etot, a.tau + b.tau) }
  function Minus(a: Cell, b: Cell): Cell { Cell(a.rho - b.rho, a.mom - b.mom, a.etot - b.etot, a.tau - b.tau) }

  /** The update as the code does it, face by face with a branch for each direction of flow;
      the two branches at a face are taken by different cells, and agree. */
  method Update(f: Fluid, dt: real, left: Cell, middle: Cell, right: Cell) returns (now: Cell)
    requires f.Valid() && left.rho != 0.0 && middle.rho != 0.0 && right.rho != 0.0
    requires left.rho + middle.rho != 0.0 && middle.rho + right.rho != 0.0
    ensures now == Updated(f, dt, left, middle, right)
  {
    KickDifference(dt, f.dx, Pressure(f, left), Pressure(f, middle), Pressure(f, right));
    now := middle;
    var pr, pl, pm := Pressure(f, right), Pressure(f, left), Pressure(f, middle);
    now := Inflow(Law(f), dt, f.dx, now, left, middle, pl, pm);
    now := Outflow(Law(f), dt, f.dx, now, middle, right, pm, pr);
    now := now.(mom := now.mom + Kick(pl - pr, dt, f.dx));
    var internal := middle.etot - Kinetic(middle);
    if Abs(internal) > 0.1 * middle.etot {
      now := now.(tau := f.pow(internal, 1.0 / f.gamma));
    }
  }

  /** The left face: fluid from the cell to the left, or out of this one. */
  method Inflow(p: StateLaw, dt: real, dx: real, was: Cell, left: Cell, middle: Cell, pl: real, pm: real) returns (now: Cell)
    requires dx > 0.0 && left.rho + middle.rho != 0.0 && pl == p(left) && pm == p(middle)
    ensures now == Plus(was, Face(p, dt, dx, left, middle))
  {
    now := was;
    var vl := (left.mom + middle.mom) / (left.rho + middle.rho);
    if vl > 0.0 {
      now := now.(rho := now.rho + Share(left.rho, vl, dt, dx));
      now := now.(mom := now.mom + Share(left.mom, vl, dt, dx));
      now := now.(etot := now.etot + Share(left.etot + pl, vl, dt, dx));
      now := now.(tau := now.tau + Share(left.tau, vl, dt, dx));
    } else {
      now := now.(rho := now.rho + Share(middle.rho, vl, dt, dx));
      now := now.(mom := now.mom + Share(middle.mom, vl, dt, dx));
      now := now.(etot := now.etot + Share(middle.etot + pm, vl, dt, dx));
      now := now.(tau := now.tau + Share(middle.tau, vl, dt, dx));
    }
  }

  /** The right face, with the test of the direction turned round. */
  method Outflow(p: StateLaw, dt: real, dx: real, was: Cell, middle: Cell, right: Cell, pm: real, pr: real) returns (now: Cell)
    requires dx > 0.0 && right.rho + middle.rho != 0.0 && pr == p(right) && pm == p(middle)
    ensures now == Minus(was, Face(p, dt, dx, middle, right))
  {
    FaceFromTheLeft(p, dt, dx, middle, right);
    now := was;
    var vr := (right.mom + middle.mom) / (right.rho + middle.rho);
    if vr < 0.0 {
      now := now.(rho := now.rho - Share(right.rho, vr, dt, dx));
      now := now.(mom := now.mom - Share(right.mom, vr, dt, dx));
      now := now.(etot := now.etot - Share(right.etot + pr, vr, dt, dx));
      now := now.(tau := now.tau - Share(right.tau, vr, dt, dx));
    } else {
      now := now.(rho := now.rho - Share(middle.rho, vr, dt, dx));
      now := now.(mom := now.mom - Share(middle.mom, vr, dt, dx));
      now := now.(etot := now.etot - Share(middle.etot + pm, vr, dt, dx));
      now := now.(tau := now.tau - Share(middle.tau, vr, dt, dx));
    }
  }

  // ------------------------------------------------------------------- the tube

  /** The solver on nx cells, the size of step t being dts(t). */
  function Solver(f: Fluid, dts: nat -> real): Scheme<Cell>
    requires f.Valid()
  {
    Scheme((t: nat) => UpdateRule(f, dts(t)), (i: nat) => InitialSod(f, i), f.nx)
  }

  function UpdateRule(f: Fluid, dt: real): Rule<Cell>
    requires f.Valid()
  {
    (l: Cell, m: Cell, r: Cell) => Updated(f, dt, l, m, r)
  }

  // --------------------------------------------------------------- conservation

  /** The conserved quantities, and what of each passes a face: pressures push momentum. */
  datatype Quantity = Density | Momentum | Energy

  function Of(k: Quantity): Cell -> real {
    match k
    case Density => (c: Cell) => c.rho
    case Momentum => (c: Cell) => c.mom
    case Energy => (c: Cell) => c.etot
  }

  function Through(p: StateLaw, dt: real, dx: real, k: Quantity): (Cell, Cell) -> real
    requires dx > 0.0
  {
    match k
    case Density => (l: Cell, r: Cell) => Face(p, dt, dx, l, r).rho
    case Momentum => (l: Cell, r: Cell) => Face(p, dt, dx, l, r).mom + Push(p, dt, dx, l, r)
    case Energy => (l: Cell, r: Cell) => Face(p, dt, dx, l, r).etot
  }

  lemma UpdateFlows(f: Fluid, dt: real, k: Quantity)
    requires f.Valid()
    ensures Flows(UpdateRule(f, dt), Of(k), Through(Law(f), dt, f.dx, k))
  {
    var rule, q, g := UpdateRule(f, dt), Of(k), Through(Law(f), dt, f.dx, k);
    forall l, m, r ensures q(rule(l, m, r)) == q(m) + g(l, m) - g(m, r) {}
  }

  /** Over whole runs, whatever the step sizes, the interior amount of density, momentum and
      energy changes by what passes the two outermost faces only. */
  lemma UpwindConserves(f: Fluid, dts: nat -> real, k: Quantity, t: nat)
    requires f.Valid() && f.nx >= 2
    ensures Amount(Of(k), Layer(Solver(f, dts), t)) ==
      Amount(Of(k), Layer(Solver(f, dts), 0)) + Entered(Solver(f, dts), (s: nat) => Through(Law(f), dts(s), f.dx, k), t)
  {
    var s := Solver(f, dts);
    var g := (s: nat) => Through(Law(f), dts(s), f.dx, k);
    forall j: nat ensures Flows(s.rule(j), Of(k), g(j)) {
      UpdateFlows(f, dts(j), k);
    }
    RunConserves(s, Of(k), g, t);
  }

  // ----------------------------------------------------------------- positivity

  function Max0(x: real): real { if x > 0.0 then x else 0.0 }

  /** The share of its contents that leaves a cell: through each face by which fluid flows out. */
  function Escaping(vl: real, vr: real, dt: real, dx: real): real
    requires dx > 0.0
  {
    (Max0(-vl) + Max0(vr)) * dt / dx
  }

  /** Less than its whole contents leaves a cell. */
  predicate LessThanAll(f: Fluid, dt: real, l: Cell, m: Cell, r: Cell)
    requires f.Valid()
  {
    dt >= 0.0 && Escaping(FaceVelocity(l, m), FaceVelocity(m, r), dt, f.dx) < 1.0
  }

  /** The density b of a cell between densities a and d after a step of relative size c. */
  function Balance(a: real, b: real, d: real, vl: real, vr: real, c: real): real {
    b * (1.0 - (Max0(-vl) + Max0(vr)) * c) + a * (Max0(vl) * c) + d * (Max0(-vr) * c)
  }

  lemma BalancePositive(a: real, b: real, d: real, vl: real, vr: real, c: real)
    requires a > 0.0 && b > 0.0 && d > 0.0 && c >= 0.0 && (Max0(-vl) + Max0(vr)) * c < 1.0
    ensures Balance(a, b, d, vl, vr, c) > 0.0
  {
    ProductNonNegative(Max0(vl), c);
    ProductNonNegative(Max0(-vr), c);
    ProductNonNegative(a, Max0(vl) * c);
    ProductNonNegative(d, Max0(-vr) * c);
    ProductPositive(b, 1.0 - (Max0(-vl) + Max0(vr)) * c);
  }

  lemma ShareIs(q: real, v: real, dt: real, dx: real)
    requires dx > 0.0
    ensures Share(q, v, dt, dx) == q * (v * (dt / dx))
  {}

  lemma EscapingIs(vl: real, vr: real, dt: real, dx: real)
    requires dx > 0.0
    ensures Escaping(vl, vr, dt, dx) == (Max0(-vl) + Max0(vr)) * (dt / dx)
  {}

  /** Upwind shares, by what stays in the middle and what comes in. */
  lemma SharesBalance(a: real, b: real, d: real, vl: real, vr: real, dt: real, dx: real)
    requires dx > 0.0
    ensures b + Share(if vl > 0.0 then a else b, vl, dt, dx) - Share(if vr > 0.0 then b else d, vr, dt, dx) ==
      Balance(a, b, d, vl, vr, dt / dx)
  {
    var c := dt / dx;
    ShareIs(if vl > 0.0 then a else b, vl, dt, dx);
    ShareIs(if vr > 0.0 then b else d, vr, dt, dx);
    assert (if vl > 0.0 then a else b) * (vl * c) == a * (Max0(vl) * c) - b * (Max0(-vl) * c);
    assert (if vr > 0.0 then b else d) * (vr * c) == b * (Max0(vr) * c) - d * (Max0(-vr) * c);
    assert b * (1.0 - (Max0(-vl) + Max0(vr)) * c) == b - b * (Max0(-vl) * c) - b * (Max0(vr) * c);
  }

  lemma StaysPositive(f: Fluid, dt: real, l: Cell, m: Cell, r: Cell)
    requires f.Valid() && l.rho > 0.0 && m.rho > 0.0 && r.rho > 0.0 && LessThanAll(f, dt, l, m, r)
    ensures Updated(f, dt, l, m, r).rho > 0.0
  {
    var vl, vr := FaceVelocity(l, m), FaceVelocity(m, r);
    SharesBalance(l.rho, m.rho, r.rho, vl, vr, dt, f.dx);
    EscapingIs(vl, vr, dt, f.dx);
    BalancePositive(l.rho, m.rho, r.rho, vl, vr, dt / f.dx);
  }

  /** Where fluid leaves by both faces, nothing less than the outflow condition will do. */
  lemma OutflowExact(f: Fluid, dt: real, l: Cell, m: Cell, r: Cell)
    requires f.Valid() && m.rho > 0.0 && FaceVelocity(l, m) <= 0.0 <= FaceVelocity(m, r) && dt >= 0.0
    ensures Updated(f, dt, l, m, r).rho > 0.0 <==> LessThanAll(f, dt, l, m, r)
  {
    var vl, vr := FaceVelocity(l, m), FaceVelocity(m, r);
    SharesBalance(l.rho, m.rho, r.rho, vl, vr, dt, f.dx);
    EscapingIs(vl, vr, dt, f.dx);
    NoInflow(l.rho, m.rho, r.rho, vl, vr, dt / f.dx);
  }

  lemma NoInflow(a: real, b: real, d: real, vl: real, vr: real, c: real)
    requires vl <= 0.0 <= vr && b > 0.0
    ensures Balance(a, b, d, vl, vr, c) > 0.0 <==> (Max0(-vl) + Max0(vr)) * c < 1.0
  {
    var x := 1.0 - (Max0(-vl) + Max0(vr)) * c;
    assert Balance(a, b, d, vl, vr, c) == b * x;
    if x > 0.0 {
      ProductPositive(b, x);
    } else {
      ProductNonNegative(b, -x);
    }
  }

  /** The outflow condition at every interior cell in the step to layer t + 1. */
  ghost predicate StableStep(f: Fluid, dts: nat -> real, t: nat)
    requires f.Valid()
  {
    Guarded(Solver(f, dts), OutflowRule(f, dts), t)
  }

  ghost function OutflowRule(f: Fluid, dts: nat -> real): nat -> (Cell, Cell, Cell) -> bool
    requires f.Valid()
  {
    (t: nat) => (l: Cell, m: Cell, r: Cell) => LessThanAll(f, dts(t), l, m, r)
  }

  ghost predicate Positive(f: Fluid, dts: nat -> real, t: nat)
    requires f.Valid()
  {
    AllGood((c: Cell) => c.rho > 0.0, Layer(Solver(f, dts), t))
  }

  /** From the shock tube on, densities stay positive as long as the outflow condition holds. */
  lemma PositiveDensity(f: Fluid, dts: nat -> real, t: nat)
    requires f.Valid() && forall k: nat :: k < t ==> StableStep(f, dts, k)
    ensures Positive(f, dts, t)
  {
    var s, good, guard := Solver(f, dts), (c: Cell) => c.rho > 0.0, OutflowRule(f, dts);
    forall k: nat, l, m, r | good(l) && good(m) && good(r) && guard(k)(l, m, r) ensures good(s.rule(k)(l, m, r)) {
      StaysPositive(f, dts(k), l, m, r);
    }
    forall k: nat | k < t ensures Guarded(s, guard, k) {
      assert StableStep(f, dts, k);
    }
    RunKeeps(s, good, guard, t);
  }

  // ---------------------------------------------------------- computing on demand

  /** What cell i of layer t is computed from. */
  ghost predicate SolvedAt(f: Fluid, dts: nat -> real, sol: nat -> seq<Cell>, t: nat, i: nat)
    requires f.Valid() && i < f.nx
  {
    |sol(t)| == f.nx &&
    if t == 0 || i == 0 || i == f.nx - 1 then sol(t)[i] == InitialSod(f, i)
    else |sol(t-1)| == f.nx && sol(t)[i] == Updated(f, dts(t), sol(t-1)[i-1], sol(t-1)[i], sol(t-1)[i+1])
  }

  ghost predicate Solves(f: Fluid, dts: nat -> real, sol: nat -> seq<Cell>)
    requires f.Valid()
  {
    forall t: nat, i: nat {:trigger SolvedAt(f, dts, sol, t, i)} :: i < f.nx ==> SolvedAt(f, dts, sol, t, i)
  }

  ghost function Layers(f: Fluid, dts: nat -> real): nat -> seq<Cell>
    requires f.Valid()
  {
    (t: nat) => Layer(Solver(f, dts), t)
  }

  lemma LayersSolve(f: Fluid, dts: nat -> real)
    requires f.Valid()
    ensures Solves(f, dts, Layers(f, dts))
  {
    var sol := Layers(f, dts);
    forall t: nat, i: nat | i < f.nx ensures SolvedAt(f, dts, sol, t, i) {
      LayerSolved(f, dts, t, i);
    }
  }

  lemma LayerSolved(f: Fluid, dts: nat -> real, t: nat, i: nat)
    requires f.Valid() && i < f.nx
    ensures SolvedAt(f, dts, Layers(f, dts), t, i)
  {
    var s := Solver(f, dts);
    if t > 0 {
      assert Layer(s, t) == NextLayer(s, t, Layer(s, t - 1));
    }
  }

  ghost predicate PositiveBefore(f: Fluid, sol: nat -> seq<Cell>, t: nat) {
    forall s: nat, i: nat :: s < t && i < f.nx == |sol(s)| ==> sol(s)[i].rho > 0.0
  }

  /** Stable runs never divide by zero. */
  lemma StableRunsArePositive(f: Fluid, dts: nat -> real, t: nat)
    requires f.Valid() && forall k: nat :: k < t ==> StableStep(f, dts, k)
    ensures PositiveBefore(f, Layers(f, dts), t)
  {
    forall s: nat, i: nat | s < t && i < f.nx ensures Layers(f, dts)(s)[i].rho > 0.0 {
      PositiveDensity(f, dts, s);
    }
  }

  /** Every computed cell is that of the solution. */
  ghost predicate Agrees(f: Fluid, sol: nat -> seq<Cell>, fluid: map<(nat, nat), Cell>) {
    forall k :: k in fluid ==> k.1 < f.nx == |sol(k.0)| && fluid[k] == sol(k.0)[k.1]
  }

  /** The table of computed cells, filled on demand from the cells a value depends on. */
  class Grid {
    const f: Fluid
    const dts: nat -> real
    ghost const sol: nat -> seq<Cell>
    var fluid: map<(nat, nat), Cell>

    constructor (f: Fluid, dts: nat -> real)
      requires f.Valid()
      ensures this.f == f && this.dts == dts && fluid == map[] && Valid() && sol == Layers(f, dts)
    {
      LayersSolve(f, dts);
      this.f, this.dts, fluid, sol := f, dts, map[], Layers(f, dts);
    }

    ghost predicate Valid()
      reads this
    {
      f.Valid() && Solves(f, dts, sol) && Agrees(f, sol, fluid)
    }

    /** A cell, its dependencies first.  The densities divided by are positive, which is what
        PositiveDensity provides. */
    method Compute(timestep: nat, location: nat) returns (c: Cell)
      requires Valid() && location < f.nx && PositiveBefore(f, sol, timestep)
      modifies this
      ensures Valid() && |sol(timestep)| == f.nx && c == sol(timestep)[location]
      ensures (timestep, location) in fluid && old(fluid).Keys <= fluid.Keys
      decreases timestep, 1, 0
    {
      if (timestep, location) in fluid {
        return fluid[(timestep, location)];
      }
      assert SolvedAt(f, dts, sol, timestep, location);
      if timestep == 0 || location == 0 || location == f.nx - 1 {
        c := InitialSod(f, location);
      } else {
        c := ComputeInterior(timestep, location);
      }
      fluid := fluid[(timestep, location) := c];
    }

    method ComputeInterior(timestep: nat, location: nat) returns (c: Cell)
      requires Valid() && timestep > 0 && 0 < location < f.nx - 1 && PositiveBefore(f, sol, timestep)
      modifies this
      ensures Valid() && |sol(timestep)| == f.nx && c == sol(timestep)[location]
      ensures old(fluid).Keys <= fluid.Keys
      decreases timestep, 0, 1
    {
      var left, middle, right := Dependencies(timestep - 1, location);
      assert SolvedAt(f, dts, sol, timestep, location);
      c := Update(f, dts(timestep), left, middle, right);
    }

    /** A cell and its two neighbours in an earlier layer. */
    method Dependencies(timestep: nat, location: nat) returns (left: Cell, middle: Cell, right: Cell)
      requires Valid() && 0 < location < f.nx - 1 && PositiveBefore(f, sol, timestep + 1)
      modifies this
      ensures Valid() && old(fluid).Keys <= fluid.Keys && |sol(timestep)| == f.nx
      ensures left == sol(timestep)[location-1] && middle == sol(timestep)[location] && right == sol(timestep)[location+1]
      ensures left.rho > 0.0 && middle.rho > 0.0 && right.rho > 0.0
      decreases timestep + 1, 0, 0
    {
      left := Compute(timestep, location - 1);
      middle := Compute(timestep, location);
      right := Compute(timestep, location + 1);
    }
  }
}
