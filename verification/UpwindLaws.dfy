/** What the upwind update means physically: the fluxes of the Euler equations in numbers, the
    pressure as a state equation, and flows whose exact motion is known. */
module UpwindLaws {
  import opened Sums
  import opened Tube
  import opened Upwind

  // -------------------------------------------------------------- shares in numbers

  /** What a flux x brings to a cell in one step, per width of the cell. */
  function Brings(x: real, dt: real, dx: real): real
    requires dx > 0.0
  {
    dt / dx * x
  }

  lemma ShareBrings(q: real, v: real, dt: real, dx: real)
    requires dx > 0.0
    ensures Share(q, v, dt, dx) == Brings(v * q, dt, dx)
  {
    assert q * v * dt == dt * (v * q);
    MovedFactor(dt, v * q, dx);
  }

  lemma KickBrings(p: real, dt: real, dx: real)
    requires dx > 0.0
    ensures Kick(p, dt, dx) == Brings(0.5 * p, dt, dx)
  {
    assert 0.5 * dt * p == dt * (0.5 * p);
    MovedFactor(dt, 0.5 * p, dx);
  }

  lemma MovedFactor(a: real, b: real, d: real)
    requires d != 0.0
    ensures a * b / d == a / d * b
  {}

  lemma BringsSum(x: real, y: real, dt: real, dx: real)
    requires dx > 0.0
    ensures Brings(x + y, dt, dx) == Brings(x, dt, dx) + Brings(y, dt, dx)
  {}

  lemma ShareScales(s: real, q: real, v: real, dt: real, dx: real)
    requires dx > 0.0
    ensures Share(s * q, v, dt, dx) == s * Share(q, v, dt, dx)
  {
    var n := q * v * dt;
    assert s * q * v * dt == s * n;
    assert s * n / dx == s * (n / dx);
  }

  lemma ShareAdds(p: real, q: real, v: real, dt: real, dx: real)
    requires dx > 0.0
    ensures Share(p + q, v, dt, dx) == Share(p, v, dt, dx) + Share(q, v, dt, dx)
  {
    var m, n := p * v * dt, q * v * dt;
    assert (p + q) * v * dt == m + n;
    assert (m + n) / dx == m / dx + n / dx;
  }

  // --------------------------------------------------------------- the balance of a step

  /** The face between two cells: its velocity and the cell upwind of it. */
  ghost predicate Upstream(l: Cell, r: Cell, v: real, c: Cell) {
    v * (l.rho + r.rho) == l.mom + r.mom && l.rho + r.rho != 0.0 && c == if v > 0.0 then l else r
  }

  lemma VelocityIs(l: Cell, r: Cell, v: real, c: Cell)
    requires Upstream(l, r, v, c)
    ensures FaceVelocity(l, r) == v && c == if v > 0.0 then l else r
  {
    DividedOut(v, l.rho + r.rho);
  }

  lemma DividedOut(v: real, d: real)
    requires d != 0.0
    ensures v * d / d == v
  {}

  /** The flux of the Euler equations through a face of velocity v with c upwind: what flows
      carries itself along, pressure pushes momentum, and energy flows with the work it does. */
  function EulerFlux(p: StateLaw, k: Quantity, l: Cell, r: Cell, v: real, c: Cell): real {
    match k
    case Density => v * c.rho
    case Momentum => v * c.mom + 0.5 * (p(l) + p(r))
    case Energy => v * (c.etot + p(c))
  }

  /** What passes a face is what that flux brings. */
  lemma FaceFlux(p: StateLaw, dt: real, dx: real, k: Quantity, l: Cell, r: Cell, v: real, c: Cell)
    requires dx > 0.0 && FaceVelocity(l, r) == v && c == if v > 0.0 then l else r
    ensures Through(p, dt, dx, k)(l, r) == Brings(EulerFlux(p, k, l, r, v, c), dt, dx)
  {
    CarriedFlux(p, dt, dx, l, r, v, c);
    assert Face(p, dt, dx, l, r) == Carried(p, dt, dx, c, v);
  }

  lemma CarriedFlux(p: StateLaw, dt: real, dx: real, l: Cell, r: Cell, v: real, c: Cell)
    requires dx > 0.0
    ensures Carried(p, dt, dx, c, v).rho == Brings(EulerFlux(p, Density, l, r, v, c), dt, dx)
    ensures Carried(p, dt, dx, c, v).mom + Push(p, dt, dx, l, r) == Brings(EulerFlux(p, Momentum, l, r, v, c), dt, dx)
    ensures Carried(p, dt, dx, c, v).etot == Brings(EulerFlux(p, Energy, l, r, v, c), dt, dx)
  {
    ShareBrings(c.rho, v, dt, dx);
    MomentumFlux(c.mom, v, p(l) + p(r), dt, dx);
    ShareBrings(c.etot + p(c), v, dt, dx);
  }

  lemma MomentumFlux(q: real, v: real, p: real, dt: real, dx: real)
    requires dx > 0.0
    ensures Share(q, v, dt, dx) + Kick(p, dt, dx) == Brings(v * q + 0.5 * p, dt, dx)
  {
    ShareBrings(q, v, dt, dx);
    KickBrings(p, dt, dx);
    BringsSum(v * q, 0.5 * p, dt, dx);
  }

  /** One step of a tube under any pressure law: the interior amounts of density, momentum and
      energy change by the Euler fluxes through the two outermost faces. */
  lemma BalanceUnder(p: StateLaw, dt: real, dx: real, s: Scheme<Cell>, t: nat, k: Quantity, u: seq<Cell>,
                     v: real, c: Cell, w: real, d: Cell)
    requires dx > 0.0 && |u| == s.nx >= 2 && Flows(s.rule(t), Of(k), Through(p, dt, dx, k))
    requires Upstream(u[0], u[1], v, c) && Upstream(u[s.nx-2], u[s.nx-1], w, d)
    ensures Amount(Of(k), NextLayer(s, t, u)) == Amount(Of(k), u)
      + Brings(EulerFlux(p, k, u[0], u[1], v, c), dt, dx) - Brings(EulerFlux(p, k, u[s.nx-2], u[s.nx-1], w, d), dt, dx)
  {
    var n := s.nx;
    StepConserves(s, t, Of(k), Through(p, dt, dx, k), u);
    FluxAt(p, dt, dx, k, u[0], u[1], v, c);
    FluxAt(p, dt, dx, k, u[n-2], u[n-1], w, d);
  }

  lemma FluxAt(p: StateLaw, dt: real, dx: real, k: Quantity, l: Cell, r: Cell, v: real, c: Cell)
    requires dx > 0.0 && Upstream(l, r, v, c)
    ensures Through(p, dt, dx, k)(l, r) == Brings(EulerFlux(p, k, l, r, v, c), dt, dx)
  {
    VelocityIs(l, r, v, c);
    FaceFlux(p, dt, dx, k, l, r, v, c);
  }

  /** The same for the solver: in every step of every run, whatever the step sizes. */
  lemma StepBalance(f: Fluid, dts: nat -> real, t: nat, k: Quantity, v: real, c: Cell, w: real, d: Cell)
    requires f.Valid() && f.nx >= 2
    requires var u := Layer(Solver(f, dts), t);
      Upstream(u[0], u[1], v, c) && Upstream(u[f.nx-2], u[f.nx-1], w, d)
    ensures var u, u', n := Layer(Solver(f, dts), t), Layer(Solver(f, dts), t + 1), f.nx;
      Amount(Of(k), u') == Amount(Of(k), u)
        + Brings(EulerFlux(Law(f), k, u[0], u[1], v, c), dts(t + 1), f.dx)
        - Brings(EulerFlux(Law(f), k, u[n-2], u[n-1], w, d), dts(t + 1), f.dx)
  {
    UpdateFlows(f, dts(t + 1), k);
    BalanceUnder(Law(f), dts(t + 1), f.dx, Solver(f, dts), t + 1, k, Layer(Solver(f, dts), t), v, c, w, d);
  }

  // ------------------------------------------------------------------ fluid at rest

  /** Fluid at rest is set in motion by the difference of the pressures on both sides, towards the
      lower one, and its density and energy stay. */
  lemma RestIsPushed(p: StateLaw, dt: real, dx: real, l: Cell, m: Cell, r: Cell)
    requires dx > 0.0 && l.mom == m.mom == r.mom == 0.0
    ensures Moved(p, dt, dx, l, m, r).mom == dt / dx * (0.5 * (p(l) - p(r)))
    ensures Moved(p, dt, dx, l, m, r).rho == m.rho && Moved(p, dt, dx, l, m, r).etot == m.etot
  {
    NothingPasses(p, dt, dx, l, m);
    NothingPasses(p, dt, dx, m, r);
    PushesDiffer(p(l), p(m), p(r), dt, dx);
  }

  lemma NothingPasses(p: StateLaw, dt: real, dx: real, l: Cell, r: Cell)
    requires dx > 0.0 && l.mom == r.mom == 0.0
    ensures Face(p, dt, dx, l, r) == Cell(0.0, 0.0, 0.0, 0.0)
  {
    assert FaceVelocity(l, r) == 0.0;
    AtRest(p, dt, dx, r);
  }

  lemma PushesDiffer(a: real, b: real, c: real, dt: real, dx: real)
    requires dx > 0.0
    ensures Kick(a + b, dt, dx) - Kick(b + c, dt, dx) == dt / dx * (0.5 * (a - c))
  {
    KickDifference(dt, dx, a, b, c);
    KickBrings(a - c, dt, dx);
  }

  // ----------------------------------------------------------------- a moving contact

  /** A cell of fluid that moves at speed v with internal energy e. */
  ghost predicate MovesAt(c: Cell, v: real, e: real) {
    c.rho > 0.0 && c.mom == v * c.rho && c.etot == e + 0.5 * v * v * c.rho
  }

  /** Where speed, pressure and internal energy are the same on all sides, only the density is
      carried along: the fluid goes on at the same speed with the same internal energy. */
  lemma ContactMoves(p: StateLaw, dt: real, dx: real, l: Cell, m: Cell, r: Cell, v: real, e: real)
    requires dx > 0.0 && MovesAt(l, v, e) && MovesAt(m, v, e) && MovesAt(r, v, e) && p(l) == p(m) == p(r)
    ensures var c := Moved(p, dt, dx, l, m, r); c.mom == v * c.rho && c.etot == e + 0.5 * v * v * c.rho
  {
    SpeedAtFace(l, m, v);
    SpeedAtFace(m, r, v);
    var a, b := if v > 0.0 then l else m, if v > 0.0 then m else r;
    assert Face(p, dt, dx, l, m) == Carried(p, dt, dx, a, v) && Face(p, dt, dx, m, r) == Carried(p, dt, dx, b, v);
    ContactBetween(p, dt, dx, a, b, v, e, m.rho);
  }

  /** A contact by the two cells upwind of its faces. */
  lemma ContactBetween(p: StateLaw, dt: real, dx: real, a: Cell, b: Cell, v: real, e: real, rho: real)
    requires dx > 0.0 && MovesAt(a, v, e) && MovesAt(b, v, e) && p(a) == p(b)
    ensures var i, o := Carried(p, dt, dx, a, v), Carried(p, dt, dx, b, v);
      && v * rho + i.mom - o.mom == v * (rho + i.rho - o.rho)
      && e + 0.5 * v * v * rho + i.etot - o.etot == e + 0.5 * v * v * (rho + i.rho - o.rho)
  {
    ContactShares(a, v, e, p(a), dt, dx);
    ContactShares(b, v, e, p(a), dt, dx);
    LinearCombination(v, rho, Share(a.rho, v, dt, dx), Share(b.rho, v, dt, dx));
    LinearCombination(0.5 * v * v, rho, Share(a.rho, v, dt, dx), Share(b.rho, v, dt, dx));
  }

  lemma SpeedAtFace(l: Cell, r: Cell, v: real)
    requires l.rho > 0.0 && r.rho > 0.0 && l.mom == v * l.rho && r.mom == v * r.rho
    ensures FaceVelocity(l, r) == v
  {
    assert l.mom + r.mom == v * (l.rho + r.rho);
    DividedOut(v, l.rho + r.rho);
  }

  /** The shares of such a cell, by that of its density. */
  lemma ContactShares(c: Cell, v: real, e: real, p: real, dt: real, dx: real)
    requires dx > 0.0 && MovesAt(c, v, e)
    ensures Share(c.mom, v, dt, dx) == v * Share(c.rho, v, dt, dx)
    ensures Share(c.etot + p, v, dt, dx) == Share(e + p, v, dt, dx) + 0.5 * v * v * Share(c.rho, v, dt, dx)
  {
    ShareScales(v, c.rho, v, dt, dx);
    ShareScales(0.5 * v * v, c.rho, v, dt, dx);
    ShareAdds(e + p, 0.5 * v * v * c.rho, v, dt, dx);
  }

  lemma LinearCombination(s: real, x: real, y: real, z: real)
    ensures s * (x + y - z) == s * x + s * y - s * z
  {}

  /** Where the entropy variable is the same multiple of the density on all sides, it stays so. */
  lemma EntropyIsCarried(p: StateLaw, dt: real, dx: real, l: Cell, m: Cell, r: Cell, s: real)
    requires dx > 0.0 && l.tau == s * l.rho && m.tau == s * m.rho && r.tau == s * r.rho
    ensures Moved(p, dt, dx, l, m, r).tau == s * Moved(p, dt, dx, l, m, r).rho
  {
    var i, o := Face(p, dt, dx, l, m), Face(p, dt, dx, m, r);
    assert i.tau == s * i.rho by { FaceEntropy(p, dt, dx, l, m, s); }
    assert o.tau == s * o.rho by { FaceEntropy(p, dt, dx, m, r, s); }
    LinearCombination(s, m.rho, i.rho, o.rho);
  }

  lemma FaceEntropy(p: StateLaw, dt: real, dx: real, l: Cell, r: Cell, s: real)
    requires dx > 0.0 && l.tau == s * l.rho && r.tau == s * r.rho
    ensures Face(p, dt, dx, l, r).tau == s * Face(p, dt, dx, l, r).rho
  {
    ShareScales(s, if FaceVelocity(l, r) > 0.0 then l.rho else r.rho, FaceVelocity(l, r), dt, dx);
  }

  // ------------------------------------------------------------------- the pressure

  lemma InternalIs(c: Cell, v: real, e: real)
    requires MovesAt(c, v, e)
    ensures Internal(c) == e
  {
    assert 0.5 * c.mom * c.mom == 0.5 * v * v * c.rho * c.rho;
    DividedOut(0.5 * v * v * c.rho, c.rho);
  }

  /** The pressure is gamma - 1 times the internal energy, however fast the fluid moves, as long as
      either that energy is not small or the entropy variable records it. */
  lemma PressureIs(f: Fluid, c: Cell, v: real, e: real)
    requires MovesAt(c, v, e) && (Abs(e) > 0.001 * c.etot || f.pow(c.tau, f.gamma) == e)
    ensures Pressure(f, c) == (f.gamma - 1.0) * e
  {
    InternalIs(c, v, e);
  }

  /** The entropy variable matters exactly where the internal energy is at most a thousandth. */
  lemma EntropyMatters(f: Fluid, c: Cell, v: real, e: real, x: real, y: real)
    requires MovesAt(c, v, e) && (f.gamma - 1.0) * f.pow(x, f.gamma) != (f.gamma - 1.0) * f.pow(y, f.gamma)
    ensures Pressure(f, c.(tau := x)) == Pressure(f, c.(tau := y)) <==> Abs(e) > 0.001 * c.etot
  {
    InternalIs(c, v, e);
    assert Internal(c.(tau := x)) == Internal(c) == Internal(c.(tau := y));
  }

  /** A step records the internal energy exactly where it is more than a tenth, so that the pressure
      can be had from the record; elsewhere the record is carried along. */
  lemma EntropyRecorded(f: Fluid, dt: real, l: Cell, m: Cell, r: Cell, v: real, e: real)
    requires f.Valid() && MovesAt(m, v, e)
    ensures Updated(f, dt, l, m, r).tau ==
      if Abs(e) > 0.1 * m.etot then f.pow(e, 1.0 / f.gamma) else Moved(Law(f), dt, f.dx, l, m, r).tau
  {
    InternalIs(m, v, e);
  }

  // ------------------------------------------------------------------ the shock tube

  /** The middle of a cell. */
  function Centre(f: Fluid, i: nat): real {
    (i as real - 0.5) * f.dx + f.xMin
  }

  lemma CentresAscend(f: Fluid, i: nat, j: nat)
    requires f.Valid() && i <= j
    ensures Centre(f, i) <= Centre(f, j)
  {
    ProductNonNegative(j as real - i as real, f.dx);
    assert (j as real - 0.5) * f.dx - (i as real - 0.5) * f.dx == (j as real - i as real) * f.dx;
  }

  /** The initial state is at rest, with one jump, at -0.1: eight times the density and ten times
      the energy and pressure on the left. */
  lemma SodJump(f: Fluid, i: nat, j: nat)
    requires f.Valid() && i <= j
    ensures var a, b := InitialSod(f, i), InitialSod(f, j);
      var k, n := if Centre(f, i) < -0.1 <= Centre(f, j) then 8.0 else 1.0, if Centre(f, i) < -0.1 <= Centre(f, j) then 10.0 else 1.0;
      && a.mom == b.mom == 0.0 && b.rho == (if Centre(f, j) < -0.1 then 1.0 else 0.125) && b.etot > 0.0
      && a.rho == k * b.rho && a.etot == n * b.etot && Pressure(f, a) == n * Pressure(f, b)
  {
    CentresAscend(f, i, j);
    SodPressure(f, i);
    SodPressure(f, j);
  }

  lemma SodPressure(f: Fluid, i: nat)
    requires f.Valid()
    ensures Pressure(f, InitialSod(f, i)) == (f.gamma - 1.0) * (if Centre(f, i) < -0.1 then 2.5 else 0.25)
  {}

  /** In the first step only the cells at the jump are set in motion, to the right. */
  lemma SodStarts(f: Fluid, dts: nat -> real, i: nat)
    requires f.Valid() && 0 < i < f.nx - 1
    ensures Layer(Solver(f, dts), 1)[i].mom ==
      if Centre(f, i - 1) < -0.1 <= Centre(f, i + 1) then dts(1) / f.dx * (0.5 * ((f.gamma - 1.0) * 2.25)) else 0.0
  {
    var l, m, r := InitialSod(f, i - 1), InitialSod(f, i), InitialSod(f, i + 1);
    CentresAscend(f, i - 1, i + 1);
    SodPressure(f, i - 1);
    SodPressure(f, i + 1);
    RestIsPushed(Law(f), dts(1), f.dx, l, m, r);
    LinearCombination(f.gamma - 1.0, 2.5, 0.0, 0.25);
    assert Layer(Solver(f, dts), 0)[i-1] == l && Layer(Solver(f, dts), 0)[i] == m && Layer(Solver(f, dts), 0)[i+1] == r;
  }
}
