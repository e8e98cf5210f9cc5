/** The 2D stencil on stripes, one stripe of rows per rank: the phases of a time step, and the
    lockstep solution that every asynchronous run is compared with.  Rows are of any type R,
    with an update rule of which only two laws are used. */
module HaloGrid {

  /** `num` stripes of `ny` rows, advanced `steps` times.  `update(up, middle, down, result)` is
      the line update into a result line, `same` says that two lines agree where an update does
      not write, `init(rank, y)` is the initial line. */
  datatype Grid<!R> = Grid(num: nat, ny: nat, steps: nat,
                           update: (R, R, R, R) -> R, same: (R, R) -> bool, init: (nat, nat) -> R)
  {
    /** A stripe with a neighbour below updates its last but one row from the row above it,
        so it needs three rows. */
    predicate Valid() {
      num >= 1 && (ny >= 3 || (num == 1 && ny >= 2))
    }
    predicate HasUp(r: nat) {
      num > 1 && r > 0
    }
    predicate HasDown(r: nat) {
      num > 1 && r < num - 1
    }
  }

  type Buffer<R> = seq<R>

  // The laws of a line update: what it leaves alone stays, what it writes does not depend on
  // what was there.

  ghost predicate KeepsTheRest<R(!new)>(g: Grid<R>) {
    && (forall a {:trigger g.same(a, a)} :: g.same(a, a))
    && (forall a, b, c {:trigger g.same(a, b), g.same(b, c)} :: g.same(a, b) && g.same(b, c) ==> g.same(a, c))
    && (forall u, m, d, a {:trigger g.update(u, m, d, a)} :: g.same(g.update(u, m, d, a), a))
  }

  ghost predicate Overwrites<R(!new)>(g: Grid<R>) {
    forall u, m, d, a, b {:trigger g.update(u, m, d, a), g.update(u, m, d, b)} ::
      g.same(a, b) ==> g.update(u, m, d, a) == g.update(u, m, d, b)
  }

  ghost predicate Lawful<R(!new)>(g: Grid<R>) {
    g.Valid() && KeepsTheRest(g) && Overwrites(g)
  }

  // ------------------------------------------------------------------ lockstep

  function InitBuffer<R>(g: Grid<R>, r: nat): (b: Buffer<R>)
    ensures |b| == g.ny
  {
    seq(g.ny, y requires 0 <= y => g.init(r, y))
  }

  /** One step of rank r: rows 1 .. ny-2 from the stripe itself, row 0 with the line received
      from above, row ny-2 with the line received from below; the rest is never written. */
  function NextRow<R>(g: Grid<R>, r: nat, c: Buffer<R>, above: R, below: R, y: nat): R
    requires g.Valid() && |c| == g.ny && y < g.ny
  {
    if y == 0 then
      if g.HasUp(r) then g.update(above, c[0], c[1], g.init(r, 0)) else g.init(r, 0)
    else if y == g.ny - 2 && g.HasDown(r) then g.update(c[y-1], c[y], below, g.init(r, y))
    else if y <= g.ny - 2 then g.update(c[y-1], c[y], c[y+1], g.init(r, y))
    else g.init(r, y)
  }

  function NextBuffer<R>(g: Grid<R>, r: nat, c: Buffer<R>, above: R, below: R): (b: Buffer<R>)
    requires g.Valid() && |c| == g.ny
    ensures |b| == g.ny
  {
    seq(g.ny, y requires 0 <= y < g.ny => NextRow(g, r, c, above, below, y))
  }

  /** The stripe of rank r after t steps, had all ranks moved in lockstep. */
  function Lockstep<R>(g: Grid<R>, r: nat, t: nat): (b: Buffer<R>)
    requires g.Valid()
    ensures |b| == g.ny
    decreases t, 0
  {
    if t == 0 then InitBuffer(g, r)
    else NextBuffer(g, r, Lockstep(g, r, t - 1), FromAbove(g, r, t - 1), FromBelow(g, r, t - 1))
  }

  /** The line rank r receives from above in step t: the sender's last row before the first
      step, its last but one row afterwards. */
  function FromAbove<R>(g: Grid<R>, r: nat, t: nat): R
    requires g.Valid()
    decreases t, 1
  {
    if !g.HasUp(r) then g.init(r, 0)
    else if t == 0 then g.init(r - 1, g.ny - 1)
    else Lockstep(g, r - 1, t)[g.ny - 2]
  }

  /** The line rank r receives from below in step t: the sender's first row. */
  function FromBelow<R>(g: Grid<R>, r: nat, t: nat): R
    requires g.Valid()
    decreases t, 1
  {
    if !g.HasDown(r) then g.init(r, 0) else Lockstep(g, r + 1, t)[0]
  }

  // ---------------------------------------------------------- never written cells

  /** The cells no step writes hold their initial values. */
  ghost predicate Framed<R>(g: Grid<R>, r: nat, b: Buffer<R>) {
    && |b| == g.ny >= 1
    && (forall y :: 0 <= y < g.ny ==> g.same(b[y], g.init(r, y)))
    && b[g.ny-1] == g.init(r, g.ny - 1)
    && (!g.HasUp(r) ==> b[0] == g.init(r, 0))
  }

  lemma NextBufferFramed<R(!new)>(g: Grid<R>, r: nat, c: Buffer<R>, above: R, below: R)
    requires Lawful(g) && |c| == g.ny
    ensures Framed(g, r, NextBuffer(g, r, c, above, below))
  {}

  // --------------------------------------------------------- the phases of a step

  function TopUpdate<R>(g: Grid<R>, c: Buffer<R>, n: Buffer<R>, above: R): (b: Buffer<R>)
    requires g.Valid() && |c| == |n| == g.ny
    ensures |b| == g.ny
  {
    n[0 := g.update(above, c[0], c[1], n[0])]
  }

  /** The interior rows of the next buffer, each from the current buffer. */
  function InteriorUpdate<R>(g: Grid<R>, c: Buffer<R>, n: Buffer<R>): (b: Buffer<R>)
    requires |c| == |n| == g.ny
    ensures |b| == g.ny
  {
    seq(g.ny, y requires 0 <= y < g.ny =>
      if 1 <= y < g.ny - 1 then g.update(c[y-1], c[y], c[y+1], n[y]) else n[y])
  }

  predicate AreInterior(ys: seq<nat>, ny: nat) {
    forall i :: 0 <= i < |ys| ==> 1 <= ys[i] < ny - 1
  }

  /** Every interior row once, in any order. */
  ghost predicate InteriorOrder(order: seq<nat>, ny: nat) {
    && AreInterior(order, ny) && (forall y :: 1 <= y < ny - 1 ==> y in order)
    && (forall i, j :: 0 <= i < j < |order| ==> order[i] != order[j])
  }

  /** Interior rows updated one after the other. */
  function RowByRow<R>(g: Grid<R>, c: Buffer<R>, n: Buffer<R>, order: seq<nat>): (b: Buffer<R>)
    requires |c| == |n| == g.ny && AreInterior(order, g.ny)
    ensures |b| == g.ny
  {
    if order == [] then n
    else
      var k := |order| - 1;
      var b, y := RowByRow(g, c, n, order[..k]), order[k];
      b[y := g.update(c[y-1], c[y], c[y+1], b[y])]
  }

  lemma {:induction false} RowByRowAt<R>(g: Grid<R>, c: Buffer<R>, n: Buffer<R>, order: seq<nat>, y: nat)
    requires |c| == |n| == g.ny && y < g.ny && AreInterior(order, g.ny)
    requires forall i, j :: 0 <= i < j < |order| ==> order[i] != order[j]
    ensures RowByRow(g, c, n, order)[y] == if y in order then g.update(c[y-1], c[y], c[y+1], n[y]) else n[y]
  {
    if order != [] {
      var k := |order| - 1;
      assert order == order[..k] + [order[k]];
      RowByRowAt(g, c, n, order[..k], y);
    }
  }

  lemma OrderMember(order: seq<nat>, ny: nat, y: nat)
    requires InteriorOrder(order, ny)
    ensures y in order <==> 1 <= y < ny - 1
  {
    if y in order {
      var i :| 0 <= i < |order| && order[i] == y;
    }
  }

  lemma AnyOrderAt<R>(g: Grid<R>, c: Buffer<R>, n: Buffer<R>, order: seq<nat>, y: nat)
    requires |c| == |n| == g.ny && InteriorOrder(order, g.ny) && y < g.ny
    ensures RowByRow(g, c, n, order)[y] == InteriorUpdate(g, c, n)[y]
  {
    OrderMember(order, g.ny, y);
    RowByRowAt(g, c, n, order, y);
  }

  /** The order in which the interior rows are updated does not matter. */
  lemma AnyRowOrder<R>(g: Grid<R>, c: Buffer<R>, n: Buffer<R>, order: seq<nat>)
    requires |c| == |n| == g.ny && InteriorOrder(order, g.ny)
    ensures RowByRow(g, c, n, order) == InteriorUpdate(g, c, n)
  {
    var a, b := RowByRow(g, c, n, order), InteriorUpdate(g, c, n);
    forall y | 0 <= y < g.ny ensures a[y] == b[y] {
      AnyOrderAt(g, c, n, order, y);
    }
  }

  function BottomUpdate<R>(g: Grid<R>, c: Buffer<R>, n: Buffer<R>, below: R): (b: Buffer<R>)
    requires g.ny >= 3 && |c| == |n| == g.ny
    ensures |b| == g.ny
  {
    var y := g.ny - 2;
    n[y := g.update(c[y-1], c[y], below, n[y])]
  }

  /** The rows the interior update leaves in their final state. */
  ghost predicate InteriorDone<R>(g: Grid<R>, r: nat, n: Buffer<R>, goal: Buffer<R>)
    requires |n| == |goal| == g.ny
  {
    forall y :: 1 <= y < g.ny - 1 && !(y == g.ny - 2 && g.HasDown(r)) ==> n[y] == goal[y]
  }

  lemma TopRow<R(!new)>(g: Grid<R>, r: nat, c: Buffer<R>, n: Buffer<R>, above: R, below: R)
    requires Lawful(g) && |c| == g.ny && Framed(g, r, n)
    ensures g.HasUp(r) ==> Framed(g, r, TopUpdate(g, c, n, above))
    ensures g.HasUp(r) ==> TopUpdate(g, c, n, above)[0] == NextBuffer(g, r, c, above, below)[0]
    ensures !g.HasUp(r) ==> n[0] == NextBuffer(g, r, c, above, below)[0]
  {}

  /** An interior row that is written over keeps its ends, and is the row of the next buffer. */
  lemma WrittenRow<R(!new)>(g: Grid<R>, u: R, m: R, d: R, a: R, b: R)
    requires KeepsTheRest(g) && Overwrites(g) && g.same(a, b)
    ensures g.same(g.update(u, m, d, a), b) && g.update(u, m, d, a) == g.update(u, m, d, b)
  {}

  lemma InteriorRow<R(!new)>(g: Grid<R>, r: nat, c: Buffer<R>, n: Buffer<R>, above: R, below: R, y: nat)
    requires Lawful(g) && |c| == g.ny && Framed(g, r, n) && y < g.ny
    ensures g.same(InteriorUpdate(g, c, n)[y], g.init(r, y))
    ensures 1 <= y < g.ny - 1 && !(y == g.ny - 2 && g.HasDown(r)) ==>
      InteriorUpdate(g, c, n)[y] == NextBuffer(g, r, c, above, below)[y]
  {
    if 1 <= y < g.ny - 1 {
      WrittenRow(g, c[y-1], c[y], c[y+1], n[y], g.init(r, y));
    }
  }

  lemma InteriorRows<R(!new)>(g: Grid<R>, r: nat, c: Buffer<R>, n: Buffer<R>, above: R, below: R)
    requires Lawful(g) && |c| == g.ny && Framed(g, r, n)
    ensures Framed(g, r, InteriorUpdate(g, c, n)) && InteriorUpdate(g, c, n)[0] == n[0]
    ensures InteriorDone(g, r, InteriorUpdate(g, c, n), NextBuffer(g, r, c, above, below))
  {
    var b, goal := InteriorUpdate(g, c, n), NextBuffer(g, r, c, above, below);
    assert b[0] == n[0] && b[g.ny-1] == n[g.ny-1];
    forall y | 0 <= y < g.ny
      ensures g.same(b[y], g.init(r, y))
      ensures 1 <= y < g.ny - 1 && !(y == g.ny - 2 && g.HasDown(r)) ==> b[y] == goal[y]
    {
      InteriorRow(g, r, c, n, above, below, y);
    }
  }

  lemma BottomRow<R(!new)>(g: Grid<R>, r: nat, c: Buffer<R>, n: Buffer<R>, above: R, below: R)
    requires Lawful(g) && |c| == g.ny && Framed(g, r, n) && g.HasDown(r)
    ensures Framed(g, r, BottomUpdate(g, c, n, below))
    ensures BottomUpdate(g, c, n, below)[g.ny-2] == NextBuffer(g, r, c, above, below)[g.ny-2]
  {}

  /** A framed buffer whose written rows are final is the next buffer. */
  lemma AllRows<R>(g: Grid<R>, r: nat, n: Buffer<R>, goal: Buffer<R>)
    requires g.Valid() && Framed(g, r, n) && Framed(g, r, goal)
    requires n[0] == goal[0]
    requires forall y :: 1 <= y < g.ny - 1 ==> n[y] == goal[y]
    ensures n == goal
  {
    forall y | 0 <= y < g.ny ensures n[y] == goal[y] {}
  }

  /** After the top and interior phases, the bottom phase completes the next buffer. */
  lemma BottomCompletes<R(!new)>(g: Grid<R>, r: nat, c: Buffer<R>, n: Buffer<R>, above: R, below: R)
    requires Lawful(g) && |c| == g.ny && Framed(g, r, n)
    requires var goal := NextBuffer(g, r, c, above, below); n[0] == goal[0] && InteriorDone(g, r, n, goal)
    ensures (if g.HasDown(r) then BottomUpdate(g, c, n, below) else n) == NextBuffer(g, r, c, above, below)
  {
    var goal := NextBuffer(g, r, c, above, below);
    NextBufferFramed(g, r, c, above, below);
    if g.HasDown(r) {
      BottomRow(g, r, c, n, above, below);
      AllRows(g, r, BottomUpdate(g, c, n, below), goal);
    } else {
      AllRows(g, r, n, goal);
    }
  }
}
