/** The 2D stencil's own rows: lines of numbers, the four-point line update, the initial
    boundary of ones.  They obey the two laws the halo exchange relies on. */
module StencilRows {
  import opened HaloGrid
  import opened HaloProtocol
  import opened HaloRuns

  type Row = seq<real>

  /** An element, or nothing where there is none; the workers only read inside a line. */
  function Get(s: Row, i: int): real {
    if 0 <= i < |s| then s[i] else 0.0
  }

  function Cell(up: Row, middle: Row, down: Row, i: int): real {
    0.25 * (Get(up, i - 1) + Get(up, i + 1) + Get(down, i - 1) + Get(down, i + 1)) - Get(middle, i)
  }

  /** `result` with all but its first and last element overwritten. */
  function LineUpdate(up: Row, middle: Row, down: Row, result: Row): (line: Row)
    ensures |line| == |result|
  {
    seq(|result|, i requires 0 <= i < |result| =>
      if 1 <= i < |result| - 1 then Cell(up, middle, down, i) else result[i])
  }

  /** Two lines agree on what a line update leaves alone. */
  predicate SameEnds(a: Row, b: Row) {
    |a| == |b| && (|a| > 0 ==> a[0] == b[0] && a[|a|-1] == b[|b|-1])
  }

  /** Ones on the outer boundary of all stripes together, and zeros inside. */
  function InitRow(num: nat, nx: nat, ny: nat, rank: nat, y: nat): (row: Row)
    ensures |row| == nx
  {
    var edge := (rank == 0 && y == 0) || (rank + 1 == num && y + 1 == ny);
    seq(nx, x requires 0 <= x => if edge || x == 0 || x + 1 == nx then 1.0 else 0.0)
  }

  function Stripes(num: nat, nx: nat, ny: nat, steps: nat): Grid<Row> {
    Grid(num, ny, steps, LineUpdate, SameEnds, (r: nat, y: nat) => InitRow(num, nx, ny, r, y))
  }

  /** A line update keeps the ends, and what it writes does not depend on what was there. */
  lemma StripesLawful(num: nat, nx: nat, ny: nat, steps: nat)
    requires Stripes(num, nx, ny, steps).Valid()
    ensures Lawful(Stripes(num, nx, ny, steps))
  {
    var g := Stripes(num, nx, ny, steps);
    forall u, m, d, a, b | g.same(a, b) ensures g.update(u, m, d, a) == g.update(u, m, d, b) {}
  }

  /** The cells of rank r's stripe that no step writes. */
  predicate NeverWritten(nx: nat, ny: nat, r: nat, x: nat, y: nat) {
    x == 0 || x + 1 == nx || y + 1 == ny || (y == 0 && r == 0)
  }

  /** In every reachable state, both buffers of every rank have the stripe's shape and hold the
      initial value in every cell that no step writes. */
  lemma BoundaryKept(num: nat, nx: nat, ny: nat, steps: nat, schedule: seq<Step>, r: nat, x: nat, y: nat)
    requires var g := Stripes(num, nx, ny, steps); g.Valid() && Run(g, schedule).Some?
    requires r < num && x < nx && y < ny
    ensures var s := Run(Stripes(num, nx, ny, steps), schedule).value;
      && Shaped(Stripes(num, nx, ny, steps), s) && |s.ws[r].u0| == |s.ws[r].u1| == ny
      && |s.ws[r].u0[y]| == |s.ws[r].u1[y]| == nx
      && (NeverWritten(nx, ny, r, x, y) ==>
            s.ws[r].u0[y][x] == s.ws[r].u1[y][x] == InitRow(num, nx, ny, r, y)[x])
  {
    var g := Stripes(num, nx, ny, steps);
    StripesLawful(num, nx, ny, steps);
    var l := SomeSolution(g);
    ScheduleIndependence(g, l, schedule, r);
    var w := Run(g, schedule).value.ws[r];
    FramedCell(num, nx, ny, steps, r, x, y, w.u0);
    FramedCell(num, nx, ny, steps, r, x, y, w.u1);
  }

  lemma FramedCell(num: nat, nx: nat, ny: nat, steps: nat, r: nat, x: nat, y: nat, b: Buffer<Row>)
    requires Framed(Stripes(num, nx, ny, steps), r, b) && x < nx && y < ny
    ensures |b[y]| == nx
    ensures NeverWritten(nx, ny, r, x, y) ==> b[y][x] == InitRow(num, nx, ny, r, y)[x]
  {
    var g := Stripes(num, nx, ny, steps);
    assert g.same(b[y], g.init(r, y));
  }

  // ------------------------------------------------------------------- the output

  /** One step of the single inner cell of a 3 by 3 stripe with ones around it. */
  lemma CentreStep(g: Grid<Row>, c: Buffer<Row>, above: Row, below: Row)
    requires g == Stripes(1, 3, 3, g.steps) && Framed(g, 0, c)
    ensures var b := NextBuffer(g, 0, c, above, below); |c[1]| == |b[1]| == 3 && b[1][1] == 1.0 - c[1][1]
  {
    assert g.same(c[1], g.init(0, 1));
    assert c[0] == InitRow(1, 3, 3, 0, 0) && c[2] == InitRow(1, 3, 3, 0, 2);
    assert c[0][0] == c[0][2] == c[2][0] == c[2][2] == 1.0;
    assert NextBuffer(g, 0, c, above, below)[1] == LineUpdate(c[0], c[1], c[2], InitRow(1, 3, 3, 0, 1));
  }

  /** It flips between 0 and 1 for ever. */
  lemma {:induction false} CentreFlips(g: Grid<Row>, l: Solution<Row>, t: nat)
    requires g == Stripes(1, 3, 3, g.steps) && Recurrence(g, l)
    requires forall k: nat {:trigger Framed(g, 0, l(0, k))} :: Framed(g, 0, l(0, k))
    ensures |l(0, t)[1]| == 3 && l(0, t)[1][1] == (t % 2) as real
  {
    if t == 0 {
      assert Follows(g, l, 0, 0);
      assert l(0, 0)[1] == InitRow(1, 3, 3, 0, 1);
    } else {
      CentreFlips(g, l, t - 1);
      assert Framed(g, 0, l(0, t - 1)) && Follows(g, l, 0, t - 1);
      CentreStep(g, l(0, t - 1), Above(g, l, 0, t - 1), Below(g, l, 0, t - 1));
    }
  }

  lemma CentreChanges(steps: nat, l: Solution<Row>)
    requires IsLockstep(Stripes(1, 3, 3, steps), l) && steps >= 1
    ensures l(0, steps - 1) != l(0, steps)
  {
    var g := Stripes(1, 3, 3, steps);
    forall k: nat ensures Framed(g, 0, l(0, k)) {
      SolutionFramed(g, l, 0, k);
    }
    CentreFlips(g, l, steps);
    CentreFlips(g, l, steps - 1);
  }

  /** On all stripes the result after the last step is written out. */
  ghost predicate AllWriteResult(steps: nat) {
    forall num, nx, ny, l :: IsLockstep(Stripes(num, nx, ny, steps), l) ==> WritesResult(Stripes(num, nx, ny, steps), l)
  }

  /** The program does so exactly for even numbers of steps. */
  lemma EvenStepsExactly(steps: nat)
    ensures AllWriteResult(steps) <==> steps % 2 == 0
  {
    if steps % 2 == 1 {
      StripesLawful(1, 3, 3, steps);
      var l := SomeSolution(Stripes(1, 3, 3, steps));
      CentreChanges(steps, l);
      OutputExact(Stripes(1, 3, 3, steps), l);
    } else {
      forall num, nx, ny, l | IsLockstep(Stripes(num, nx, ny, steps), l) ensures WritesResult(Stripes(num, nx, ny, steps), l) {
        OutputExact(Stripes(num, nx, ny, steps), l);
      }
    }
  }
}
