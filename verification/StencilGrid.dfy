/** What the 2D stencil computes, cell by cell: the stripes of any number of workers, under any
    schedule, are one field in which every inner cell is a quarter of its four diagonal
    neighbours minus itself, and the boundary is one. */
module StencilGrid {
  import opened Blocks
  import opened HaloGlue
  import opened HaloGrid
  import opened HaloProtocol
  import opened HaloRuns
  import opened StencilKernel
  import opened StencilRows
  import opened StencilRun

  /** The field on nx columns and rows rows after t steps. */
  function Field(nx: nat, rows: nat, t: nat, x: nat, y: nat): real {
    if x == 0 || y == 0 || x + 1 >= nx || y + 1 >= rows then 1.0
    else if t == 0 then 0.0
    else
      0.25 * (Field(nx, rows, t - 1, x - 1, y - 1) + Field(nx, rows, t - 1, x + 1, y - 1)
              + Field(nx, rows, t - 1, x - 1, y + 1) + Field(nx, rows, t - 1, x + 1, y + 1))
      - Field(nx, rows, t - 1, x, y)
  }

  /** The rows of all stripes together. */
  function TotalRows(num: nat, ny: nat): nat
    requires ny >= 1
  {
    Points(num, ny - 1) + 1
  }

  lemma StripesGlue(num: nat, nx: nat, ny: nat, steps: nat)
    requires Stripes(num, nx, ny, steps).Valid()
    ensures OneGrid(Stripes(num, nx, ny, steps), Stripes(1, nx, TotalRows(num, ny), steps))
  {
    var g, h := Stripes(num, nx, ny, steps), Stripes(1, nx, TotalRows(num, ny), steps);
    forall r: nat, y: nat | HaloGlue.Inside(g, r, y) ensures h.init(0, Top(g, r) + y) == g.init(r, y) {
      SameStart(num, nx, ny, steps, r, y);
    }
    forall r: nat | g.HasDown(r) ensures g.init(r, ny - 1) == g.init(r, ny - 2) {
      GhostRow(num, nx, ny, r);
    }
  }

  lemma GhostRow(num: nat, nx: nat, ny: nat, r: nat)
    requires r + 1 < num && ny >= 3
    ensures InitRow(num, nx, ny, r, ny - 1) == InitRow(num, nx, ny, r, ny - 2)
  {}

  lemma SameStart(num: nat, nx: nat, ny: nat, steps: nat, r: nat, y: nat)
    requires var g := Stripes(num, nx, ny, steps); g.Valid() && HaloGlue.Inside(g, r, y)
    ensures InitRow(1, nx, TotalRows(num, ny), 0, Points(r, ny - 1) + y) == InitRow(num, nx, ny, r, y)
  {
    RowBounds(Stripes(num, nx, ny, steps), r, y);
    TopRows(Stripes(num, nx, ny, steps), r);
  }

  /** Only the first stripe starts at row 0. */
  lemma TopRows(g: Grid<Row>, r: nat)
    requires g.Valid()
    ensures Top(g, r) == 0 <==> r == 0
  {
    if r > 0 {
      PartBounds(0, r, g.ny - 1);
    }
  }

  /** Row y of the field. */
  ghost predicate IsField(nx: nat, rows: nat, t: nat, y: nat, row: Row) {
    |row| == nx && forall x :: 0 <= x < nx ==> row[x] == Field(nx, rows, t, x, y)
  }

  /** One row after a step, from the three rows around it. */
  lemma FieldRow(nx: nat, rows: nat, t: nat, y: nat, up: Row, middle: Row, down: Row, result: Row)
    requires 0 < y < rows - 1 && IsField(nx, rows, t, y - 1, up) && IsField(nx, rows, t, y, middle)
    requires IsField(nx, rows, t, y + 1, down) && |result| == nx && (nx > 0 ==> result[0] == result[nx-1] == 1.0)
    ensures IsField(nx, rows, t + 1, y, LineUpdate(up, middle, down, result))
  {
    var line := LineUpdate(up, middle, down, result);
    forall x | 0 <= x < nx ensures line[x] == Field(nx, rows, t + 1, x, y) {}
  }

  ghost predicate FieldRows(nx: nat, rows: nat, t: nat, b: Buffer<Row>) {
    |b| == rows && forall y :: 0 <= y < rows ==> IsField(nx, rows, t, y, b[y])
  }

  /** The one grid is the field. */
  lemma {:induction false} GridIsField(nx: nat, rows: nat, steps: nat, m: Solution<Row>, t: nat)
    requires Recurrence(Stripes(1, nx, rows, steps), m)
    ensures FieldRows(nx, rows, t, m(0, t))
  {
    var h := Stripes(1, nx, rows, steps);
    if t == 0 {
      assert Follows(h, m, 0, 0);
    } else {
      GridIsField(nx, rows, steps, m, t - 1);
      assert Follows(h, m, 0, t - 1);
      GridStep(nx, rows, steps, m(0, t - 1), Above(h, m, 0, t - 1), Below(h, m, 0, t - 1), t - 1);
    }
  }

  lemma GridStep(nx: nat, rows: nat, steps: nat, c: Buffer<Row>, above: Row, below: Row, t: nat)
    requires Stripes(1, nx, rows, steps).Valid() && FieldRows(nx, rows, t, c)
    ensures FieldRows(nx, rows, t + 1, NextBuffer(Stripes(1, nx, rows, steps), 0, c, above, below))
  {
    var h := Stripes(1, nx, rows, steps);
    forall y | 0 <= y < rows ensures IsField(nx, rows, t + 1, y, NextRow(h, 0, c, above, below, y)) {
      if 0 < y < rows - 1 {
        FieldRow(nx, rows, t, y, c[y-1], c[y], c[y+1], InitRow(1, nx, rows, 0, y));
      }
    }
  }

  lemma SomeField(num: nat, nx: nat, ny: nat, steps: nat) returns (h: Grid<Row>, m: Solution<Row>)
    requires Stripes(num, nx, ny, steps).Valid()
    ensures OneGrid(Stripes(num, nx, ny, steps), h) && Recurrence(h, m) && h.ny == TotalRows(num, ny)
    ensures forall t: nat {:trigger m(0, t)} :: FieldRows(nx, TotalRows(num, ny), t, m(0, t))
  {
    var g := Stripes(num, nx, ny, steps);
    h := Stripes(1, nx, TotalRows(num, ny), steps);
    StripesGlue(num, nx, ny, steps);
    OneGridValid(g, h);
    StripesLawful(1, nx, TotalRows(num, ny), steps);
    m := SomeSolution(h);
    forall t: nat ensures FieldRows(nx, TotalRows(num, ny), t, m(0, t)) {
      GridIsField(nx, TotalRows(num, ny), steps, m, t);
    }
  }

  /** In every state of every run, the current buffer of every worker is its part of the field as
      it is after the steps the worker has made. */
  lemma RunComputesField(g: Grid<Row>, nx: nat, schedule: seq<HaloProtocol.Step>, r: nat, y: nat)
    requires g == Stripes(g.num, nx, g.ny, g.steps) && g.Valid() && Run(g, schedule).Some? && HaloGlue.Inside(g, r, y)
    ensures var s := Run(g, schedule).value;
      && Shaped(g, s) && |s.ws[r].Curr()| == g.ny
      && IsField(nx, TotalRows(g.num, g.ny), s.ws[r].t, Points(r, g.ny - 1) + y, s.ws[r].Curr()[y])
  {
    var h, l, m := Together(g, nx);
    CurrentRow(g, h, m, schedule, nx, r, y);
  }

  lemma CurrentRow(g: Grid<Row>, h: Grid<Row>, m: Solution<Row>, schedule: seq<HaloProtocol.Step>, nx: nat, r: nat, y: nat)
    requires Lawful(g) && OneGrid(g, h) && Recurrence(h, m) && Run(g, schedule).Some? && HaloGlue.Inside(g, r, y)
    requires forall t: nat {:trigger m(0, t)} :: FieldRows(nx, h.ny, t, m(0, t))
    ensures var s := Run(g, schedule).value;
      && Shaped(g, s) && |s.ws[r].Curr()| == g.ny
      && IsField(nx, h.ny, s.ws[r].t, Top(g, r) + y, s.ws[r].Curr()[y])
  {
    EveryRunIsOneGrid(g, h, m, schedule, r, y);
    var t := Run(g, schedule).value.ws[r].t;
    assert FieldRows(nx, h.ny, t, m(0, t));
  }

  lemma OutputRowNow(g: Grid<Row>, h: Grid<Row>, l: Solution<Row>, m: Solution<Row>, s: State<Row>, nx: nat, r: nat, y: nat)
    requires IsLockstep(g, l) && Inv(g, l, s) && OneGrid(g, h) && Recurrence(h, m)
    requires HaloGlue.Inside(g, r, y) && s.ws[r].pc == Finished
    requires forall t: nat {:trigger m(0, t)} :: FieldRows(nx, h.ny, t, m(0, t))
    ensures |s.ws[r].u0| == g.ny && IsField(nx, h.ny, g.steps - g.steps % 2, Top(g, r) + y, s.ws[r].u0[y])
  {
    var t := g.steps - g.steps % 2;
    OutputIsOneGrid(g, h, m, s, l, r, y);
    assert FieldRows(nx, h.ny, t, m(0, t));
  }

  /** The array of a finished worker, row by row. */
  lemma OutputRow(ws: seq<Stripe>, g: Grid<Row>, h: Grid<Row>, l: Solution<Row>, m: Solution<Row>,
                  schedule: seq<HaloProtocol.Step>, nx: nat, r: nat, y: nat)
    requires IsLockstep(g, l) && OneGrid(g, h) && Recurrence(h, m)
    requires Run(g, schedule).Some? && Views(ws, Run(g, schedule).value, nx, g.ny)
    requires HaloGlue.Inside(g, r, y) && r < |ws| && ws[r].pc == Finished
    requires forall t: nat {:trigger m(0, t)} :: FieldRows(nx, h.ny, t, m(0, t))
    ensures ws[r].u0.Length == Points(g.ny, nx)
    ensures IsField(nx, h.ny, g.steps - g.steps % 2, Top(g, r) + y, RowsOf(ws[r].u0[..], g.ny, nx)[y])
  {
    RunInv(g, l, schedule);
    var s := Run(g, schedule).value;
    assert ViewAt(ws, s, nx, g.ny, r);
    OutputRowNow(g, h, l, m, s, nx, r, y);
  }

  /** And every number that a finished worker writes out is the field's at its place, after the last
      even step: column x of its row y is column x of row r * (ny - 1) + y. */
  lemma OutputIsField(ws: seq<Stripe>, g: Grid<Row>, nx: nat, schedule: seq<HaloProtocol.Step>, r: nat, x: nat, y: nat)
    requires g == Stripes(g.num, nx, g.ny, g.steps) && g.Valid() && Run(g, schedule).Some?
    requires Views(ws, Run(g, schedule).value, nx, g.ny)
    requires HaloGlue.Inside(g, r, y) && r < |ws| && ws[r].pc == Finished && x < nx
    ensures Points(y, nx) + x < ws[r].u0.Length
    ensures ws[r].u0[Points(y, nx) + x] == Field(nx, TotalRows(g.num, g.ny), g.steps - g.steps % 2, x, Points(r, g.ny - 1) + y)
  {
    var h, l, m := Together(g, nx);
    OutputRow(ws, g, h, l, m, schedule, nx, r, y);
    ChunkAt(ws[r].u0[..], y, x, g.ny, nx);
  }

  lemma Together(g: Grid<Row>, nx: nat) returns (h: Grid<Row>, l: Solution<Row>, m: Solution<Row>)
    requires g == Stripes(g.num, nx, g.ny, g.steps) && g.Valid()
    ensures IsLockstep(g, l) && OneGrid(g, h) && Recurrence(h, m) && h.ny == TotalRows(g.num, g.ny)
    ensures forall t: nat {:trigger m(0, t)} :: FieldRows(nx, h.ny, t, m(0, t))
  {
    StripesLawful(g.num, nx, g.ny, g.steps);
    l := SomeSolution(g);
    h, m := SomeField(g.num, nx, g.ny, g.steps);
  }
}
