/** A worker's two buffers: set up, and advanced one step at a time from received rows. */
module StencilWorker {
  import opened Blocks
  import opened HaloGrid
  import opened StencilRows
  import opened StencilKernel

  // --------------------------------------------------------------------- set-up

  function Constant(n: nat, x: real): (row: Row)
    ensures |row| == n
  {
    seq(n, i => x)
  }

  method Fill(a: array<real>, from: nat, to: nat, x: real)
    requires from <= to <= a.Length
    modifies a
    ensures a[..] == Patched(old(a[..]), from, Constant(to - from, x))
  {
    for k := from to to
      invariant forall j :: 0 <= j < a.Length ==> a[j] == if from <= j < k then x else old(a[j])
    {
      a[k] := x;
    }
    assert a[..] == Patched(old(a[..]), from, Constant(to - from, x));
  }

  method FillRow(a: array<real>, nx: nat, ny: nat, y: nat)
    requires a.Length == Points(ny, nx) && y < ny
    modifies a
    ensures RowsOf(a[..], ny, nx) == old(RowsOf(a[..], ny, nx))[y := Constant(nx, 1.0)]
  {
    PartBounds(y, ny, nx);
    PointsIsProduct(y, nx);
    Fill(a, y * nx, y * nx + nx, 1.0);
    PatchedRow(old(a[..]), ny, nx, y, Constant(nx, 1.0));
  }

  function WithEnds(row: Row): (r: Row)
    requires |row| > 0
    ensures |r| == |row|
  {
    row[0 := 1.0][|row| - 1 := 1.0]
  }

  method FillEnds(a: array<real>, nx: nat, ny: nat, y: nat)
    requires a.Length == Points(ny, nx) && y < ny && nx > 0
    modifies a
    ensures RowsOf(a[..], ny, nx) == old(RowsOf(a[..], ny, nx))[y := WithEnds(old(RowsOf(a[..], ny, nx))[y])]
  {
    PartBounds(y, ny, nx);
    PointsIsProduct(y, nx);
    ghost var row := RowsOf(a[..], ny, nx)[y];
    a[y * nx + 0] := 1.0;
    a[y * nx + (nx - 1)] := 1.0;
    assert a[..] == Patched(old(a[..]), Points(y, nx), WithEnds(row));
    PatchedRow(old(a[..]), ny, nx, y, WithEnds(row));
  }

  /** The rows after the first `done` passes of the loop over the two end columns. */
  ghost predicate EndsDone(b: Buffer<Row>, nx: nat, ny: nat, rank: nat, done: nat) {
    |b| == ny && nx > 0 && forall y :: 0 <= y < ny ==> b[y] == StartRow(nx, rank, y, y < done)
  }

  ghost function StartRow(nx: nat, rank: nat, y: nat, ends: bool): Row
    requires nx > 0
  {
    var row := Constant(nx, if rank == 0 && y == 0 then 1.0 else 0.0);
    if ends then WithEnds(row) else row
  }

  lemma StartRowIsInitial(num: nat, nx: nat, ny: nat, rank: nat, y: nat)
    requires nx > 0 && rank < num
    ensures InitRow(num, nx, ny, rank, y) ==
      if rank == num - 1 && y == ny - 1 then Constant(nx, 1.0) else StartRow(nx, rank, y, true)
  {}

  /** A new buffer with the initial boundary of ones. */
  method NewBuffer(nx: nat, ny: nat, rank: nat, num: nat, ghost steps: nat) returns (a: array<real>)
    requires nx > 0 && ny > 0 && rank < num
    ensures fresh(a) && a.Length == Points(ny, nx)
    ensures RowsOf(a[..], ny, nx) == InitBuffer(Stripes(num, nx, ny, steps), rank)
  {
    PointsIsProduct(ny, nx);
    a := new real[ny * nx](i => 0.0);
    forall y | 0 <= y < ny ensures RowsOf(a[..], ny, nx)[y] == Constant(nx, 0.0) {
      PartBounds(y, ny, nx);
    }
    if rank == 0 {
      FillRow(a, nx, ny, 0);
    }
    for y := 0 to ny
      invariant EndsDone(RowsOf(a[..], ny, nx), nx, ny, rank, y)
    {
      FillEnds(a, nx, ny, y);
    }
    if rank == num - 1 {
      FillRow(a, nx, ny, ny - 1);
    }
    forall y | 0 <= y < ny ensures RowsOf(a[..], ny, nx)[y] == InitRow(num, nx, ny, rank, y) {
      StartRowIsInitial(num, nx, ny, rank, y);
    }
  }

  // ------------------------------------------------------------------- one step

  /** The buffers of a rank of a lawful grid of these rows, with the never written cells of the
      next one intact. */
  ghost predicate Ready(g: Grid<Row>, rank: nat, curr: array<real>, next: array<real>, nx: nat)
    reads next
  {
    Lawful(g) && g.update == LineUpdate && Buffers(curr, next, nx, g.ny) && Framed(g, rank, RowsOf(next[..], g.ny, nx))
  }

  method CopyRow(a: array<real>, nx: nat, ny: nat, y: nat) returns (row: Row)
    requires a.Length == Points(ny, nx) && y < ny
    ensures row == RowsOf(a[..], ny, nx)[y]
  {
    PartBounds(y, ny, nx);
    PointsIsProduct(y, nx);
    row := a[y * nx..y * nx + nx];
  }

  method TopPhase(ghost g: Grid<Row>, rank: nat, num: nat, ny: nat, nx: nat,
                  curr: array<real>, next: array<real>, up: array<real>, ghost down: Row) returns (sent: Row)
    requires g.num == num && g.ny == ny && Ready(g, rank, curr, next, nx)
    requires up != next && (g.HasUp(rank) ==> up.Length == nx)
    modifies next
    ensures Ready(g, rank, curr, next, nx)
    ensures RowsOf(next[..], ny, nx)[0] == NextBuffer(g, rank, RowsOf(curr[..], ny, nx), up[..], down)[0]
    ensures sent == if g.HasUp(rank) then RowsOf(next[..], ny, nx)[0] else []
  {
    TopRow(g, rank, RowsOf(curr[..], ny, nx), RowsOf(next[..], ny, nx), up[..], down);
    sent := [];
    if num > 1 && rank > 0 {
      PutUp(curr, next, up, nx, ny, g);
      sent := CopyRow(next, nx, ny, 0);
    }
  }

  method InteriorPhase(ghost g: Grid<Row>, ghost rank: nat, ny: nat, nx: nat, curr: array<real>, next: array<real>,
                       order: seq<nat>, ghost up: Row, ghost down: Row)
    requires g.ny == ny && Ready(g, rank, curr, next, nx) && InteriorOrder(order, ny)
    modifies next
    ensures Ready(g, rank, curr, next, nx)
    ensures RowsOf(next[..], ny, nx)[0] == old(RowsOf(next[..], ny, nx))[0]
    ensures InteriorDone(g, rank, RowsOf(next[..], ny, nx), NextBuffer(g, rank, RowsOf(curr[..], ny, nx), up, down))
  {
    InteriorRows(g, rank, RowsOf(curr[..], ny, nx), RowsOf(next[..], ny, nx), up, down);
    Interior(curr, next, nx, ny, order, g);
  }

  method BottomPhase(ghost g: Grid<Row>, rank: nat, num: nat, ny: nat, nx: nat,
                     curr: array<real>, next: array<real>, ghost up: Row, down: array<real>) returns (sent: Row)
    requires g.num == num && g.ny == ny && Ready(g, rank, curr, next, nx)
    requires down != next && (g.HasDown(rank) ==> down.Length == nx)
    requires var goal := NextBuffer(g, rank, RowsOf(curr[..], ny, nx), up, down[..]);
      RowsOf(next[..], ny, nx)[0] == goal[0] && InteriorDone(g, rank, RowsOf(next[..], ny, nx), goal)
    modifies next
    ensures RowsOf(next[..], ny, nx) == NextBuffer(g, rank, RowsOf(curr[..], ny, nx), up, down[..])
    ensures sent == if g.HasDown(rank) then RowsOf(next[..], ny, nx)[ny-2] else []
  {
    BottomCompletes(g, rank, RowsOf(curr[..], ny, nx), RowsOf(next[..], ny, nx), up, down[..]);
    sent := [];
    if num > 1 && rank < num - 1 {
      PutDown(curr, next, down, nx, ny, g);
      sent := CopyRow(next, nx, ny, ny - 2);
    }
  }

  /** One pass of the step loop up to the swap.  `up` and `down` are the rows received, `sentUp`
      and `sentDown` the rows sent for the next step, empty without a neighbour. */
  method Step(ghost g: Grid<Row>, rank: nat, num: nat, ny: nat, nx: nat, curr: array<real>, next: array<real>,
              up: array<real>, down: array<real>, order: seq<nat>) returns (sentUp: Row, sentDown: Row)
    requires g.num == num && g.ny == ny && Ready(g, rank, curr, next, nx) && InteriorOrder(order, ny)
    requires up != next && (g.HasUp(rank) ==> up.Length == nx)
    requires down != next && (g.HasDown(rank) ==> down.Length == nx)
    modifies next
    ensures RowsOf(next[..], ny, nx) == NextBuffer(g, rank, RowsOf(curr[..], ny, nx), up[..], down[..])
    ensures sentUp == if g.HasUp(rank) then RowsOf(next[..], ny, nx)[0] else []
    ensures sentDown == if g.HasDown(rank) then RowsOf(next[..], ny, nx)[ny-2] else []
  {
    sentUp := TopPhase(g, rank, num, ny, nx, curr, next, up, down[..]);
    InteriorPhase(g, rank, ny, nx, curr, next, order, up[..], down[..]);
    sentDown := BottomPhase(g, rank, num, ny, nx, curr, next, up[..], down);
  }
}
