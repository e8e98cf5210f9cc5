/** The stencil's update loops on flat arrays, through row and line cursors: each phase of a
    step does to the array what the row-wise phase does to its rows, and every access is in
    bounds, although a row cursor on the first row points before the array. */
module StencilKernel {
  import opened Blocks
  import opened Division
  import opened HaloGrid
  import opened StencilRows

  // -------------------------------------------------------------------- cursors

  const TWO_63 := 0x8000_0000_0000_0000
  const TWO_64 := 0x1_0000_0000_0000_0000

  /** Three positions moved in lockstep; which containers they point into is up to the user. */
  datatype Line = Line(up: int, middle: int, down: int) {
    function Advance(n: int): Line {
      Line(up + n, middle + n, down + n)
    }
    function DistanceTo(other: Line): int {
      other.middle - middle
    }
  }

  /** The same, moved by whole rows. */
  datatype Rows = Rows(up: int, middle: int, down: int, nx: nat) {
    function Advance(n: int): Rows {
      Rows(up + n * nx, middle + n * nx, down + n * nx, nx)
    }
    function WholeLine(): Line {
      Line(up, middle, down)
    }
    /** The line whose upper neighbour is the start of another container. */
    function TopBoundary(): Line {
      Line(0, middle, down)
    }
    function BottomBoundary(): Line {
      Line(up, middle, 0)
    }
    /** The difference is divided as an unsigned 64-bit number, and the quotient is signed. */
    function DistanceTo(other: Rows): int
      requires nx > 0
    {
      var q := (other.middle - middle) % TWO_64 / nx;
      if q < TWO_63 then q else q - TWO_64
    }
  }

  function FirstRow(nx: nat): Rows {
    Rows(0 - nx, 0, nx, nx)
  }

  /** The distance undoes an advance, except a backward one over rows of more than one cell. */
  lemma DistanceUndoesAdvance(rows: Rows, n: int)
    requires rows.nx > 0 && -TWO_63 <= n * rows.nx < TWO_63
    ensures rows.DistanceTo(rows.Advance(n)) == n <==> n >= 0 || rows.nx == 1
  {
    var d := n * rows.nx;
    var w := d % TWO_64;
    assert rows.Advance(n).middle - rows.middle == d;
    if n >= 0 {
      ScaledUp(n, rows.nx);
      QuotientIs(d, rows.nx, n);
    } else {
      ScaledUp(-n, rows.nx);
      assert d <= n && w == d + TWO_64;
      if rows.nx > 1 {
        Halved(w, rows.nx, TWO_63);
      }
    }
  }

  /** The cursor on row y points at the rows around y. */
  lemma RowAt(nx: nat, y: nat)
    ensures FirstRow(nx).Advance(y) == Rows(Points(y, nx) - nx, Points(y, nx), Points(y + 1, nx), nx)
  {
    PointsIsProduct(y, nx);
  }

  /** `curr + y`, the cursor on row y. */
  method RowCursor(nx: nat, y: nat) returns (it: Rows)
    ensures it == Rows(Points(y, nx) - nx, Points(y, nx), Points(y + 1, nx), nx)
  {
    RowAt(nx, y);
    it := FirstRow(nx).Advance(y);
  }

  // ------------------------------------------------------------- rows of an array

  ghost function RowsOf(a: seq<real>, ny: nat, nx: nat): (rows: Buffer<Row>)
    requires |a| == Points(ny, nx)
    ensures |rows| == ny
  {
    Split(a, ny, nx)
  }

  /** A sequence with one stretch replaced. */
  ghost function Patched(a: seq<real>, at: nat, line: Row): (b: seq<real>)
    requires at + |line| <= |a|
    ensures |b| == |a|
  {
    a[..at] + line + a[at + |line|..]
  }

  lemma PatchedRow(a: seq<real>, ny: nat, nx: nat, y: nat, line: Row)
    requires |a| == Points(ny, nx) && y < ny && |line| == nx
    ensures Points(y, nx) + nx <= |a|
    ensures RowsOf(Patched(a, Points(y, nx), line), ny, nx) == RowsOf(a, ny, nx)[y := line]
  {
    PartBounds(y, ny, nx);
    var b := Patched(a, Points(y, nx), line);
    forall z | 0 <= z < ny ensures Chunk(b, z, ny, nx) == if z == y then line else Chunk(a, z, ny, nx) {
      PartBounds(z, ny, nx);
      if z < y {
        PartBounds(z, y, nx);
      } else if y < z {
        PartBounds(y, z, nx);
      }
    }
  }

  // ------------------------------------------------------------- the line update

  /** The stretch of a container that a line cursor runs over. */
  ghost function Stretch(a: seq<real>, at: int, n: nat): (s: Row)
    requires 0 <= at <= at + n <= |a|
    ensures |s| == n
  {
    a[at..at + n]
  }

  lemma RowStretch(a: seq<real>, ny: nat, nx: nat, y: nat)
    requires |a| == Points(ny, nx) && y < ny
    ensures Points(y, nx) + nx <= |a| && Stretch(a, Points(y, nx), nx) == RowsOf(a, ny, nx)[y]
  {
    PartBounds(y, ny, nx);
  }

  method UpdateLine(ups: array<real>, curr: array<real>, downs: array<real>, begin: Line, end: Line,
                    next: array<real>, result: nat) returns (past: nat)
    requires end == begin.Advance(begin.DistanceTo(end)) && begin.DistanceTo(end) >= 2
    requires 0 <= begin.up && end.up <= ups.Length
    requires 0 <= begin.middle && end.middle <= curr.Length
    requires 0 <= begin.down && end.down <= downs.Length
    requires result + begin.DistanceTo(end) <= next.Length
    requires next != ups && next != curr && next != downs
    modifies next
    ensures past == result + begin.DistanceTo(end)
    ensures var n := begin.DistanceTo(end);
      next[..] == Patched(old(next[..]), result,
        LineUpdate(Stretch(ups[..], begin.up, n), Stretch(curr[..], begin.middle, n),
                   Stretch(downs[..], begin.down, n), Stretch(old(next[..]), result, n)))
  {
    ghost var n := begin.DistanceTo(end);
    ghost var u, m, d :=
      Stretch(ups[..], begin.up, n), Stretch(curr[..], begin.middle, n), Stretch(downs[..], begin.down, n);
    past := result + 1;
    var it := begin.Advance(1);
    while it.middle != end.middle - 1
      invariant result + 1 <= past < result + n && it == begin.Advance(past - result)
      invariant forall j :: 0 <= j < next.Length ==>
        next[j] == if result < j < past then Cell(u, m, d, j - result) else old(next[j])
      decreases end.middle - it.middle
    {
      next[past] := 0.25 * (ups[it.up - 1] + ups[it.up + 1] + downs[it.down - 1] + downs[it.down + 1]) - curr[it.middle];
      it := it.Advance(1);
      past := past + 1;
    }
    past := past + 1;
    assert next[..] == Patched(old(next[..]), result, LineUpdate(u, m, d, Stretch(old(next[..]), result, n)));
  }

  // ------------------------------------------------------- the phases on an array

  /** Two distinct buffers of ny rows of nx cells. */
  ghost predicate Buffers(curr: array<real>, next: array<real>, nx: nat, ny: nat) {
    curr != next && curr.Length == next.Length == Points(ny, nx) && nx >= 2
  }

  /** The line updates of whole rows of a stripe, from rows up and down given as containers. */
  method UpdateRow(ups: array<real>, curr: array<real>, downs: array<real>, begin: Line, next: array<real>,
                   nx: nat, ny: nat, y: nat)
    requires Buffers(curr, next, nx, ny) && y < ny && begin.middle == Points(y, nx)
    requires next != ups && next != downs
    requires 0 <= begin.up <= begin.up + nx <= ups.Length && 0 <= begin.down <= begin.down + nx <= downs.Length
    modifies next
    ensures RowsOf(next[..], ny, nx) == old(RowsOf(next[..], ny, nx))[y :=
      LineUpdate(Stretch(ups[..], begin.up, nx), RowsOf(curr[..], ny, nx)[y],
                 Stretch(downs[..], begin.down, nx), old(RowsOf(next[..], ny, nx))[y])]
  {
    PartBounds(y, ny, nx);
    var past := UpdateLine(ups, curr, downs, begin, begin.Advance(nx), next, begin.middle);
    ghost var line := LineUpdate(Stretch(ups[..], begin.up, nx), Stretch(curr[..], begin.middle, nx),
                                 Stretch(downs[..], begin.down, nx), Stretch(old(next[..]), begin.middle, nx));
    PatchedRow(old(next[..]), ny, nx, y, line);
  }

  /** The first row, below the row received from above. */
  method PutUp(curr: array<real>, next: array<real>, up: array<real>, nx: nat, ny: nat, ghost g: Grid<Row>)
    requires Buffers(curr, next, nx, ny) && g.Valid() && g.ny == ny && g.update == LineUpdate
    requires up.Length == nx && up != next
    modifies next
    ensures RowsOf(next[..], ny, nx) ==
      TopUpdate(g, RowsOf(curr[..], ny, nx), old(RowsOf(next[..], ny, nx)), up[..])
  {
    RowAt(nx, 0);
    PartBounds(1, ny, nx);
    assert up[..] == Stretch(up[..], 0, nx);
    UpdateRow(up, curr, curr, FirstRow(nx).TopBoundary(), next, nx, ny, 0);
  }

  /** The last but one row, above the row received from below. */
  method PutDown(curr: array<real>, next: array<real>, down: array<real>, nx: nat, ny: nat, ghost g: Grid<Row>)
    requires Buffers(curr, next, nx, ny) && g.ny == ny >= 3 && g.update == LineUpdate
    requires down.Length == nx && down != next
    modifies next
    ensures RowsOf(next[..], ny, nx) ==
      BottomUpdate(g, RowsOf(curr[..], ny, nx), old(RowsOf(next[..], ny, nx)), down[..])
  {
    var it := RowCursor(nx, ny - 2);
    RowStretch(curr[..], ny, nx, ny - 3);
    assert it.up == Points(ny - 3, nx);
    assert down[..] == Stretch(down[..], 0, nx);
    UpdateRow(curr, curr, down, it.BottomBoundary(), next, nx, ny, ny - 2);
  }

  /** The body of the parallel loop: one interior row. */
  method UpdateInterior(curr: array<real>, next: array<real>, nx: nat, ny: nat, y: nat)
    requires Buffers(curr, next, nx, ny) && 1 <= y < ny - 1
    modifies next
    ensures var c := RowsOf(curr[..], ny, nx);
      RowsOf(next[..], ny, nx) == old(RowsOf(next[..], ny, nx))[y :=
        LineUpdate(c[y-1], c[y], c[y+1], old(RowsOf(next[..], ny, nx))[y])]
  {
    var it := RowCursor(nx, y);
    RowStretch(curr[..], ny, nx, y - 1);
    RowStretch(curr[..], ny, nx, y + 1);
    assert it.up == Points(y - 1, nx);
    UpdateRow(curr, curr, curr, it.WholeLine(), next, nx, ny, y);
  }

  /** The interior rows in the order the parallel loop happens to take them. */
  method Interior(curr: array<real>, next: array<real>, nx: nat, ny: nat, order: seq<nat>, ghost g: Grid<Row>)
    requires Buffers(curr, next, nx, ny) && g.ny == ny && g.update == LineUpdate && InteriorOrder(order, ny)
    modifies next
    ensures RowsOf(next[..], ny, nx) ==
      InteriorUpdate(g, RowsOf(curr[..], ny, nx), old(RowsOf(next[..], ny, nx)))
  {
    ghost var c, n := RowsOf(curr[..], ny, nx), RowsOf(next[..], ny, nx);
    for k := 0 to |order|
      invariant RowsOf(next[..], ny, nx) == RowByRow(g, c, n, order[..k])
    {
      assert order[k] in order && order[..k + 1][..k] == order[..k];
      UpdateInterior(curr, next, nx, ny, order[k]);
    }
    assert order[..|order|] == order;
    AnyRowOrder(g, c, n, order);
  }
}
