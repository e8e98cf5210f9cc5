/** The stripes glued together are one grid: rank r's rows from the first to the last but one, one
    stripe below the other, and the last row of the last stripe.  The last row of any other
    stripe is a ghost row, whose place is taken by the first row of the next stripe. */
module HaloGlue {
  import opened Blocks
  import opened HaloGrid
  import opened HaloProtocol
  import opened HaloRuns

  /** The row of the one grid at which stripe r starts. */
  function Top<R>(g: Grid<R>, r: nat): nat
    requires g.ny >= 1
  {
    Points(r, g.ny - 1)
  }

  /** Row y of stripe r is part of the one grid. */
  predicate Inside<R>(g: Grid<R>, r: nat, y: nat) {
    r < g.num && (y + 1 < g.ny || (y + 1 == g.ny && r + 1 == g.num))
  }

  lemma RowBounds<R>(g: Grid<R>, r: nat, y: nat)
    requires g.ny >= 1 && Inside(g, r, y)
    ensures Top(g, r + 1) == Top(g, r) + g.ny - 1 <= Top(g, g.num)
    ensures Top(g, r) + y <= Top(g, g.num)
    ensures y + 1 < g.ny ==> Top(g, r) + y < Top(g, g.num)
    ensures y + 1 == g.ny ==> Top(g, r) + y == Top(g, g.num)
  {
    PartBounds(r, g.num, g.ny - 1);
  }

  /** h is the one grid of the stripes g: the same rule, and the same rows to start with. */
  ghost predicate OneGrid<R>(g: Grid<R>, h: Grid<R>) {
    && g.Valid() && h.num == 1 && h.ny == Top(g, g.num) + 1 && h.update == g.update
    && (forall r: nat, y: nat {:trigger Inside(g, r, y)} :: Inside(g, r, y) ==> h.init(0, Top(g, r) + y) == g.init(r, y))
    && (forall r: nat {:trigger g.HasDown(r)} :: g.HasDown(r) ==> g.init(r, g.ny - 1) == g.init(r, g.ny - 2))
  }

  lemma OneGridValid<R>(g: Grid<R>, h: Grid<R>)
    requires OneGrid(g, h)
    ensures h.Valid()
  {
    PartBounds(0, g.num, g.ny - 1);
  }

  ghost predicate GluedAt<R>(g: Grid<R>, l: Solution<R>, m: Solution<R>, t: nat, r: nat, y: nat)
    requires g.Valid() && AllBuffers(g, l)
  {
    Inside(g, r, y) ==> Top(g, r) + y < |m(0, t)| && l(r, t)[y] == m(0, t)[Top(g, r) + y]
  }

  ghost predicate Glued<R>(g: Grid<R>, l: Solution<R>, m: Solution<R>, t: nat)
    requires g.Valid() && AllBuffers(g, l)
  {
    forall r: nat, y: nat {:trigger GluedAt(g, l, m, t, r, y)} :: GluedAt(g, l, m, t, r, y)
  }

  lemma GluedAtStart<R>(g: Grid<R>, h: Grid<R>, l: Solution<R>, m: Solution<R>)
    requires OneGrid(g, h) && Recurrence(g, l) && Recurrence(h, m)
    ensures Glued(g, l, m, 0)
  {
    assert Follows(h, m, 0, 0);
    forall r: nat, y: nat ensures GluedAt(g, l, m, 0, r, y) {
      assert Follows(g, l, r, 0);
      if Inside(g, r, y) {
        RowBounds(g, r, y);
      }
    }
  }

  /** The row a stripe gets from above is the row above it in the one grid. */
  lemma FromTheStripeAbove<R>(g: Grid<R>, h: Grid<R>, l: Solution<R>, m: Solution<R>, t: nat, r: nat)
    requires OneGrid(g, h) && Recurrence(g, l) && Recurrence(h, m) && Glued(g, l, m, t) && g.HasUp(r) && r < g.num
    ensures 0 < Top(g, r) <= |m(0, t)| && Above(g, l, r, t) == m(0, t)[Top(g, r) - 1]
  {
    assert Inside(g, r - 1, g.ny - 2) && GluedAt(g, l, m, t, r - 1, g.ny - 2);
    RowBounds(g, r - 1, g.ny - 2);
    if t == 0 {
      assert g.HasDown(r - 1) && Follows(g, l, r - 1, 0);
    }
  }

  lemma FromTheStripeBelow<R>(g: Grid<R>, h: Grid<R>, l: Solution<R>, m: Solution<R>, t: nat, r: nat)
    requires OneGrid(g, h) && Recurrence(g, l) && Recurrence(h, m) && Glued(g, l, m, t) && g.HasDown(r)
    ensures Top(g, r) + g.ny - 1 < |m(0, t)| && Below(g, l, r, t) == m(0, t)[Top(g, r) + g.ny - 1]
  {
    assert Inside(g, r + 1, 0) && GluedAt(g, l, m, t, r + 1, 0);
    RowBounds(g, r, 0);
  }

  /** The three rows that row y of stripe r is computed from. */
  lemma RowsAround<R>(g: Grid<R>, h: Grid<R>, l: Solution<R>, m: Solution<R>, t: nat, r: nat, y: nat)
    requires OneGrid(g, h) && Recurrence(g, l) && Recurrence(h, m) && Glued(g, l, m, t) && Inside(g, r, y)
    requires y + 1 < g.ny && (y == 0 ==> g.HasUp(r))
    ensures var i := Top(g, r) + y; 0 < i < h.ny - 1
    ensures var i := Top(g, r) + y;
      && m(0, t)[i-1] == (if y == 0 then Above(g, l, r, t) else l(r, t)[y-1])
      && m(0, t)[i] == l(r, t)[y]
      && m(0, t)[i+1] == (if y == g.ny - 2 && g.HasDown(r) then Below(g, l, r, t) else l(r, t)[y+1])
  {
    RowBounds(g, r, y);
    assert GluedAt(g, l, m, t, r, y);
    if y == 0 {
      FromTheStripeAbove(g, h, l, m, t, r);
    } else {
      assert Inside(g, r, y - 1) && GluedAt(g, l, m, t, r, y - 1);
    }
    if y == g.ny - 2 && g.HasDown(r) {
      FromTheStripeBelow(g, h, l, m, t, r);
    } else {
      assert Inside(g, r, y + 1) && GluedAt(g, l, m, t, r, y + 1);
    }
  }

  lemma GluedNext<R>(g: Grid<R>, h: Grid<R>, l: Solution<R>, m: Solution<R>, t: nat, r: nat, y: nat)
    requires OneGrid(g, h) && Recurrence(g, l) && Recurrence(h, m) && Glued(g, l, m, t)
    ensures GluedAt(g, l, m, t + 1, r, y)
  {
    if Inside(g, r, y) {
      RowBounds(g, r, y);
      assert Follows(g, l, r, t) && Follows(h, m, 0, t);
      if y + 1 < g.ny && (y == 0 ==> g.HasUp(r)) {
        RowsAround(g, h, l, m, t, r, y);
      }
    }
  }

  /** The lockstep solution of the stripes is that of the one grid, row by row. */
  lemma {:induction false} StripesAreOneGrid<R>(g: Grid<R>, h: Grid<R>, l: Solution<R>, m: Solution<R>, t: nat)
    requires OneGrid(g, h) && Recurrence(g, l) && Recurrence(h, m)
    ensures Glued(g, l, m, t)
  {
    if t == 0 {
      GluedAtStart(g, h, l, m);
    } else {
      StripesAreOneGrid(g, h, l, m, t - 1);
      forall r: nat, y: nat ensures GluedAt(g, l, m, t, r, y) {
        GluedNext(g, h, l, m, t - 1, r, y);
      }
    }
  }

  /** So every worker of every run holds its part of the one grid, as it is after the steps the
      worker has made. */
  lemma EveryRunIsOneGrid<R(!new)>(g: Grid<R>, h: Grid<R>, m: Solution<R>, schedule: seq<Step>, r: nat, y: nat)
    requires Lawful(g) && OneGrid(g, h) && Recurrence(h, m) && Run(g, schedule).Some? && Inside(g, r, y)
    ensures var s := Run(g, schedule).value;
      && Shaped(g, s) && |s.ws[r].Curr()| == g.ny && Top(g, r) + y < |m(0, s.ws[r].t)|
      && s.ws[r].Curr()[y] == m(0, s.ws[r].t)[Top(g, r) + y]
  {
    var l := SomeSolution(g);
    ScheduleIndependence(g, l, schedule, r);
    var w := Run(g, schedule).value.ws[r];
    StripesAreOneGrid(g, h, l, m, w.t);
    assert GluedAt(g, l, m, w.t, r, y);
  }

  /** And what a finished worker writes out is its part as it is after the last even step. */
  lemma OutputIsOneGrid<R(!new)>(g: Grid<R>, h: Grid<R>, m: Solution<R>, s: State<R>, l: Solution<R>, r: nat, y: nat)
    requires IsLockstep(g, l) && Inv(g, l, s) && OneGrid(g, h) && Recurrence(h, m) && Inside(g, r, y) && s.ws[r].pc == Finished
    ensures var t := g.steps - g.steps % 2;
      |s.ws[r].u0| == g.ny && Top(g, r) + y < |m(0, t)| && s.ws[r].u0[y] == m(0, t)[Top(g, r) + y]
  {
    var t := g.steps - g.steps % 2;
    OutputNow(g, l, s, r);
    StripesAreOneGrid(g, h, l, m, t);
    assert GluedAt(g, l, m, t, r, y);
  }
}
