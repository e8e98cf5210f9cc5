/** All workers of the 2D stencil on their arrays, driven through the halo exchange by any
    schedule: the arrays hold what the protocol says. */
module StencilRun {
  import opened Blocks
  import opened HaloGrid
  import opened HaloProtocol
  import opened HaloRuns
  import opened Options
  import opened StencilRows
  import opened StencilKernel
  import opened StencilWorker

  /** A worker's buffers, and where it stands. */
  class Stripe {
    const u0: array<real>
    const u1: array<real>
    var t: nat
    var pc: Pc
    var flipped: bool
    var halo: Option<Row>

    constructor (u0: array<real>, u1: array<real>)
      ensures this.u0 == u0 && this.u1 == u1 && t == 0 && pc == SendUp && !flipped && halo == None
    {
      this.u0, this.u1, t, pc, flipped, halo := u0, u1, 0, SendUp, false, None;
    }

    function Curr(): array<real>
      reads this
    {
      if flipped then u1 else u0
    }

    function Next(): array<real>
      reads this
    {
      if flipped then u0 else u1
    }
  }

  /** The protocol's view of a worker. */
  ghost function View(w: Stripe, nx: nat, ny: nat): Worker<Row>
    requires Buffers(w.u0, w.u1, nx, ny)
    reads w, w.u0, w.u1
  {
    Worker(w.t, w.pc, RowsOf(w.u0[..], ny, nx), RowsOf(w.u1[..], ny, nx), w.flipped, w.halo)
  }

  method ToArray(row: Row) returns (a: array<real>)
    ensures fresh(a) && a[..] == row
  {
    a := new real[|row|](i requires 0 <= i < |row| => row[i]);
  }

  // ------------------------------------------------------------------ one move

  method MoveTop(w: Stripe, nx: nat, ny: nat, ghost g: Grid<Row>)
    requires Buffers(w.u0, w.u1, nx, ny) && g.Valid() && g.ny == ny && g.update == LineUpdate
    requires w.halo.Some? && |w.halo.value| == nx
    modifies w`pc, w.Next()
    ensures View(w, nx, ny) ==
      (var v := old(View(w, nx, ny)); v.WithNext(TopUpdate(g, v.Curr(), v.Next(), v.halo.value)).(pc := Pc.Interior))
  {
    var up := ToArray(w.halo.value);
    StencilKernel.PutUp(w.Curr(), w.Next(), up, nx, ny, g);
    w.pc := Pc.Interior;
  }

  method MoveInterior(w: Stripe, nx: nat, ny: nat, order: seq<nat>, ghost g: Grid<Row>)
    requires Buffers(w.u0, w.u1, nx, ny) && g.ny == ny && g.update == LineUpdate && InteriorOrder(order, ny)
    modifies w`pc, w.Next()
    ensures View(w, nx, ny) ==
      (var v := old(View(w, nx, ny)); v.WithNext(InteriorUpdate(g, v.Curr(), v.Next())).(pc := GetDown))
  {
    StencilKernel.Interior(w.Curr(), w.Next(), nx, ny, order, g);
    w.pc := GetDown;
  }

  method MoveBottom(w: Stripe, nx: nat, ny: nat, ghost g: Grid<Row>)
    requires Buffers(w.u0, w.u1, nx, ny) && g.ny == ny >= 3 && g.update == LineUpdate
    requires w.halo.Some? && |w.halo.value| == nx
    modifies w`pc, w.Next()
    ensures View(w, nx, ny) ==
      (var v := old(View(w, nx, ny)); v.WithNext(BottomUpdate(g, v.Curr(), v.Next(), v.halo.value)).(pc := Swap))
  {
    var down := ToArray(w.halo.value);
    StencilKernel.PutDown(w.Curr(), w.Next(), down, nx, ny, g);
    w.pc := Swap;
  }

  /** What the worker of rank r needs to know of the state to move. */
  ghost predicate CanMove(g: Grid<Row>, s: State<Row>, r: nat, w: Stripe, nx: nat)
    reads w, w.u0, w.u1
  {
    && g.Valid() && g.update == LineUpdate && Enabled(g, s, Work(r)) && Buffers(w.u0, w.u1, nx, g.ny)
    && View(w, nx, g.ny) == s.ws[r]
    && (w.pc == Pc.PutUp || w.pc == Pc.PutDown ==> w.halo.Some? && |w.halo.value| == nx)
  }

  /** One move of a worker on its arrays.  `received` is the row it waits for, if it waits. */
  method Move(w: Stripe, num: nat, nx: nat, ny: nat, steps: nat, r: nat, order: seq<nat>, received: Option<Row>,
              ghost g: Grid<Row>, ghost s: State<Row>)
    requires CanMove(g, s, r, w, nx) && g.num == num && g.ny == ny && g.steps == steps && InteriorOrder(order, ny)
    requires w.pc == GetUp && g.HasUp(r) ==> received == Some(s.down[r-1].arrived[w.t])
    requires w.pc == GetDown && g.HasDown(r) ==> received == Some(s.up[r+1].arrived[w.t])
    modifies w, w.u0, w.u1
    ensures View(w, nx, ny) == MovedWorker(g, s, r)
  {
    match w.pc
    case SendUp => w.pc := SendDown;
    case SendDown => w.pc := if 0 < steps then GetUp else Finished;
    case GetUp =>
      if num > 1 && r > 0 {
        w.pc, w.halo := Pc.PutUp, received;
      } else {
        w.pc := Pc.Interior;
      }
    case PutUp => MoveTop(w, nx, ny, g);
    case Interior => MoveInterior(w, nx, ny, order, g);
    case GetDown =>
      if num > 1 && r < num - 1 {
        w.pc, w.halo := Pc.PutDown, received;
      } else {
        w.pc := Swap;
      }
    case PutDown => MoveBottom(w, nx, ny, g);
    case Swap =>
      w.t := w.t + 1;
      w.flipped := !w.flipped;
      w.pc := if w.t < steps then GetUp else Finished;
  }

  // ---------------------------------------------------------------- all workers

  ghost function Footprint(w: Stripe): set<object> {
    {w, w.u0, w.u1}
  }

  ghost predicate Apart(ws: seq<Stripe>, i: nat, j: nat)
    requires i < |ws| && j < |ws|
  {
    Footprint(ws[i]) !! Footprint(ws[j])
  }

  /** No two workers share anything. */
  ghost predicate Separate(ws: seq<Stripe>) {
    forall i, j {:trigger Apart(ws, i, j)} :: 0 <= i < |ws| && 0 <= j < |ws| && i != j ==> Apart(ws, i, j)
  }

  ghost predicate ViewAt(ws: seq<Stripe>, s: State<Row>, nx: nat, ny: nat, r: nat)
    requires r < |ws|
    reads ws[r], ws[r].u0, ws[r].u1
  {
    Buffers(ws[r].u0, ws[r].u1, nx, ny) && r < |s.ws| && View(ws[r], nx, ny) == s.ws[r]
  }

  /** The arrays of all workers are what the state says. */
  ghost predicate Views(ws: seq<Stripe>, s: State<Row>, nx: nat, ny: nat)
    reads ws, set r | 0 <= r < |ws| :: ws[r].u0, set r | 0 <= r < |ws| :: ws[r].u1
  {
    |ws| == |s.ws| && forall r {:trigger ViewAt(ws, s, nx, ny, r)} :: 0 <= r < |ws| ==> ViewAt(ws, s, nx, ny, r)
  }

  /** The row a move puts on the worker's upward channel, if any. */
  method SendUpwards(w: Stripe, pc: Pc, t: nat, num: nat, nx: nat, ny: nat, r: nat, ch: Channel<Row>,
                     ghost g: Grid<Row>, ghost s: State<Row>) returns (ch': Channel<Row>)
    requires g.Valid() && g.num == num && g.ny == ny && Enabled(g, s, Work(r)) && Buffers(w.u0, w.u1, nx, ny)
    requires View(w, nx, ny) == MovedWorker(g, s, r) && pc == s.ws[r].pc && t == s.ws[r].t && ch == s.up[r]
    ensures ch' == MovedUp(g, s, r)
  {
    ch' := ch;
    if num > 1 && r > 0 {
      if pc == SendUp {
        var row := CopyRow(w.u0, nx, ny, 0);
        ch' := ch.Set(0, row);
      } else if pc == Pc.PutUp {
        var row := CopyRow(w.Next(), nx, ny, 0);
        ch' := ch.Set(t + 1, row);
      }
    }
  }

  method SendDownwards(w: Stripe, pc: Pc, t: nat, num: nat, nx: nat, ny: nat, r: nat, ch: Channel<Row>,
                       ghost g: Grid<Row>, ghost s: State<Row>) returns (ch': Channel<Row>)
    requires g.Valid() && g.num == num && g.ny == ny && Enabled(g, s, Work(r)) && Buffers(w.u0, w.u1, nx, ny)
    requires View(w, nx, ny) == MovedWorker(g, s, r) && pc == s.ws[r].pc && t == s.ws[r].t && ch == s.down[r]
    ensures ch' == MovedDown(g, s, r)
  {
    ch' := ch;
    if num > 1 && r < num - 1 {
      if pc == SendDown {
        assert RowsOf(w.u0[..], ny, nx) == s.ws[r].u0;
        var row := CopyRow(w.u0, nx, ny, ny - 1);
        ch' := ch.Set(0, row);
      } else if pc == Pc.PutDown {
        var row := CopyRow(w.Next(), nx, ny, ny - 2);
        ch' := ch.Set(t + 1, row);
      }
    }
  }

  /** One worker of all moves; the others are not touched. */
  method MoveOne(ws: seq<Stripe>, num: nat, nx: nat, ny: nat, steps: nat, r: nat, order: seq<nat>, received: Option<Row>,
                 ghost g: Grid<Row>, ghost s: State<Row>)
    requires Separate(ws) && Views(ws, s, nx, ny) && r < |ws| && CanMove(g, s, r, ws[r], nx)
    requires g.num == num && g.ny == ny && g.steps == steps && InteriorOrder(order, ny)
    requires ws[r].pc == GetUp && g.HasUp(r) ==> received == Some(s.down[r-1].arrived[ws[r].t])
    requires ws[r].pc == GetDown && g.HasDown(r) ==> received == Some(s.up[r+1].arrived[ws[r].t])
    modifies ws[r], ws[r].u0, ws[r].u1
    ensures Views(ws, Apply(g, s, Work(r)), nx, ny)
  {
    Move(ws[r], num, nx, ny, steps, r, order, received, g, s);
    ghost var s' := Apply(g, s, Work(r));
    forall q | 0 <= q < |ws| ensures ViewAt(ws, s', nx, ny, q) {
      assert old(ViewAt(ws, s, nx, ny, q));
      assert q != r ==> Apart(ws, q, r);
    }
  }

  /** A move of rank r with what it receives and sends. */
  method WorkStep(ws: seq<Stripe>, up: seq<Channel<Row>>, down: seq<Channel<Row>>, num: nat, nx: nat, ny: nat, steps: nat,
                  r: nat, order: seq<nat>, ghost g: Grid<Row>, ghost s: State<Row>)
    returns (up': seq<Channel<Row>>, down': seq<Channel<Row>>)
    requires Separate(ws) && Views(ws, s, nx, ny) && r < |ws| && CanMove(g, s, r, ws[r], nx)
    requires g.num == num && g.ny == ny && g.steps == steps && InteriorOrder(order, ny) && up == s.up && down == s.down
    modifies ws[r], ws[r].u0, ws[r].u1
    ensures Views(ws, Apply(g, s, Work(r)), nx, ny)
    ensures up' == Apply(g, s, Work(r)).up && down' == Apply(g, s, Work(r)).down
  {
    var pc, t, received := ws[r].pc, ws[r].t, None;
    if pc == GetUp && num > 1 && r > 0 {
      received := Some(down[r-1].arrived[t]);
    } else if pc == GetDown && num > 1 && r < num - 1 {
      received := Some(up[r+1].arrived[t]);
    }
    MoveOne(ws, num, nx, ny, steps, r, order, received, g, s);
    assert ViewAt(ws, Apply(g, s, Work(r)), nx, ny, r);
    var a := SendUpwards(ws[r], pc, t, num, nx, ny, r, up[r], g, s);
    var b := SendDownwards(ws[r], pc, t, num, nx, ny, r, down[r], g, s);
    up', down' := up[r := a], down[r := b];
    if pc == GetUp && num > 1 && r > 0 {
      down' := down'[r - 1 := down[r-1].Get(t)];
    } else if pc == GetDown && num > 1 && r < num - 1 {
      up' := up'[r + 1 := up[r+1].Get(t)];
    }
  }

  /** Any step: a move, or the delivery of a row. */
  method OneStep(ws: seq<Stripe>, up: seq<Channel<Row>>, down: seq<Channel<Row>>, num: nat, nx: nat, ny: nat, steps: nat,
                 step: HaloProtocol.Step, order: seq<nat>, ghost g: Grid<Row>, ghost s: State<Row>)
    returns (up': seq<Channel<Row>>, down': seq<Channel<Row>>)
    requires Separate(ws) && Views(ws, s, nx, ny) && g.Valid() && Enabled(g, s, step) && up == s.up && down == s.down
    requires step.Work? ==> CanMove(g, s, step.r, ws[step.r], nx)
    requires g.num == num && g.ny == ny && g.steps == steps && InteriorOrder(order, ny)
    modifies ws, set r | 0 <= r < |ws| :: ws[r].u0, set r | 0 <= r < |ws| :: ws[r].u1
    ensures Views(ws, Apply(g, s, step), nx, ny) && up' == Apply(g, s, step).up && down' == Apply(g, s, step).down
  {
    if step.Work? {
      up', down' := WorkStep(ws, up, down, num, nx, ny, steps, step.r, order, g, s);
      return;
    }
    up', down' := up, down;
    if step.DeliverUp? {
      up' := up[step.r := up[step.r].Deliver(step.tag)];
    } else {
      down' := down[step.r := down[step.r].Deliver(step.tag)];
    }
    ghost var s' := Apply(g, s, step);
    forall q | 0 <= q < |ws| ensures ViewAt(ws, s', nx, ny, q) {
      assert ViewAt(ws, s, nx, ny, q);
    }
  }

  // ------------------------------------------------------------------ whole runs

  /** A grid of lines of nx cells that are updated as in this program. */
  ghost predicate OfLines(g: Grid<Row>, nx: nat) {
    && g.update == LineUpdate && (forall r: nat, y: nat :: |g.init(r, y)| == nx)
    && (forall a, b {:trigger g.same(a, b)} :: g.same(a, b) ==> |a| == |b|)
  }

  /** Received rows have the length of a line. */
  lemma HaloLength(g: Grid<Row>, l: Solution<Row>, s: State<Row>, r: nat, nx: nat)
    requires IsLockstep(g, l) && OfLines(g, nx) && Inv(g, l, s) && r < g.num
    requires s.ws[r].pc == Pc.PutUp || s.ws[r].pc == Pc.PutDown
    ensures s.ws[r].halo.Some? && |s.ws[r].halo.value| == nx
  {
    assert WorkerOk(g, l, r, s.ws[r]);
    var q, y := if s.ws[r].pc == Pc.PutUp then r - 1 else r + 1, if s.ws[r].pc == Pc.PutUp then g.ny - 2 else 0;
    SolutionFramed(g, l, q, s.ws[r].t);
    assert g.same(l(q, s.ws[r].t)[y], g.init(q, y));
  }

  lemma ReadyToMove(ws: seq<Stripe>, g: Grid<Row>, l: Solution<Row>, s: State<Row>, r: nat, nx: nat)
    requires IsLockstep(g, l) && OfLines(g, nx) && Inv(g, l, s) && Enabled(g, s, Work(r)) && Views(ws, s, nx, g.ny)
    ensures CanMove(g, s, r, ws[r], nx)
  {
    assert ViewAt(ws, s, nx, g.ny, r);
    if s.ws[r].pc == Pc.PutUp || s.ws[r].pc == Pc.PutDown {
      HaloLength(g, l, s, r, nx);
    }
  }

  lemma {:induction false} PrefixRuns(g: Grid<Row>, schedule: seq<HaloProtocol.Step>, i: nat)
    requires g.Valid() && Run(g, schedule).Some? && i <= |schedule|
    ensures Run(g, schedule[..i]).Some?
  {
    if i == |schedule| {
      assert schedule[..i] == schedule;
    } else {
      var n := |schedule| - 1;
      PrefixRuns(g, schedule[..n], i);
      assert schedule[..n][..i] == schedule[..i];
    }
  }

  /** The workers of all ranks, with the initial boundary. */
  method NewStripes(num: nat, nx: nat, ny: nat, ghost steps: nat) returns (ws: seq<Stripe>)
    requires nx >= 2 && Stripes(num, nx, ny, steps).Valid()
    ensures Separate(ws) && Views(ws, Init(Stripes(num, nx, ny, steps)), nx, ny)
    ensures forall r :: 0 <= r < |ws| ==> fresh(Footprint(ws[r]))
  {
    ghost var g := Stripes(num, nx, ny, steps);
    ws := [];
    for r := 0 to num
      invariant |ws| == r && Separate(ws) && forall q :: 0 <= q < r ==> fresh(Footprint(ws[q]))
      invariant forall q {:trigger ViewAt(ws, Init(g), nx, ny, q)} :: 0 <= q < r ==> ViewAt(ws, Init(g), nx, ny, q)
    {
      var u0 := NewBuffer(nx, ny, r, num, steps);
      var u1 := NewBuffer(nx, ny, r, num, steps);
      var w := new Stripe(u0, u1);
      ws := Append(ws, w, nx, ny, Init(g));
    }
  }

  method Append(ws: seq<Stripe>, w: Stripe, nx: nat, ny: nat, ghost s: State<Row>) returns (more: seq<Stripe>)
    requires Separate(ws) && forall q :: 0 <= q < |ws| ==> Footprint(ws[q]) !! Footprint(w)
    requires forall q {:trigger ViewAt(ws, s, nx, ny, q)} :: 0 <= q < |ws| ==> ViewAt(ws, s, nx, ny, q)
    requires Buffers(w.u0, w.u1, nx, ny) && |ws| < |s.ws| && View(w, nx, ny) == s.ws[|ws|]
    ensures more == ws + [w] && Separate(more)
    ensures forall q {:trigger ViewAt(more, s, nx, ny, q)} :: 0 <= q < |more| ==> ViewAt(more, s, nx, ny, q)
  {
    more := ws + [w];
    forall i, j | 0 <= i < |more| && 0 <= j < |more| && i != j ensures Apart(more, i, j) {
      assert i < |ws| && j < |ws| ==> Apart(ws, i, j);
    }
    forall q | 0 <= q < |more| ensures ViewAt(more, s, nx, ny, q) {
      assert q < |ws| ==> ViewAt(ws, s, nx, ny, q);
    }
  }

  method RunSchedule(ws: seq<Stripe>, num: nat, nx: nat, ny: nat, steps: nat, schedule: seq<HaloProtocol.Step>,
                     orders: seq<seq<nat>>, ghost g: Grid<Row>, ghost l: Solution<Row>)
    requires IsLockstep(g, l) && OfLines(g, nx) && g.num == num && g.ny == ny && g.steps == steps
    requires Separate(ws) && Views(ws, Init(g), nx, ny) && Run(g, schedule).Some?
    requires |orders| == |schedule| && forall i :: 0 <= i < |orders| ==> InteriorOrder(orders[i], ny)
    modifies ws, set r | 0 <= r < |ws| :: ws[r].u0, set r | 0 <= r < |ws| :: ws[r].u1
    ensures Views(ws, Run(g, schedule).value, nx, ny)
  {
    var up: seq<Channel<Row>>, down: seq<Channel<Row>> := seq(num, r => EmptyChannel()), seq(num, r => EmptyChannel());
    ghost var s := Init(g);
    for i := 0 to |schedule|
      invariant Run(g, schedule[..i]) == Some(s) && Views(ws, s, nx, ny) && up == s.up && down == s.down
    {
      NextStep(g, schedule, i);
      RunInv(g, l, schedule[..i]);
      if schedule[i].Work? {
        ReadyToMove(ws, g, l, s, schedule[i].r, nx);
      }
      up, down := OneStep(ws, up, down, num, nx, ny, steps, schedule[i], orders[i], g, s);
      s := Apply(g, s, schedule[i]);
    }
    assert schedule[..|schedule|] == schedule;
  }

  lemma NextStep(g: Grid<Row>, schedule: seq<HaloProtocol.Step>, i: nat)
    requires g.Valid() && Run(g, schedule).Some? && i < |schedule|
    ensures Run(g, schedule[..i]).Some? && Enabled(g, Run(g, schedule[..i]).value, schedule[i])
    ensures Run(g, schedule[..i + 1]) == Some(Apply(g, Run(g, schedule[..i]).value, schedule[i]))
  {
    PrefixRuns(g, schedule, i + 1);
    assert schedule[..i + 1][..i] == schedule[..i];
  }

  lemma StripesOfLines(num: nat, nx: nat, ny: nat, steps: nat) returns (g: Grid<Row>, l: Solution<Row>)
    requires Stripes(num, nx, ny, steps).Valid()
    ensures g == Stripes(num, nx, ny, steps) && IsLockstep(g, l) && OfLines(g, nx)
    ensures g.num == num && g.ny == ny && g.steps == steps
  {
    StripesLawful(num, nx, ny, steps);
    g := Stripes(num, nx, ny, steps);
    l := SomeSolution(g);
  }

  /** Runs all workers through any schedule, with the interior rows of each move in any order: at
      the end the arrays are what the protocol says. */
  method RunStripes(num: nat, nx: nat, ny: nat, steps: nat, schedule: seq<HaloProtocol.Step>, orders: seq<seq<nat>>)
    returns (ws: seq<Stripe>)
    requires nx >= 2 && Stripes(num, nx, ny, steps).Valid() && Run(Stripes(num, nx, ny, steps), schedule).Some?
    requires |orders| == |schedule| && forall i :: 0 <= i < |orders| ==> InteriorOrder(orders[i], ny)
    ensures Views(ws, Run(Stripes(num, nx, ny, steps), schedule).value, nx, ny)
  {
    ghost var g, l := StripesOfLines(num, nx, ny, steps);
    ws := NewStripes(num, nx, ny, steps);
    RunSchedule(ws, num, nx, ny, steps, schedule, orders, g, l);
  }

  /** Once a worker has finished, the array it writes out is the lockstep solution after the last
      even step. */
  lemma WrittenOut(ws: seq<Stripe>, g: Grid<Row>, nx: nat, schedule: seq<HaloProtocol.Step>, l: Solution<Row>, r: nat)
    requires IsLockstep(g, l) && Run(g, schedule).Some? && Views(ws, Run(g, schedule).value, nx, g.ny)
    requires r < |ws| && ws[r].pc == Finished
    ensures ws[r].u0.Length == Points(g.ny, nx) && RowsOf(ws[r].u0[..], g.ny, nx) == l(r, g.steps - g.steps % 2)
  {
    RunInv(g, l, schedule);
    WrittenOutNow(ws, g, nx, Run(g, schedule).value, l, r);
  }

  lemma WrittenOutNow(ws: seq<Stripe>, g: Grid<Row>, nx: nat, s: State<Row>, l: Solution<Row>, r: nat)
    requires IsLockstep(g, l) && Inv(g, l, s) && Views(ws, s, nx, g.ny) && r < |ws| && ws[r].pc == Finished
    ensures ws[r].u0.Length == Points(g.ny, nx) && RowsOf(ws[r].u0[..], g.ny, nx) == l(r, g.steps - g.steps % 2)
  {
    assert ViewAt(ws, s, nx, g.ny, r) && WorkerOk(g, l, r, s.ws[r]);
  }
}
