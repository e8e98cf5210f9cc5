/** The halo exchange as a transition system: any number of workers, each with two buffers,
    swapping rows through channels keyed by the step number.

    Assumed semantics of a channel: `set(row, step)` is fire and forget, so the row is first
    in transit and arrives later; `get(step)` completes once the row of that step has arrived,
    and takes it.  Every step of a worker between two communications is atomic here, because
    it touches only that worker's buffers. */
module HaloProtocol {
  import opened HaloGrid
  import opened Options

  // ------------------------------------------------------------------ channels

  /** Rows in flight by tag, and the tags set and got so far, in order. */
  datatype Channel<R> = Channel(transit: map<nat, R>, arrived: map<nat, R>, sets: seq<nat>, gets: seq<nat>) {
    function Set(tag: nat, row: R): Channel<R> {
      this.(transit := transit[tag := row], sets := sets + [tag])
    }
    function Deliver(tag: nat): Channel<R>
      requires tag in transit
    {
      this.(transit := transit - {tag}, arrived := arrived[tag := transit[tag]])
    }
    function Get(tag: nat): Channel<R>
      requires tag in arrived
    {
      this.(arrived := arrived - {tag}, gets := gets + [tag])
    }
    function Unread(): set<nat> {
      transit.Keys + arrived.Keys
    }
  }

  function EmptyChannel<R>(): Channel<R> {
    Channel(map[], map[], [], [])
  }

  // ------------------------------------------------------------------- workers

  datatype Pc = SendUp | SendDown | GetUp | PutUp | Interior | GetDown | PutDown | Swap | Finished {
    function Order(): nat {
      match this
      case SendUp => 0 case SendDown => 1 case GetUp => 2 case PutUp => 3 case Interior => 4
      case GetDown => 5 case PutDown => 6 case Swap => 7 case Finished => 8
    }
  }

  /** `t` counts completed steps; `u0` is the current buffer unless `flipped`. */
  datatype Worker<R> = Worker(t: nat, pc: Pc, u0: Buffer<R>, u1: Buffer<R>, flipped: bool, halo: Option<R>) {
    function Curr(): Buffer<R> { if flipped then u1 else u0 }
    function Next(): Buffer<R> { if flipped then u0 else u1 }
    function WithNext(b: Buffer<R>): Worker<R> {
      if flipped then this.(u0 := b) else this.(u1 := b)
    }
    // rows sent and received so far
    function SentUp(): nat { if pc == SendUp then 0 else if pc.Order() <= 3 then 1 + t else if pc == Finished then 1 + t else 2 + t }
    function SentDown(): nat { if pc.Order() <= 1 then 0 else if pc == Swap then 2 + t else 1 + t }
    function GotUp(): nat { if 3 <= pc.Order() <= 7 then 1 + t else t }
    function GotDown(): nat { if 6 <= pc.Order() <= 7 then 1 + t else t }
  }

  datatype State<R> = State(ws: seq<Worker<R>>, up: seq<Channel<R>>, down: seq<Channel<R>>)

  datatype Step = Work(r: nat) | DeliverUp(r: nat, tag: nat) | DeliverDown(r: nat, tag: nat)

  function StartOf<R>(g: Grid<R>, t: nat): Pc {
    if t < g.steps then GetUp else Finished
  }

  function InitWorker<R>(g: Grid<R>, r: nat): Worker<R> {
    Worker(0, SendUp, InitBuffer(g, r), InitBuffer(g, r), false, None)
  }

  function Init<R>(g: Grid<R>): State<R> {
    State(seq(g.num, r requires 0 <= r => InitWorker(g, r)), seq(g.num, r => EmptyChannel()), seq(g.num, r => EmptyChannel()))
  }

  predicate Shaped<R>(g: Grid<R>, s: State<R>) {
    |s.ws| == |s.up| == |s.down| == g.num
  }

  predicate WellFormed<R>(g: Grid<R>, w: Worker<R>) {
    && |w.u0| == |w.u1| == g.ny
    && (w.pc == PutUp ==> w.halo.Some?)
    && (w.pc == PutDown ==> w.halo.Some? && g.ny >= 3)
  }

  predicate Enabled<R>(g: Grid<R>, s: State<R>, step: Step) {
    Shaped(g, s) && step.r < g.num &&
    match step
    case DeliverUp(r, tag) => tag in s.up[r].transit
    case DeliverDown(r, tag) => tag in s.down[r].transit
    case Work(r) =>
      var w := s.ws[r];
      && WellFormed(g, w) && w.pc != Finished
      && (w.pc == GetUp && g.HasUp(r) ==> w.t in s.down[r-1].arrived)
      && (w.pc == GetDown && g.HasDown(r) ==> w.t in s.up[r+1].arrived)
  }

  /** The worker after its next move. */
  function MovedWorker<R>(g: Grid<R>, s: State<R>, r: nat): Worker<R>
    requires g.Valid() && Enabled(g, s, Work(r))
  {
    var w := s.ws[r];
    match w.pc
    case SendUp => w.(pc := SendDown)
    case SendDown => w.(pc := StartOf(g, 0))
    case GetUp =>
      if g.HasUp(r) then w.(pc := PutUp, halo := Some(s.down[r-1].arrived[w.t])) else w.(pc := Interior)
    case PutUp =>
      w.WithNext(TopUpdate(g, w.Curr(), w.Next(), w.halo.value)).(pc := Interior)
    case Interior => w.WithNext(InteriorUpdate(g, w.Curr(), w.Next())).(pc := GetDown)
    case GetDown =>
      if g.HasDown(r) then w.(pc := PutDown, halo := Some(s.up[r+1].arrived[w.t])) else w.(pc := Swap)
    case PutDown =>
      w.WithNext(BottomUpdate(g, w.Curr(), w.Next(), w.halo.value)).(pc := Swap)
    case Swap => w.(t := w.t + 1, flipped := !w.flipped, pc := StartOf(g, w.t + 1))
    case Finished => w
  }

  /** The upward channel rank r sends on, after r's next move. */
  function MovedUp<R>(g: Grid<R>, s: State<R>, r: nat): Channel<R>
    requires g.Valid() && Enabled(g, s, Work(r))
  {
    var w, ch := s.ws[r], s.up[r];
    if !g.HasUp(r) then ch
    else if w.pc == SendUp then ch.Set(0, w.u0[0])
    else if w.pc == PutUp then ch.Set(w.t + 1, MovedWorker(g, s, r).Next()[0])
    else ch
  }

  function MovedDown<R>(g: Grid<R>, s: State<R>, r: nat): Channel<R>
    requires g.Valid() && Enabled(g, s, Work(r))
  {
    var w, ch := s.ws[r], s.down[r];
    if !g.HasDown(r) then ch
    else if w.pc == SendDown then ch.Set(0, w.u0[g.ny-1])
    else if w.pc == PutDown then ch.Set(w.t + 1, MovedWorker(g, s, r).Next()[g.ny-2])
    else ch
  }

  /** All channels after r's next move: r may send on its own and get from a neighbour's. */
  function MovedUps<R>(g: Grid<R>, s: State<R>, r: nat): seq<Channel<R>>
    requires g.Valid() && Enabled(g, s, Work(r))
  {
    var up := s.up[r := MovedUp(g, s, r)];
    if s.ws[r].pc == GetDown && g.HasDown(r) then up[r + 1 := s.up[r+1].Get(s.ws[r].t)] else up
  }

  function MovedDowns<R>(g: Grid<R>, s: State<R>, r: nat): seq<Channel<R>>
    requires g.Valid() && Enabled(g, s, Work(r))
  {
    var down := s.down[r := MovedDown(g, s, r)];
    if s.ws[r].pc == GetUp && g.HasUp(r) then down[r - 1 := s.down[r-1].Get(s.ws[r].t)] else down
  }

  function Apply<R>(g: Grid<R>, s: State<R>, step: Step): State<R>
    requires g.Valid() && Enabled(g, s, step)
  {
    match step
    case DeliverUp(r, tag) => s.(up := s.up[r := s.up[r].Deliver(tag)])
    case DeliverDown(r, tag) => s.(down := s.down[r := s.down[r].Deliver(tag)])
    case Work(r) => State(s.ws[r := MovedWorker(g, s, r)], MovedUps(g, s, r), MovedDowns(g, s, r))
  }

  function Run<R>(g: Grid<R>, schedule: seq<Step>): Option<State<R>>
    requires g.Valid()
  {
    if schedule == [] then Some(Init(g))
    else
      var n := |schedule| - 1;
      var before := Run(g, schedule[..n]);
      if before.Some? && Enabled(g, before.value, schedule[n])
      then Some(Apply(g, before.value, schedule[n])) else None
  }

  // ----------------------------------------------------------------- invariant

  /** The lockstep solution as a function value, so that it is unfolded only on demand. */
  type Solution<!R> = (nat, nat) -> Buffer<R>

  ghost function Above<R>(g: Grid<R>, l: Solution<R>, r: nat, t: nat): R
    requires g.Valid() && AllBuffers(g, l)
  {
    if !g.HasUp(r) then g.init(r, 0) else if t == 0 then g.init(r - 1, g.ny - 1) else l(r - 1, t)[g.ny-2]
  }

  ghost function Below<R>(g: Grid<R>, l: Solution<R>, r: nat, t: nat): R
    requires g.Valid() && AllBuffers(g, l)
  {
    if !g.HasDown(r) then g.init(r, 0) else l(r + 1, t)[0]
  }

  ghost predicate AllBuffers<R>(g: Grid<R>, l: Solution<R>) {
    forall r: nat, t: nat :: |l(r, t)| == g.ny
  }

  ghost predicate Follows<R>(g: Grid<R>, l: Solution<R>, r: nat, t: nat)
    requires g.Valid() && AllBuffers(g, l)
  {
    && l(r, 0) == InitBuffer(g, r)
    && l(r, t + 1) == NextBuffer(g, r, l(r, t), Above(g, l, r, t), Below(g, l, r, t))
  }

  ghost predicate Recurrence<R>(g: Grid<R>, l: Solution<R>) {
    && g.Valid() && AllBuffers(g, l)
    && forall r: nat, t: nat {:trigger Follows(g, l, r, t)} :: Follows(g, l, r, t)
  }

  ghost predicate IsLockstep<R(!new)>(g: Grid<R>, l: Solution<R>) {
    Lawful(g) && Recurrence(g, l)
  }

  /** What rank r's worker holds, by program point. */
  ghost predicate WorkerOk<R>(g: Grid<R>, l: Solution<R>, r: nat, w: Worker<R>)
    requires g.Valid() && AllBuffers(g, l)
  {
    && WellFormed(g, w)
    && w.Curr() == l(r, w.t) && Framed(g, r, w.Next())
    && (w.pc.Order() <= 3 || w.pc == Finished ==> w.Next() == l(r, if w.t == 0 then 0 else w.t - 1))
    && w.flipped == (w.t % 2 == 1)
    && w.t <= g.steps && (w.pc == Finished ==> w.t == g.steps)
    && (2 <= w.pc.Order() <= 7 ==> w.t < g.steps)
    && (w.pc.Order() <= 1 ==> w.t == 0)
    && (w.pc == PutUp ==> g.HasUp(r) && w.halo == Some(Above(g, l, r, w.t)))
    && (w.pc == PutDown ==> g.HasDown(r) && w.halo == Some(Below(g, l, r, w.t)))
    && (4 <= w.pc.Order() <= 7 ==> w.Next()[0] == l(r, w.t + 1)[0])
    && (5 <= w.pc.Order() <= 7 ==> InteriorDone(g, r, w.Next(), l(r, w.t + 1)))
    && (w.pc == Swap ==> w.Next() == l(r, w.t + 1))
  }

  function Iota(n: nat): (s: seq<nat>) {
    seq(n, i requires 0 <= i => i)
  }

  /** A channel on which n rows were set and m got: every tag once, in order; the unread
      tags m .. n-1 are each in transit or arrived, with the row `row` says. */
  ghost predicate ChannelOk<R>(ch: Channel<R>, n: nat, m: nat, row: nat -> R) {
    && m <= n && ch.sets == Iota(n) && ch.gets == Iota(m)
    && ch.transit.Keys !! ch.arrived.Keys
    && (forall k :: k in ch.transit || k in ch.arrived <==> m <= k < n)
    && (forall k :: k in ch.transit ==> ch.transit[k] == row(k))
    && (forall k :: k in ch.arrived ==> ch.arrived[k] == row(k))
  }

  /** The rows rank r sends up, and down, by tag. */
  ghost function UpRow<R>(g: Grid<R>, l: Solution<R>, r: nat): nat -> R
    requires g.Valid() && AllBuffers(g, l) && g.HasUp(r)
  {
    (k: nat) => Below(g, l, r - 1, k)
  }

  ghost function DownRow<R>(g: Grid<R>, l: Solution<R>, r: nat): nat -> R
    requires g.Valid() && AllBuffers(g, l) && g.HasDown(r)
  {
    (k: nat) => Above(g, l, r + 1, k)
  }

  ghost predicate UpOk<R>(g: Grid<R>, l: Solution<R>, s: State<R>, r: nat)
    requires g.Valid() && AllBuffers(g, l) && Shaped(g, s) && r < g.num
  {
    g.HasUp(r) ==> ChannelOk(s.up[r], s.ws[r].SentUp(), s.ws[r-1].GotDown(), UpRow(g, l, r))
  }

  ghost predicate DownOk<R>(g: Grid<R>, l: Solution<R>, s: State<R>, r: nat)
    requires g.Valid() && AllBuffers(g, l) && Shaped(g, s) && r < g.num
  {
    g.HasDown(r) ==> ChannelOk(s.down[r], s.ws[r].SentDown(), s.ws[r+1].GotUp(), DownRow(g, l, r))
  }

  ghost predicate Inv<R>(g: Grid<R>, l: Solution<R>, s: State<R>)
    requires g.Valid() && AllBuffers(g, l)
  {
    && Shaped(g, s)
    && (forall r {:trigger WorkerOk(g, l, r, s.ws[r])} :: 0 <= r < g.num ==> WorkerOk(g, l, r, s.ws[r]))
    && (forall r {:trigger UpOk(g, l, s, r)} :: 0 <= r < g.num ==> UpOk(g, l, s, r))
    && (forall r {:trigger DownOk(g, l, s, r)} :: 0 <= r < g.num ==> DownOk(g, l, s, r))
  }

  // ------------------------------------------------------- channels keep order

  lemma ChannelSet<R(!new)>(ch: Channel<R>, n: nat, m: nat, row: nat -> R)
    requires ChannelOk(ch, n, m, row)
    ensures ChannelOk(ch.Set(n, row(n)), n + 1, m, row)
  {
    assert Iota(n) + [n] == Iota(n + 1);
  }

  lemma ChannelDeliver<R(!new)>(ch: Channel<R>, n: nat, m: nat, row: nat -> R, tag: nat)
    requires ChannelOk(ch, n, m, row) && tag in ch.transit
    ensures ChannelOk(ch.Deliver(tag), n, m, row)
  {}

  lemma ChannelGet<R(!new)>(ch: Channel<R>, n: nat, m: nat, row: nat -> R)
    requires ChannelOk(ch, n, m, row) && m in ch.arrived
    ensures ch.arrived[m] == row(m)
    ensures ChannelOk(ch.Get(m), n, m + 1, row)
  {
    assert Iota(m) + [m] == Iota(m + 1);
  }

  // ------------------------------------------------- workers follow the lockstep

  lemma SolutionFramed<R(!new)>(g: Grid<R>, l: Solution<R>, r: nat, t: nat)
    requires IsLockstep(g, l) && r < g.num
    ensures Framed(g, r, l(r, t))
  {
    if t == 0 {
      assert Follows(g, l, r, 0);
    } else {
      assert Follows(g, l, r, t - 1);
      NextBufferFramed(g, r, l(r, t - 1), Above(g, l, r, t - 1), Below(g, l, r, t - 1));
    }
  }

  lemma TopPhase<R(!new)>(g: Grid<R>, l: Solution<R>, r: nat, t: nat, n: Buffer<R>)
    requires IsLockstep(g, l) && r < g.num && Framed(g, r, n)
    ensures g.HasUp(r) ==> Framed(g, r, TopUpdate(g, l(r, t), n, Above(g, l, r, t)))
    ensures g.HasUp(r) ==> TopUpdate(g, l(r, t), n, Above(g, l, r, t))[0] == l(r, t + 1)[0]
    ensures !g.HasUp(r) ==> n[0] == l(r, t + 1)[0]
  {
    assert Follows(g, l, r, t);
    TopRow(g, r, l(r, t), n, Above(g, l, r, t), Below(g, l, r, t));
  }

  lemma InteriorPhase<R(!new)>(g: Grid<R>, l: Solution<R>, r: nat, t: nat, n: Buffer<R>)
    requires IsLockstep(g, l) && r < g.num && Framed(g, r, n)
    ensures Framed(g, r, InteriorUpdate(g, l(r, t), n)) && InteriorUpdate(g, l(r, t), n)[0] == n[0]
    ensures InteriorDone(g, r, InteriorUpdate(g, l(r, t), n), l(r, t + 1))
  {
    assert Follows(g, l, r, t);
    InteriorRows(g, r, l(r, t), n, Above(g, l, r, t), Below(g, l, r, t));
  }

  lemma BottomPhase<R(!new)>(g: Grid<R>, l: Solution<R>, r: nat, t: nat, n: Buffer<R>)
    requires IsLockstep(g, l) && r < g.num && Framed(g, r, n)
    requires n[0] == l(r, t + 1)[0] && InteriorDone(g, r, n, l(r, t + 1))
    ensures (if g.HasDown(r) then BottomUpdate(g, l(r, t), n, Below(g, l, r, t)) else n) == l(r, t + 1)
  {
    assert Follows(g, l, r, t);
    BottomCompletes(g, r, l(r, t), n, Above(g, l, r, t), Below(g, l, r, t));
  }

  lemma PutUpOk<R(!new)>(g: Grid<R>, l: Solution<R>, r: nat, w: Worker<R>)
    requires IsLockstep(g, l) && r < g.num && WorkerOk(g, l, r, w) && w.pc == PutUp
    ensures WorkerOk(g, l, r, w.WithNext(TopUpdate(g, w.Curr(), w.Next(), w.halo.value)).(pc := Interior))
  {
    TopPhase(g, l, r, w.t, w.Next());
  }

  lemma InteriorOk<R(!new)>(g: Grid<R>, l: Solution<R>, r: nat, w: Worker<R>)
    requires IsLockstep(g, l) && r < g.num && WorkerOk(g, l, r, w) && w.pc == Interior
    ensures WorkerOk(g, l, r, w.WithNext(InteriorUpdate(g, w.Curr(), w.Next())).(pc := GetDown))
  {
    InteriorPhase(g, l, r, w.t, w.Next());
  }

  lemma PutDownOk<R(!new)>(g: Grid<R>, l: Solution<R>, r: nat, w: Worker<R>)
    requires IsLockstep(g, l) && r < g.num && WorkerOk(g, l, r, w) && w.pc == PutDown
    ensures WorkerOk(g, l, r, w.WithNext(BottomUpdate(g, w.Curr(), w.Next(), w.halo.value)).(pc := Swap))
  {
    BottomPhase(g, l, r, w.t, w.Next());
    SolutionFramed(g, l, r, w.t + 1);
  }

  lemma SwapOk<R(!new)>(g: Grid<R>, l: Solution<R>, r: nat, w: Worker<R>)
    requires IsLockstep(g, l) && r < g.num && WorkerOk(g, l, r, w) && w.pc == Swap
    ensures WorkerOk(g, l, r, w.(t := w.t + 1, flipped := !w.flipped, pc := StartOf(g, w.t + 1)))
  {
    SolutionFramed(g, l, r, w.t);
  }

  /** A row that is received is the one the lockstep solution wants. */
  lemma RowFromAbove<R(!new)>(g: Grid<R>, l: Solution<R>, s: State<R>, r: nat)
    requires IsLockstep(g, l) && Inv(g, l, s) && Enabled(g, s, Work(r)) && s.ws[r].pc == GetUp && g.HasUp(r)
    ensures s.down[r-1].arrived[s.ws[r].t] == Above(g, l, r, s.ws[r].t)
  {
    assert DownOk(g, l, s, r - 1);
    ChannelGet(s.down[r-1], s.ws[r-1].SentDown(), s.ws[r].t, DownRow(g, l, r - 1));
  }

  lemma RowFromBelow<R(!new)>(g: Grid<R>, l: Solution<R>, s: State<R>, r: nat)
    requires IsLockstep(g, l) && Inv(g, l, s) && Enabled(g, s, Work(r)) && s.ws[r].pc == GetDown && g.HasDown(r)
    ensures s.up[r+1].arrived[s.ws[r].t] == Below(g, l, r, s.ws[r].t)
  {
    assert UpOk(g, l, s, r + 1);
    ChannelGet(s.up[r+1], s.ws[r+1].SentUp(), s.ws[r].t, UpRow(g, l, r + 1));
  }

  /** The worker after receiving from above, or without anything to receive. */
  lemma ReceivedUp<R(!new)>(g: Grid<R>, l: Solution<R>, r: nat, w: Worker<R>)
    requires IsLockstep(g, l) && r < g.num && WorkerOk(g, l, r, w) && w.pc == GetUp
    ensures g.HasUp(r) ==> WorkerOk(g, l, r, w.(pc := PutUp, halo := Some(Above(g, l, r, w.t))))
    ensures !g.HasUp(r) ==> WorkerOk(g, l, r, w.(pc := Interior))
  {
    TopPhase(g, l, r, w.t, w.Next());
  }

  lemma ReceivedDown<R(!new)>(g: Grid<R>, l: Solution<R>, r: nat, w: Worker<R>)
    requires IsLockstep(g, l) && r < g.num && WorkerOk(g, l, r, w) && w.pc == GetDown
    ensures g.HasDown(r) ==> WorkerOk(g, l, r, w.(pc := PutDown, halo := Some(Below(g, l, r, w.t))))
    ensures !g.HasDown(r) ==> WorkerOk(g, l, r, w.(pc := Swap))
  {
    BottomPhase(g, l, r, w.t, w.Next());
  }

  lemma GetOk<R(!new)>(g: Grid<R>, l: Solution<R>, s: State<R>, r: nat)
    requires IsLockstep(g, l) && Inv(g, l, s) && Enabled(g, s, Work(r)) && (s.ws[r].pc == GetUp || s.ws[r].pc == GetDown)
    ensures WorkerOk(g, l, r, MovedWorker(g, s, r))
  {
    assert WorkerOk(g, l, r, s.ws[r]);
    if s.ws[r].pc == GetUp {
      ReceivedUp(g, l, r, s.ws[r]);
      if g.HasUp(r) {
        RowFromAbove(g, l, s, r);
      }
    } else {
      ReceivedDown(g, l, r, s.ws[r]);
      if g.HasDown(r) {
        RowFromBelow(g, l, s, r);
      }
    }
  }

  lemma SendOk<R(!new)>(g: Grid<R>, l: Solution<R>, r: nat, w: Worker<R>)
    requires IsLockstep(g, l) && r < g.num && WorkerOk(g, l, r, w)
    ensures w.pc == SendUp ==> WorkerOk(g, l, r, w.(pc := SendDown))
    ensures w.pc == SendDown ==> WorkerOk(g, l, r, w.(pc := StartOf(g, 0)))
  {}

  /** Moves that receive nothing depend on the worker alone. */
  lemma OwnMoveOk<R(!new)>(g: Grid<R>, l: Solution<R>, s: State<R>, r: nat)
    requires IsLockstep(g, l) && Inv(g, l, s) && Enabled(g, s, Work(r)) && s.ws[r].pc != GetUp && s.ws[r].pc != GetDown
    ensures WorkerOk(g, l, r, MovedWorker(g, s, r))
  {
    var w := s.ws[r];
    assert WorkerOk(g, l, r, s.ws[r]);
    match w.pc
    case PutUp => PutUpOk(g, l, r, w);
    case Interior => InteriorOk(g, l, r, w);
    case PutDown => PutDownOk(g, l, r, w);
    case Swap => SwapOk(g, l, r, w);
    case SendUp => SendOk(g, l, r, w);
    case SendDown => SendOk(g, l, r, w);
  }

  lemma MovedOk<R(!new)>(g: Grid<R>, l: Solution<R>, s: State<R>, r: nat)
    requires IsLockstep(g, l) && Inv(g, l, s) && Enabled(g, s, Work(r))
    ensures WorkerOk(g, l, r, MovedWorker(g, s, r))
  {
    if s.ws[r].pc == GetUp || s.ws[r].pc == GetDown {
      GetOk(g, l, s, r);
    } else {
      OwnMoveOk(g, l, s, r);
    }
  }

  // --------------------------------------------------- channels stay consistent

  /** How many rows rank r has sent and received after its next move. */
  lemma UpCounters<R(!new)>(g: Grid<R>, l: Solution<R>, s: State<R>, r: nat)
    requires IsLockstep(g, l) && Inv(g, l, s) && Enabled(g, s, Work(r)) && g.HasUp(r)
    ensures var w, w' := s.ws[r], MovedWorker(g, s, r);
      && w'.SentUp() == w.SentUp() + (if w.pc == SendUp || w.pc == PutUp then 1 else 0)
      && w'.GotUp() == w.GotUp() + (if w.pc == GetUp then 1 else 0)
  {
    assert WorkerOk(g, l, r, s.ws[r]);
  }

  lemma DownCounters<R(!new)>(g: Grid<R>, l: Solution<R>, s: State<R>, r: nat)
    requires IsLockstep(g, l) && Inv(g, l, s) && Enabled(g, s, Work(r)) && g.HasDown(r)
    ensures var w, w' := s.ws[r], MovedWorker(g, s, r);
      && w'.SentDown() == w.SentDown() + (if w.pc == SendDown || w.pc == PutDown then 1 else 0)
      && w'.GotDown() == w.GotDown() + (if w.pc == GetDown then 1 else 0)
  {
    assert WorkerOk(g, l, r, s.ws[r]);
  }

  /** The rows rank r sends up, first and later. */
  lemma FirstUp<R(!new)>(g: Grid<R>, l: Solution<R>, s: State<R>, r: nat)
    requires IsLockstep(g, l) && Inv(g, l, s) && Enabled(g, s, Work(r)) && g.HasUp(r) && s.ws[r].pc == SendUp
    ensures s.ws[r].u0[0] == UpRow(g, l, r)(0)
  {
    assert WorkerOk(g, l, r, s.ws[r]);
  }

  lemma LaterUp<R(!new)>(g: Grid<R>, l: Solution<R>, s: State<R>, r: nat)
    requires IsLockstep(g, l) && Inv(g, l, s) && Enabled(g, s, Work(r)) && g.HasUp(r) && s.ws[r].pc == PutUp
    ensures MovedWorker(g, s, r).Next()[0] == UpRow(g, l, r)(s.ws[r].t + 1)
  {
    var w := s.ws[r];
    assert WorkerOk(g, l, r, s.ws[r]);
    TopPhase(g, l, r, w.t, w.Next());
    assert MovedWorker(g, s, r).Next() == TopUpdate(g, l(r, w.t), w.Next(), Above(g, l, r, w.t));
  }

  lemma FirstDown<R(!new)>(g: Grid<R>, l: Solution<R>, s: State<R>, r: nat)
    requires IsLockstep(g, l) && Inv(g, l, s) && Enabled(g, s, Work(r)) && g.HasDown(r) && s.ws[r].pc == SendDown
    ensures s.ws[r].u0[g.ny-1] == DownRow(g, l, r)(0)
  {
    assert WorkerOk(g, l, r, s.ws[r]);
    SolutionFramed(g, l, r, 0);
  }

  lemma LaterDown<R(!new)>(g: Grid<R>, l: Solution<R>, s: State<R>, r: nat)
    requires IsLockstep(g, l) && Inv(g, l, s) && Enabled(g, s, Work(r)) && g.HasDown(r) && s.ws[r].pc == PutDown
    ensures MovedWorker(g, s, r).Next()[g.ny-2] == DownRow(g, l, r)(s.ws[r].t + 1)
  {
    assert WorkerOk(g, l, r, s.ws[r]);
    BottomPhase(g, l, r, s.ws[r].t, s.ws[r].Next());
  }

  lemma MovedUpOk<R(!new)>(g: Grid<R>, l: Solution<R>, s: State<R>, r: nat)
    requires IsLockstep(g, l) && Inv(g, l, s) && Enabled(g, s, Work(r)) && g.HasUp(r)
    ensures ChannelOk(MovedUp(g, s, r), MovedWorker(g, s, r).SentUp(), s.ws[r-1].GotDown(), UpRow(g, l, r))
  {
    assert UpOk(g, l, s, r);
    UpCounters(g, l, s, r);
    if s.ws[r].pc == SendUp {
      FirstUp(g, l, s, r);
    } else if s.ws[r].pc == PutUp {
      LaterUp(g, l, s, r);
    }
    ChannelSet(s.up[r], s.ws[r].SentUp(), s.ws[r-1].GotDown(), UpRow(g, l, r));
  }

  lemma MovedDownOk<R(!new)>(g: Grid<R>, l: Solution<R>, s: State<R>, r: nat)
    requires IsLockstep(g, l) && Inv(g, l, s) && Enabled(g, s, Work(r)) && g.HasDown(r)
    ensures ChannelOk(MovedDown(g, s, r), MovedWorker(g, s, r).SentDown(), s.ws[r+1].GotUp(), DownRow(g, l, r))
  {
    assert DownOk(g, l, s, r);
    DownCounters(g, l, s, r);
    if s.ws[r].pc == SendDown {
      FirstDown(g, l, s, r);
    } else if s.ws[r].pc == PutDown {
      LaterDown(g, l, s, r);
    }
    ChannelSet(s.down[r], s.ws[r].SentDown(), s.ws[r+1].GotUp(), DownRow(g, l, r));
  }

  /** A neighbour's channel, from which rank r may take a row. */
  lemma TakenUpOk<R(!new)>(g: Grid<R>, l: Solution<R>, s: State<R>, r: nat)
    requires IsLockstep(g, l) && Inv(g, l, s) && Enabled(g, s, Work(r)) && r + 1 < g.num
    ensures UpOk(g, l, Apply(g, s, Work(r)), r + 1)
  {
    assert UpOk(g, l, s, r + 1) && WorkerOk(g, l, r, s.ws[r]);
    DownCounters(g, l, s, r);
    if s.ws[r].pc == GetDown {
      ChannelGet(s.up[r+1], s.ws[r+1].SentUp(), s.ws[r].t, UpRow(g, l, r + 1));
    }
  }

  lemma TakenDownOk<R(!new)>(g: Grid<R>, l: Solution<R>, s: State<R>, r: nat)
    requires IsLockstep(g, l) && Inv(g, l, s) && Enabled(g, s, Work(r)) && r > 0
    ensures DownOk(g, l, Apply(g, s, Work(r)), r - 1)
  {
    assert DownOk(g, l, s, r - 1) && WorkerOk(g, l, r, s.ws[r]);
    UpCounters(g, l, s, r);
    if s.ws[r].pc == GetUp {
      ChannelGet(s.down[r-1], s.ws[r-1].SentDown(), s.ws[r].t, DownRow(g, l, r - 1));
    }
  }

  lemma WorkUpOk<R(!new)>(g: Grid<R>, l: Solution<R>, s: State<R>, r: nat, q: nat)
    requires IsLockstep(g, l) && Inv(g, l, s) && Enabled(g, s, Work(r)) && q < g.num
    ensures UpOk(g, l, Apply(g, s, Work(r)), q)
  {
    assert UpOk(g, l, s, q);
    if q == r && g.HasUp(r) {
      MovedUpOk(g, l, s, r);
    } else if q == r + 1 {
      TakenUpOk(g, l, s, r);
    }
  }

  lemma WorkDownOk<R(!new)>(g: Grid<R>, l: Solution<R>, s: State<R>, r: nat, q: nat)
    requires IsLockstep(g, l) && Inv(g, l, s) && Enabled(g, s, Work(r)) && q < g.num
    ensures DownOk(g, l, Apply(g, s, Work(r)), q)
  {
    assert DownOk(g, l, s, q);
    if q == r && g.HasDown(r) {
      MovedDownOk(g, l, s, r);
    } else if q + 1 == r {
      TakenDownOk(g, l, s, r);
    }
  }

  lemma WorkInv<R(!new)>(g: Grid<R>, l: Solution<R>, s: State<R>, r: nat)
    requires IsLockstep(g, l) && Inv(g, l, s) && Enabled(g, s, Work(r))
    ensures Inv(g, l, Apply(g, s, Work(r)))
  {
    var s' := Apply(g, s, Work(r));
    forall q | 0 <= q < g.num ensures WorkerOk(g, l, q, s'.ws[q]) {
      assert WorkerOk(g, l, q, s.ws[q]);
      if q == r {
        MovedOk(g, l, s, r);
      }
    }
    forall q | 0 <= q < g.num ensures UpOk(g, l, s', q) {
      WorkUpOk(g, l, s, r, q);
    }
    forall q | 0 <= q < g.num ensures DownOk(g, l, s', q) {
      WorkDownOk(g, l, s, r, q);
    }
  }

  lemma DeliverInv<R(!new)>(g: Grid<R>, l: Solution<R>, s: State<R>, step: Step)
    requires IsLockstep(g, l) && Inv(g, l, s) && Enabled(g, s, step) && !step.Work?
    ensures Inv(g, l, Apply(g, s, step))
  {
    var s' := Apply(g, s, step);
    forall q | 0 <= q < g.num ensures WorkerOk(g, l, q, s'.ws[q]) {
      assert WorkerOk(g, l, q, s.ws[q]);
    }
    forall q | 0 <= q < g.num ensures UpOk(g, l, s', q) {
      assert UpOk(g, l, s, q);
      if step.DeliverUp? && q == step.r && g.HasUp(q) {
        ChannelDeliver(s.up[q], s.ws[q].SentUp(), s.ws[q-1].GotDown(), UpRow(g, l, q), step.tag);
      }
    }
    forall q | 0 <= q < g.num ensures DownOk(g, l, s', q) {
      assert DownOk(g, l, s, q);
      if step.DeliverDown? && q == step.r && g.HasDown(q) {
        ChannelDeliver(s.down[q], s.ws[q].SentDown(), s.ws[q+1].GotUp(), DownRow(g, l, q), step.tag);
      }
    }
  }

  lemma StepInv<R(!new)>(g: Grid<R>, l: Solution<R>, s: State<R>, step: Step)
    requires IsLockstep(g, l) && Inv(g, l, s) && Enabled(g, s, step)
    ensures Inv(g, l, Apply(g, s, step))
  {
    if step.Work? {
      WorkInv(g, l, s, step.r);
    } else {
      DeliverInv(g, l, s, step);
    }
  }

  lemma InitInv<R(!new)>(g: Grid<R>, l: Solution<R>)
    requires IsLockstep(g, l)
    ensures Inv(g, l, Init(g))
  {
    var s := Init(g);
    forall q | 0 <= q < g.num ensures WorkerOk(g, l, q, s.ws[q]) {
      assert Follows(g, l, q, 0);
      SolutionFramed(g, l, q, 0);
    }
    forall q | 0 <= q < g.num ensures UpOk(g, l, s, q) && DownOk(g, l, s, q) {}
  }

  /** Every state of every schedule satisfies the invariant. */
  lemma {:induction false} RunInv<R(!new)>(g: Grid<R>, l: Solution<R>, schedule: seq<Step>)
    requires IsLockstep(g, l) && Run(g, schedule).Some?
    ensures Inv(g, l, Run(g, schedule).value)
  {
    if schedule == [] {
      InitInv(g, l);
    } else {
      var n := |schedule| - 1;
      RunInv(g, l, schedule[..n]);
      StepInv(g, l, Run(g, schedule[..n]).value, schedule[n]);
    }
  }

  // ------------------------------------------------------ the lockstep solution

  ghost function SolutionOf<R>(g: Grid<R>): Solution<R>
    requires g.Valid()
  {
    (r: nat, t: nat) => Lockstep(g, r, t)
  }

  /** The lockstep recurrence has a solution, the function Lockstep. */
  lemma LockstepSolves<R>(g: Grid<R>)
    requires g.Valid()
    ensures Recurrence(g, SolutionOf(g))
  {
    var l := SolutionOf(g);
    forall r: nat, t: nat ensures Follows(g, l, r, t) {
      assert Above(g, l, r, t) == FromAbove(g, r, t) && Below(g, l, r, t) == FromBelow(g, r, t);
    }
  }

  /** It has no other solution. */
  lemma {:induction false} LockstepUnique<R>(g: Grid<R>, l: Solution<R>, r: nat, t: nat)
    requires Recurrence(g, l)
    ensures l(r, t) == Lockstep(g, r, t)
    decreases t, 0
  {
    if t == 0 {
      assert Follows(g, l, r, 0);
    } else {
      LockstepUnique(g, l, r, t - 1);
      HalosUnique(g, l, r, t - 1);
      assert l(r, t) == NextBuffer(g, r, l(r, t - 1), Above(g, l, r, t - 1), Below(g, l, r, t - 1)) by {
        assert Follows(g, l, r, t - 1);
      }
    }
  }

  lemma {:induction false} HalosUnique<R>(g: Grid<R>, l: Solution<R>, r: nat, t: nat)
    requires Recurrence(g, l)
    ensures Above(g, l, r, t) == FromAbove(g, r, t)
    ensures Below(g, l, r, t) == FromBelow(g, r, t)
    decreases t, 1
  {
    if g.HasUp(r) {
      LockstepUnique(g, l, r - 1, t);
    }
    if g.HasDown(r) {
      LockstepUnique(g, l, r + 1, t);
    }
  }

  lemma SomeSolution<R(!new)>(g: Grid<R>) returns (l: Solution<R>)
    requires Lawful(g)
    ensures IsLockstep(g, l)
  {
    LockstepSolves(g);
    l := SolutionOf(g);
  }
}
