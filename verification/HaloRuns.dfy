/** Theorems about whole runs of the halo exchange, under every schedule. */
module HaloRuns {
  import opened HaloGrid
  import opened HaloProtocol

  // -------------------------------------------------------------------- results

  /** What a worker holds: the current buffer after t steps is the lockstep solution of t,
      neither buffer has changed where no step writes, and the first buffer, which is the one
      written out at the end, is the solution of the last even step. */
  ghost predicate InLockstep<R>(g: Grid<R>, l: Solution<R>, r: nat, w: Worker<R>) {
    && w.Curr() == l(r, w.t) && Framed(g, r, w.u0) && Framed(g, r, w.u1)
    && (w.pc == Finished ==> w.t == g.steps && w.u0 == l(r, g.steps - g.steps % 2))
  }

  lemma WorkerInLockstep<R(!new)>(g: Grid<R>, l: Solution<R>, r: nat, w: Worker<R>)
    requires IsLockstep(g, l) && r < g.num && WorkerOk(g, l, r, w)
    ensures InLockstep(g, l, r, w)
  {
    SolutionFramed(g, l, r, w.t);
  }

  /** Schedule independence: whatever the interleaving, every worker is in lockstep. */
  lemma ScheduleIndependence<R(!new)>(g: Grid<R>, l: Solution<R>, schedule: seq<Step>, r: nat)
    requires IsLockstep(g, l) && Run(g, schedule).Some? && r < g.num
    ensures Shaped(g, Run(g, schedule).value)
    ensures InLockstep(g, l, r, Run(g, schedule).value.ws[r])
  {
    RunInv(g, l, schedule);
    assert WorkerOk(g, l, r, Run(g, schedule).value.ws[r]);
    WorkerInLockstep(g, l, r, Run(g, schedule).value.ws[r]);
  }

  // -------------------------------------------------------------- rows in flight

  /** On every channel each tag is set once and got at most once, in order, and at most two
      rows are unread at any time. */
  lemma InFlight<R(!new)>(g: Grid<R>, schedule: seq<Step>, r: nat)
    requires Lawful(g) && Run(g, schedule).Some? && r < g.num
    ensures var s := Run(g, schedule).value;
      && Shaped(g, s)
      && (g.HasUp(r) ==> Orderly(s.up[r])) && (g.HasDown(r) ==> Orderly(s.down[r]))
  {
    var l := SomeSolution(g);
    RunInv(g, l, schedule);
    InFlightNow(g, l, Run(g, schedule).value, r);
  }

  lemma InFlightNow<R(!new)>(g: Grid<R>, l: Solution<R>, s: State<R>, r: nat)
    requires IsLockstep(g, l) && Inv(g, l, s) && r < g.num
    ensures g.HasUp(r) ==> Orderly(s.up[r])
    ensures g.HasDown(r) ==> Orderly(s.down[r])
  {
    if g.HasUp(r) {
      NeighboursNow(g, l, s, r - 1);
      assert UpOk(g, l, s, r);
      AtMostTwo(s.up[r], s.ws[r].SentUp(), s.ws[r-1].GotDown(), UpRow(g, l, r));
    }
    if g.HasDown(r) {
      NeighboursNow(g, l, s, r);
      assert DownOk(g, l, s, r);
      AtMostTwo(s.down[r], s.ws[r].SentDown(), s.ws[r+1].GotUp(), DownRow(g, l, r));
    }
  }

  ghost predicate Orderly<R>(ch: Channel<R>) {
    && |ch.gets| <= |ch.sets|
    && (forall i :: 0 <= i < |ch.sets| ==> ch.sets[i] == i)
    && (forall i :: 0 <= i < |ch.gets| ==> ch.gets[i] == i)
    && ch.transit.Keys !! ch.arrived.Keys && |ch.Unread()| <= 2
  }

  lemma AtMostTwo<R>(ch: Channel<R>, n: nat, m: nat, row: nat -> R)
    requires ChannelOk(ch, n, m, row) && n <= m + 2
    ensures Orderly(ch)
  {
    TwoTags(ch.Unread(), m);
  }

  lemma TwoTags(tags: set<nat>, m: nat)
    requires forall k :: k in tags ==> m <= k < m + 2
    ensures |tags| <= 2
  {
    var both := {m, m + 1};
    assert both == tags + (both - tags);
  }

  /** The code sends even in the last step: the row of the last tag is never received, and once
      all workers have finished it is the only one left on its channel. */
  lemma LastRowUnread<R(!new)>(g: Grid<R>, schedule: seq<Step>, r: nat)
    requires Lawful(g) && Run(g, schedule).Some? && r < g.num
    ensures var s := Run(g, schedule).value;
      && Shaped(g, s)
      && (g.HasUp(r) ==> g.steps !in s.up[r].gets && (AllFinished(s) ==> s.up[r].Unread() == {g.steps}))
      && (g.HasDown(r) ==> g.steps !in s.down[r].gets && (AllFinished(s) ==> s.down[r].Unread() == {g.steps}))
  {
    var l := SomeSolution(g);
    RunInv(g, l, schedule);
    LastRowNow(g, l, Run(g, schedule).value, r);
  }

  lemma LastRowNow<R(!new)>(g: Grid<R>, l: Solution<R>, s: State<R>, r: nat)
    requires IsLockstep(g, l) && Inv(g, l, s) && r < g.num
    ensures g.HasUp(r) ==> g.steps !in s.up[r].gets && (AllFinished(s) ==> s.up[r].Unread() == {g.steps})
    ensures g.HasDown(r) ==> g.steps !in s.down[r].gets && (AllFinished(s) ==> s.down[r].Unread() == {g.steps})
  {
    SentInAll(g, l, s, r);
    if g.HasUp(r) {
      SentInAll(g, l, s, r - 1);
      assert UpOk(g, l, s, r);
      LastTag(s.up[r], s.ws[r].SentUp(), s.ws[r-1].GotDown(), UpRow(g, l, r), g.steps);
    }
    if g.HasDown(r) {
      SentInAll(g, l, s, r + 1);
      assert DownOk(g, l, s, r);
      LastTag(s.down[r], s.ws[r].SentDown(), s.ws[r+1].GotUp(), DownRow(g, l, r), g.steps);
    }
  }

  /** A worker never receives more than one row per step, and sends one more in all. */
  lemma SentInAll<R(!new)>(g: Grid<R>, l: Solution<R>, s: State<R>, r: nat)
    requires IsLockstep(g, l) && Inv(g, l, s) && r < g.num
    ensures s.ws[r].GotUp() <= g.steps && s.ws[r].GotDown() <= g.steps
    ensures AllFinished(s) ==> s.ws[r].GotUp() == s.ws[r].GotDown() == g.steps
    ensures AllFinished(s) ==> s.ws[r].SentUp() == s.ws[r].SentDown() == g.steps + 1
  {
    assert WorkerOk(g, l, r, s.ws[r]);
  }

  lemma LastTag<R>(ch: Channel<R>, n: nat, m: nat, row: nat -> R, last: nat)
    requires ChannelOk(ch, n, m, row) && m <= last
    ensures last !in ch.gets
    ensures m == last && n == last + 1 ==> ch.Unread() == {last}
  {}

  // ------------------------------------------------------------------------ skew

  /** Between neighbours, rows are received only after they were sent, and a row is sent only
      after the one before last was received. */
  lemma NeighboursNow<R(!new)>(g: Grid<R>, l: Solution<R>, s: State<R>, r: nat)
    requires IsLockstep(g, l) && Inv(g, l, s) && r + 1 < g.num
    ensures s.ws[r+1].GotUp() <= s.ws[r].SentDown() <= s.ws[r+1].GotUp() + 2
    ensures s.ws[r].GotDown() <= s.ws[r+1].SentUp() <= s.ws[r].GotDown() + 2
  {
    assert UpOk(g, l, s, r + 1) && DownOk(g, l, s, r);
  }

  lemma {:induction false} SkewDown<R(!new)>(g: Grid<R>, l: Solution<R>, s: State<R>, r: nat, q: nat)
    requires IsLockstep(g, l) && Inv(g, l, s) && r < q < g.num
    ensures s.ws[q].GotUp() <= s.ws[r].GotDown() + (q - r)
    decreases q
  {
    NeighboursNow(g, l, s, q - 1);
    if r < q - 1 {
      SkewDown(g, l, s, r, q - 1);
    }
  }

  lemma {:induction false} SkewUp<R(!new)>(g: Grid<R>, l: Solution<R>, s: State<R>, r: nat, q: nat)
    requires IsLockstep(g, l) && Inv(g, l, s) && r < q < g.num
    ensures s.ws[r].GotDown() <= s.ws[q].GotUp() + 2 * (q - r) - 1
    decreases q - r
  {
    NeighboursNow(g, l, s, r);
    if r < q - 1 {
      SkewUp(g, l, s, r + 1, q);
    }
  }

  lemma SkewNow<R(!new)>(g: Grid<R>, l: Solution<R>, s: State<R>, r: nat, q: nat)
    requires IsLockstep(g, l) && Inv(g, l, s) && r < q < g.num
    ensures s.ws[r].t <= s.ws[q].t + 2 * (q - r)
    ensures s.ws[q].t <= s.ws[r].t + (q - r) + 1
  {
    SkewDown(g, l, s, r, q);
    SkewUp(g, l, s, r, q);
  }

  /** How far ranks can drift apart: the lower rank leads by at most two steps per rank between
      them, the higher rank by at most one, plus one. */
  lemma SkewBound<R(!new)>(g: Grid<R>, schedule: seq<Step>, r: nat, q: nat)
    requires Lawful(g) && Run(g, schedule).Some? && r < q < g.num
    ensures Shaped(g, Run(g, schedule).value)
    ensures var ws := Run(g, schedule).value.ws;
      && ws[r].t <= ws[q].t + 2 * (q - r)
      && ws[q].t <= ws[r].t + (q - r) + 1
  {
    var l := SomeSolution(g);
    RunInv(g, l, schedule);
    SkewNow(g, l, Run(g, schedule).value, r, q);
  }

  // -------------------------------------------------------------------- liveness

  predicate AllFinished<R>(s: State<R>) {
    forall r :: 0 <= r < |s.ws| ==> s.ws[r].pc == Finished
  }

  /** Rank r waits for a row that has not been sent. */
  predicate Starved<R>(g: Grid<R>, s: State<R>, r: nat)
    requires Shaped(g, s) && r < g.num
  {
    var w := s.ws[r];
    || (w.pc == GetUp && g.HasUp(r) && s.ws[r-1].SentDown() <= w.t)
    || (w.pc == GetDown && g.HasDown(r) && s.ws[r+1].SentUp() <= w.t)
  }

  /** A worker that waits for a row that was sent can move once the row is delivered. */
  lemma SentCanMove<R(!new)>(g: Grid<R>, l: Solution<R>, s: State<R>, r: nat) returns (step: Step)
    requires IsLockstep(g, l) && Inv(g, l, s) && r < g.num && s.ws[r].pc != Finished && !Starved(g, s, r)
    ensures Enabled(g, s, step) && (step == Work(r) || !step.Work?)
    ensures step != Work(r) ==> Apply(g, s, step).ws == s.ws && Enabled(g, Apply(g, s, step), Work(r))
  {
    var w := s.ws[r];
    assert WorkerOk(g, l, r, s.ws[r]);
    step := Work(r);
    if w.pc == GetUp && g.HasUp(r) {
      assert DownOk(g, l, s, r - 1);
      if w.t in s.down[r-1].transit {
        step := DeliverDown(r - 1, w.t);
      }
    } else if w.pc == GetDown && g.HasDown(r) {
      assert UpOk(g, l, s, r + 1);
      if w.t in s.up[r+1].transit {
        step := DeliverUp(r + 1, w.t);
      }
    }
  }

  /** Position of a worker in its program. */
  function Position<R>(w: Worker<R>): nat {
    9 * w.t + w.pc.Order()
  }

  lemma {:induction false} Hindmost<R>(ws: seq<Worker<R>>, n: nat) returns (r: nat)
    requires 1 <= n <= |ws|
    ensures r < n && forall q :: 0 <= q < n ==> Position(ws[r]) <= Position(ws[q])
  {
    if n == 1 {
      r := 0;
    } else {
      r := Hindmost(ws, n - 1);
      if Position(ws[n-1]) < Position(ws[r]) {
        r := n - 1;
      }
    }
  }

  /** The hindmost unfinished worker never starves, so an unfinished system always has a move. */
  lemma Progress<R(!new)>(g: Grid<R>, schedule: seq<Step>) returns (step: Step)
    requires Lawful(g) && Run(g, schedule).Some? && !AllFinished(Run(g, schedule).value)
    ensures Run(g, schedule + [step]).Some?
  {
    var l := SomeSolution(g);
    var s := Run(g, schedule).value;
    RunInv(g, l, schedule);
    var r := Hindmost(s.ws, g.num);
    HindmostMoves(g, l, s, r);
    step := SentCanMove(g, l, s, r);
    assert (schedule + [step])[..|schedule|] == schedule;
  }

  /** A worker not behind its neighbour's request has already sent the requested row. */
  lemma AheadHasSent<R(!new)>(g: Grid<R>, l: Solution<R>, w: Worker<R>, v: Worker<R>, r: nat, q: nat)
    requires g.Valid() && AllBuffers(g, l) && WorkerOk(g, l, r, w) && WorkerOk(g, l, q, v)
    requires Position(w) <= Position(v)
    ensures w.pc == GetUp ==> w.t < v.SentDown()
    ensures w.pc == GetDown ==> w.t < v.SentUp()
  {}

  lemma HindmostMoves<R(!new)>(g: Grid<R>, l: Solution<R>, s: State<R>, r: nat)
    requires IsLockstep(g, l) && Inv(g, l, s) && r < g.num && !AllFinished(s)
    requires forall q :: 0 <= q < g.num ==> Position(s.ws[r]) <= Position(s.ws[q])
    ensures s.ws[r].pc != Finished && !Starved(g, s, r)
  {
    var q :| 0 <= q < |s.ws| && s.ws[q].pc != Finished;
    HindmostUnfinished(g, l, s, r, q);
    if r > 0 {
      NotStarvedBy(g, l, s, r, r - 1);
    }
    if r + 1 < g.num {
      NotStarvedBy(g, l, s, r, r + 1);
    }
  }

  lemma HindmostUnfinished<R(!new)>(g: Grid<R>, l: Solution<R>, s: State<R>, r: nat, q: nat)
    requires IsLockstep(g, l) && Inv(g, l, s) && r < g.num && q < g.num
    requires s.ws[q].pc != Finished && Position(s.ws[r]) <= Position(s.ws[q])
    ensures s.ws[r].pc != Finished
  {
    assert WorkerOk(g, l, r, s.ws[r]) && WorkerOk(g, l, q, s.ws[q]);
  }

  lemma NotStarvedBy<R(!new)>(g: Grid<R>, l: Solution<R>, s: State<R>, r: nat, q: nat)
    requires IsLockstep(g, l) && Inv(g, l, s) && r < g.num && q < g.num && Position(s.ws[r]) <= Position(s.ws[q])
    ensures s.ws[r].pc == GetUp ==> s.ws[r].t < s.ws[q].SentDown()
    ensures s.ws[r].pc == GetDown ==> s.ws[r].t < s.ws[q].SentUp()
  {
    assert WorkerOk(g, l, r, s.ws[r]) && WorkerOk(g, l, q, s.ws[q]);
    AheadHasSent(g, l, s.ws[r], s.ws[q], r, q);
  }

  // ----------------------------------------------------------------- termination

  /** Moves a worker may still make, at most. */
  function MovesLeft<R>(g: Grid<R>, w: Worker<R>): nat {
    if w.pc == Finished || w.t > g.steps then 0 else 8 * (g.steps - w.t) + 9 - w.pc.Order()
  }

  function Total(s: seq<nat>): nat {
    if s == [] then 0 else Total(s[..|s|-1]) + s[|s|-1]
  }

  lemma {:induction false} TotalUpdate(s: seq<nat>, i: nat, v: nat)
    requires i < |s|
    ensures Total(s[i := v]) == Total(s) - s[i] + v
  {
    var n := |s| - 1;
    if i < n {
      assert s[i := v][..n] == s[..n][i := v];
      TotalUpdate(s[..n], i, v);
    } else {
      assert s[i := v][..n] == s[..n];
    }
  }

  lemma {:induction false} TotalConstant(n: nat, v: nat)
    ensures Total(seq(n, i => v)) == n * v
  {
    if n > 0 {
      assert seq(n, i => v)[..n-1] == seq(n - 1, i => v);
      TotalConstant(n - 1, v);
      assert n * v == (n - 1) * v + v;
    }
  }

  function Lefts<R>(g: Grid<R>, ws: seq<Worker<R>>): (s: seq<nat>)
    ensures |s| == |ws|
  {
    seq(|ws|, i requires 0 <= i < |ws| => MovesLeft(g, ws[i]))
  }

  function Transits<R>(chs: seq<Channel<R>>): (s: seq<nat>)
    ensures |s| == |chs|
  {
    seq(|chs|, i requires 0 <= i < |chs| => |chs[i].transit|)
  }

  /** Twice the moves left, plus the rows in transit. */
  function Effort<R>(g: Grid<R>, s: State<R>): nat {
    2 * Total(Lefts(g, s.ws)) + Total(Transits(s.up)) + Total(Transits(s.down))
  }

  lemma LeftsUpdate<R>(g: Grid<R>, ws: seq<Worker<R>>, r: nat, w: Worker<R>)
    requires r < |ws|
    ensures Total(Lefts(g, ws[r := w])) == Total(Lefts(g, ws)) - MovesLeft(g, ws[r]) + MovesLeft(g, w)
  {
    assert Lefts(g, ws[r := w]) == Lefts(g, ws)[r := MovesLeft(g, w)];
    TotalUpdate(Lefts(g, ws), r, MovesLeft(g, w));
  }

  lemma TransitsUpdate<R>(chs: seq<Channel<R>>, r: nat, ch: Channel<R>)
    requires r < |chs|
    ensures Total(Transits(chs[r := ch])) == Total(Transits(chs)) - |chs[r].transit| + |ch.transit|
  {
    assert Transits(chs[r := ch]) == Transits(chs)[r := |ch.transit|];
    TotalUpdate(Transits(chs), r, |ch.transit|);
  }

  lemma MoveUsesMoves<R(!new)>(g: Grid<R>, l: Solution<R>, s: State<R>, r: nat)
    requires IsLockstep(g, l) && Inv(g, l, s) && Enabled(g, s, Work(r))
    ensures MovesLeft(g, MovedWorker(g, s, r)) < MovesLeft(g, s.ws[r])
    ensures |MovedUp(g, s, r).transit| + |MovedDown(g, s, r).transit| <= |s.up[r].transit| + |s.down[r].transit| + 1
  {
    assert WorkerOk(g, l, r, s.ws[r]);
  }

  /** Taking an arrived row leaves the rows in transit alone. */
  lemma TransitsSame<R>(chs: seq<Channel<R>>, r: nat, ch: Channel<R>)
    requires r < |chs| && ch.transit == chs[r].transit
    ensures Transits(chs[r := ch]) == Transits(chs)
  {}

  lemma UpTransits<R>(g: Grid<R>, s: State<R>, r: nat)
    requires g.Valid() && Enabled(g, s, Work(r))
    ensures Total(Transits(MovedUps(g, s, r))) == Total(Transits(s.up)) - |s.up[r].transit| + |MovedUp(g, s, r).transit|
  {
    var ch := MovedUp(g, s, r);
    TransitsUpdate(s.up, r, ch);
    if s.ws[r].pc == GetDown && g.HasDown(r) {
      TransitsSame(s.up[r := ch], r + 1, s.up[r+1].Get(s.ws[r].t));
    }
  }

  lemma DownTransits<R>(g: Grid<R>, s: State<R>, r: nat)
    requires g.Valid() && Enabled(g, s, Work(r))
    ensures Total(Transits(MovedDowns(g, s, r)))
         == Total(Transits(s.down)) - |s.down[r].transit| + |MovedDown(g, s, r).transit|
  {
    var ch := MovedDown(g, s, r);
    TransitsUpdate(s.down, r, ch);
    if s.ws[r].pc == GetUp && g.HasUp(r) {
      TransitsSame(s.down[r := ch], r - 1, s.down[r-1].Get(s.ws[r].t));
    }
  }

  lemma WorkUsesEffort<R(!new)>(g: Grid<R>, l: Solution<R>, s: State<R>, r: nat)
    requires IsLockstep(g, l) && Inv(g, l, s) && Enabled(g, s, Work(r))
    ensures Effort(g, Apply(g, s, Work(r))) < Effort(g, s)
  {
    MoveUsesMoves(g, l, s, r);
    LeftsUpdate(g, s.ws, r, MovedWorker(g, s, r));
    UpTransits(g, s, r);
    DownTransits(g, s, r);
  }

  lemma DeliverUsesEffort<R(!new)>(g: Grid<R>, s: State<R>, step: Step)
    requires g.Valid() && Enabled(g, s, step) && !step.Work?
    ensures Effort(g, Apply(g, s, step)) < Effort(g, s)
  {
    match step
    case DeliverUp(r, tag) =>
      assert (s.up[r].transit - {tag}).Keys == s.up[r].transit.Keys - {tag};
      TransitsUpdate(s.up, r, s.up[r].Deliver(tag));
    case DeliverDown(r, tag) =>
      assert (s.down[r].transit - {tag}).Keys == s.down[r].transit.Keys - {tag};
      TransitsUpdate(s.down, r, s.down[r].Deliver(tag));
  }

  /** Every schedule ends: its length is bounded by the parameters alone. */
  lemma {:induction false} Termination<R(!new)>(g: Grid<R>, schedule: seq<Step>)
    requires Lawful(g) && Run(g, schedule).Some?
    ensures |schedule| + Effort(g, Run(g, schedule).value) <= 2 * (g.num * (8 * g.steps + 9))
  {
    var l := SomeSolution(g);
    if schedule == [] {
      InitialEffort(g);
    } else {
      var n := |schedule| - 1;
      Termination(g, schedule[..n]);
      RunInv(g, l, schedule[..n]);
      var s, step := Run(g, schedule[..n]).value, schedule[n];
      if step.Work? {
        WorkUsesEffort(g, l, s, step.r);
      } else {
        DeliverUsesEffort(g, s, step);
      }
    }
  }

  lemma InitialEffort<R>(g: Grid<R>)
    ensures Effort(g, Init(g)) == 2 * (g.num * (8 * g.steps + 9))
  {
    var s := Init(g);
    assert Lefts(g, s.ws) == seq(g.num, i => 8 * g.steps + 9);
    TotalConstant(g.num, 8 * g.steps + 9);
    assert Transits(s.up) == seq(g.num, i => 0) && Transits(s.down) == seq(g.num, i => 0);
    TotalConstant(g.num, 0);
  }

  /** Every run can be continued until all workers have finished. */
  lemma RunToEnd<R(!new)>(g: Grid<R>, schedule: seq<Step>) returns (longer: seq<Step>)
    requires Lawful(g) && Run(g, schedule).Some?
    ensures Run(g, longer).Some? && AllFinished(Run(g, longer).value)
    decreases 2 * (g.num * (8 * g.steps + 9)) - |schedule|
  {
    longer := schedule;
    if !AllFinished(Run(g, schedule).value) {
      var step := Progress(g, schedule);
      Termination(g, schedule + [step]);
      longer := RunToEnd(g, schedule + [step]);
    }
  }

  // ------------------------------------------------------------------- the output

  /** The worker of rank r writes out the solution after the last step if it has finished. */
  ghost predicate GoodOutput<R>(g: Grid<R>, l: Solution<R>, s: State<R>, r: nat)
    requires r < |s.ws|
  {
    s.ws[r].pc == Finished ==> s.ws[r].u0 == l(r, g.steps)
  }

  /** All workers of all runs do. */
  ghost predicate WritesResult<R>(g: Grid<R>, l: Solution<R>)
    requires g.Valid()
  {
    forall schedule, r: nat :: Run(g, schedule).Some? && r < |Run(g, schedule).value.ws| ==> GoodOutput(g, l, Run(g, schedule).value, r)
  }

  lemma OutputNow<R(!new)>(g: Grid<R>, l: Solution<R>, s: State<R>, r: nat)
    requires IsLockstep(g, l) && Inv(g, l, s) && r < g.num
    ensures s.ws[r].pc == Finished ==> s.ws[r].u0 == l(r, g.steps - g.steps % 2)
  {
    assert WorkerOk(g, l, r, s.ws[r]);
  }

  lemma StaleOutput<R(!new)>(g: Grid<R>, l: Solution<R>, r: nat)
    requires IsLockstep(g, l) && g.steps % 2 == 1 && r < g.num && l(r, g.steps - 1) != l(r, g.steps)
    ensures !WritesResult(g, l)
  {
    var schedule := RunToEnd(g, []);
    RunInv(g, l, schedule);
    OutputNow(g, l, Run(g, schedule).value, r);
    assert !GoodOutput(g, l, Run(g, schedule).value, r);
  }

  /** They do exactly if the number of steps is even or the last step changes nothing. */
  lemma OutputExact<R(!new)>(g: Grid<R>, l: Solution<R>)
    requires IsLockstep(g, l)
    ensures WritesResult(g, l) <==>
      g.steps % 2 == 0 || forall r: nat :: r < g.num ==> l(r, g.steps - 1) == l(r, g.steps)
  {
    if r: nat :| g.steps % 2 == 1 && r < g.num && l(r, g.steps - 1) != l(r, g.steps) {
      StaleOutput(g, l, r);
    } else {
      forall schedule, r: nat | Run(g, schedule).Some? && r < |Run(g, schedule).value.ws|
        ensures GoodOutput(g, l, Run(g, schedule).value, r)
      {
        RunInv(g, l, schedule);
        OutputNow(g, l, Run(g, schedule).value, r);
      }
    }
  }
}
