/** How far ranks really drift apart.  A worker sends its first row upwards before it has finished
    its own step, so a rank may run two steps ahead of the one below it, and so on rank by rank;
    it sends its last row downwards one step early, so the ranks below gain one step in all. */
module HaloSkew {
  import opened HaloGrid
  import opened HaloProtocol
  import opened HaloRuns
  import opened Options

  /** A rank is held back in its first step, for the ranks above it or below it to run ahead. */
  datatype Plan = HoldBelow(held: nat) | HoldAbove(held: nat)

  function Least(a: nat, b: nat): nat { if a < b then a else b }

  /** The position each rank is driven to.  The rank held back stops when it has sent the row of
      the next step. */
  function Goal<R>(g: Grid<R>, plan: Plan, p: nat): nat {
    match plan
    case HoldBelow(q) =>
      if p == q then 4
      else if p > q then 0
      else if 2 * (q - p) < g.steps then 9 * (2 * (q - p)) + 4
      else 9 * g.steps + 8
    case HoldAbove(r) =>
      if p == r then 7
      else if p < r then 2
      else if p - r + 1 < g.steps then 9 * (p - r + 1) + 2
      else 9 * g.steps + 8
  }

  /** A rank at its goal has sent what a neighbour short of its own goal asks for. */
  lemma GoalHasSentDown<R(!new)>(g: Grid<R>, l: Solution<R>, plan: Plan, w: Worker<R>, v: Worker<R>, p: nat)
    requires g.Valid() && AllBuffers(g, l) && p > 0 && WorkerOk(g, l, p, w) && WorkerOk(g, l, p - 1, v) && g.steps >= 1
    requires Position(w) < Goal(g, plan, p) && Position(v) >= Goal(g, plan, p - 1) && w.pc == GetUp
    ensures w.t < v.SentDown()
  {}

  lemma GoalHasSentUp<R(!new)>(g: Grid<R>, l: Solution<R>, plan: Plan, w: Worker<R>, v: Worker<R>, p: nat)
    requires g.Valid() && AllBuffers(g, l) && WorkerOk(g, l, p, w) && WorkerOk(g, l, p + 1, v) && g.steps >= 1
    requires Position(w) < Goal(g, plan, p) && Position(v) >= Goal(g, plan, p + 1) && w.pc == GetDown
    ensures w.t < v.SentUp()
  {}

  /** A rank short of its goal has not finished. */
  lemma ShortNotFinished<R(!new)>(g: Grid<R>, l: Solution<R>, plan: Plan, w: Worker<R>, p: nat)
    requires g.Valid() && AllBuffers(g, l) && WorkerOk(g, l, p, w) && Position(w) < Goal(g, plan, p)
    ensures w.pc != Finished
  {}

  /** The hindmost rank that is short of its goal can go on. */
  lemma ShortCanMove<R(!new)>(g: Grid<R>, l: Solution<R>, plan: Plan, s: State<R>, p: nat)
    requires IsLockstep(g, l) && Inv(g, l, s) && p < g.num && g.steps >= 1 && Position(s.ws[p]) < Goal(g, plan, p)
    requires forall n :: 0 <= n < g.num && Position(s.ws[n]) < Goal(g, plan, n) ==> Position(s.ws[p]) <= Position(s.ws[n])
    ensures s.ws[p].pc != Finished && !Starved(g, s, p)
  {
    assert s.ws[p].pc != Finished by {
      assert WorkerOk(g, l, p, s.ws[p]);
      ShortNotFinished(g, l, plan, s.ws[p], p);
    }
    if p > 0 {
      NeighbourHasSent(g, l, plan, s, p, p - 1);
    }
    if p + 1 < g.num {
      NeighbourHasSent(g, l, plan, s, p, p + 1);
    }
  }

  lemma NeighbourHasSent<R(!new)>(g: Grid<R>, l: Solution<R>, plan: Plan, s: State<R>, p: nat, n: nat)
    requires IsLockstep(g, l) && Inv(g, l, s) && p < g.num && n < g.num && g.steps >= 1
    requires Position(s.ws[p]) < Goal(g, plan, p)
    requires Position(s.ws[n]) < Goal(g, plan, n) ==> Position(s.ws[p]) <= Position(s.ws[n])
    ensures n == p - 1 && s.ws[p].pc == GetUp ==> s.ws[p].t < s.ws[n].SentDown()
    ensures n == p + 1 && s.ws[p].pc == GetDown ==> s.ws[p].t < s.ws[n].SentUp()
  {
    assert WorkerOk(g, l, p, s.ws[p]) && WorkerOk(g, l, n, s.ws[n]);
    if Position(s.ws[n]) < Goal(g, plan, n) {
      NotStarvedBy(g, l, s, p, n);
    } else if n + 1 == p && s.ws[p].pc == GetUp {
      GoalHasSentDown(g, l, plan, s.ws[p], s.ws[n], p);
    } else if n == p + 1 && s.ws[p].pc == GetDown {
      GoalHasSentUp(g, l, plan, s.ws[p], s.ws[n], p);
    }
  }

  /** The hindmost of the first n ranks that are short of their goal, or none. */
  lemma {:induction false} HindmostShort<R>(g: Grid<R>, plan: Plan, ws: seq<Worker<R>>, n: nat) returns (p: Option<nat>)
    requires n <= |ws|
    ensures p.None? ==> forall m :: 0 <= m < n ==> Position(ws[m]) >= Goal(g, plan, m)
    ensures p.Some? ==> p.value < n && Position(ws[p.value]) < Goal(g, plan, p.value)
    ensures p.Some? ==> forall m :: 0 <= m < n && Position(ws[m]) < Goal(g, plan, m) ==> Position(ws[p.value]) <= Position(ws[m])
  {
    p := None;
    if n > 0 {
      p := HindmostShort(g, plan, ws, n - 1);
      var m := n - 1;
      if Position(ws[m]) < Goal(g, plan, m) && (p.None? || Position(ws[m]) < Position(ws[p.value])) {
        p := Some(m);
      }
    }
  }

  /** A reachable state in which the rank held back has not finished its first step. */
  ghost predicate Holding<R>(g: Grid<R>, l: Solution<R>, plan: Plan, schedule: seq<Step>, s: State<R>)
    requires g.Valid() && AllBuffers(g, l)
  {
    Run(g, schedule) == Some(s) && Inv(g, l, s) && plan.held < g.num && s.ws[plan.held].t == 0
  }

  lemma Extend<R>(g: Grid<R>, schedule: seq<Step>, step: Step)
    requires g.Valid() && Run(g, schedule).Some? && Enabled(g, Run(g, schedule).value, step)
    ensures Run(g, schedule + [step]) == Some(Apply(g, Run(g, schedule).value, step))
  {
    assert (schedule + [step])[..|schedule|] == schedule;
  }

  /** The rank held back stops before the end of its first step. */
  lemma HeldStays<R(!new)>(g: Grid<R>, l: Solution<R>, plan: Plan, s: State<R>, p: nat)
    requires IsLockstep(g, l) && Inv(g, l, s) && plan.held < g.num && s.ws[plan.held].t == 0
    requires Enabled(g, s, Work(p)) && Position(s.ws[p]) < Goal(g, plan, p)
    ensures Apply(g, s, Work(p)).ws[plan.held].t == 0
  {}

  /** One step of a rank that is short of its goal, or the delivery of a row for it. */
  lemma DriveStep<R(!new)>(g: Grid<R>, l: Solution<R>, plan: Plan, schedule: seq<Step>, s: State<R>, p: nat)
    returns (longer: seq<Step>, s': State<R>)
    requires IsLockstep(g, l) && g.steps >= 1 && Holding(g, l, plan, schedule, s)
    requires p < g.num && Position(s.ws[p]) < Goal(g, plan, p)
    requires forall n :: 0 <= n < g.num && Position(s.ws[n]) < Goal(g, plan, n) ==> Position(s.ws[p]) <= Position(s.ws[n])
    ensures Holding(g, l, plan, longer, s') && Effort(g, s') < Effort(g, s)
  {
    ShortCanMove(g, l, plan, s, p);
    var step := SentCanMove(g, l, s, p);
    longer, s' := schedule + [step], Apply(g, s, step);
    Extend(g, schedule, step);
    StepInv(g, l, s, step);
    if step.Work? {
      HeldStays(g, l, plan, s, p);
      WorkUsesEffort(g, l, s, p);
    } else {
      DeliverUsesEffort(g, s, step);
    }
  }

  lemma {:induction false} Drive<R(!new)>(g: Grid<R>, l: Solution<R>, plan: Plan, schedule: seq<Step>, s: State<R>)
    returns (longer: seq<Step>, s': State<R>)
    requires IsLockstep(g, l) && g.steps >= 1 && Holding(g, l, plan, schedule, s)
    ensures Holding(g, l, plan, longer, s')
    ensures forall p :: 0 <= p < g.num ==> Position(s'.ws[p]) >= Goal(g, plan, p)
    decreases Effort(g, s)
  {
    var p := HindmostShort(g, plan, s.ws, g.num);
    longer, s' := schedule, s;
    if p.Some? {
      longer, s' := DriveStep(g, l, plan, schedule, s, p.value);
      longer, s' := Drive(g, l, plan, longer, s');
    }
  }

  lemma Reached<R(!new)>(g: Grid<R>, l: Solution<R>, plan: Plan) returns (schedule: seq<Step>, s: State<R>)
    requires IsLockstep(g, l) && g.steps >= 1 && plan.held < g.num
    ensures Holding(g, l, plan, schedule, s)
    ensures forall p :: 0 <= p < g.num ==> Position(s.ws[p]) >= Goal(g, plan, p)
  {
    InitInv(g, l);
    schedule, s := Drive(g, l, plan, [], Init(g));
  }

  /** The most a rank can lead another one by, given the number of steps. */
  function MostLead<R>(g: Grid<R>, ahead: nat, behind: nat): nat {
    if ahead < behind then Least(2 * (behind - ahead), g.steps)
    else if behind < ahead then Least(ahead - behind + 1, g.steps)
    else 0
  }

  ghost predicate LeadsBy<R>(g: Grid<R>, schedule: seq<Step>, ahead: nat, behind: nat, n: int)
    requires g.Valid()
  {
    && Run(g, schedule).Some? && ahead < |Run(g, schedule).value.ws| && behind < |Run(g, schedule).value.ws|
    && Run(g, schedule).value.ws[ahead].t - Run(g, schedule).value.ws[behind].t == n
  }

  lemma LeadBounded<R(!new)>(g: Grid<R>, schedule: seq<Step>, ahead: nat, behind: nat, n: int)
    requires Lawful(g) && LeadsBy(g, schedule, ahead, behind, n)
    ensures n <= MostLead(g, ahead, behind)
  {
    var l := SomeSolution(g);
    RunInv(g, l, schedule);
    var s := Run(g, schedule).value;
    assert WorkerOk(g, l, ahead, s.ws[ahead]) && WorkerOk(g, l, behind, s.ws[behind]);
    if ahead < behind {
      SkewNow(g, l, s, ahead, behind);
    } else if behind < ahead {
      SkewNow(g, l, s, behind, ahead);
    }
  }

  lemma LeadReached<R(!new)>(g: Grid<R>, ahead: nat, behind: nat) returns (schedule: seq<Step>)
    requires Lawful(g) && ahead < g.num && behind < g.num
    ensures LeadsBy(g, schedule, ahead, behind, MostLead(g, ahead, behind))
  {
    var l := SomeSolution(g);
    schedule := [];
    if g.steps >= 1 && ahead != behind {
      var plan := if ahead < behind then HoldBelow(behind) else HoldAbove(behind);
      var s;
      schedule, s := Reached(g, l, plan);
      assert WorkerOk(g, l, ahead, s.ws[ahead]);
      assert Position(s.ws[ahead]) >= Goal(g, plan, ahead);
      assert LeadsBy(g, schedule, ahead, behind, s.ws[ahead].t);
      LeadBounded(g, schedule, ahead, behind, s.ws[ahead].t);
    }
  }

  /** The true bound: in no run does a rank lead another by more than this, and some run gets
      there. */
  lemma SkewExact<R(!new)>(g: Grid<R>, ahead: nat, behind: nat, n: nat)
    requires Lawful(g) && ahead < g.num && behind < g.num
    ensures (forall schedule, k :: LeadsBy(g, schedule, ahead, behind, k) ==> k <= n) <==> n >= MostLead(g, ahead, behind)
  {
    if n >= MostLead(g, ahead, behind) {
      forall schedule, k | LeadsBy(g, schedule, ahead, behind, k) ensures k <= n {
        LeadBounded(g, schedule, ahead, behind, k);
      }
    } else {
      var schedule := LeadReached(g, ahead, behind);
    }
  }

  // ------------------------------------------------------ drift within the distance

  function Gap(a: nat, b: nat): nat {
    if a < b then b - a else a - b
  }

  ghost predicate DriftWithinDistance<R>(g: Grid<R>)
    requires g.Valid()
  {
    forall schedule, r, q, k :: LeadsBy(g, schedule, r, q, k) ==> k <= Gap(r, q)
  }

  /** In all runs the drift stays within the distance of the ranks exactly when there is only one
      rank or at most one step. */
  lemma DriftExact<R(!new)>(g: Grid<R>)
    requires Lawful(g)
    ensures DriftWithinDistance(g) <==> g.num == 1 || g.steps <= 1
  {
    if g.num >= 2 && g.steps >= 2 {
      var schedule := LeadReached(g, 0, 1);
      assert LeadsBy(g, schedule, 0, 1, 2) && Gap(0, 1) == 1;
    } else {
      forall schedule, r, q, k | LeadsBy(g, schedule, r, q, k) ensures k <= Gap(r, q) {
        var l := SomeSolution(g);
        RunInv(g, l, schedule);
        LeadBounded(g, schedule, r, q, k);
      }
    }
  }
}
