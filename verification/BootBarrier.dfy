/** The second and third stage of bootstrapping: every locality runs the same list of actions,
    with global barriers in between.

    Assumed semantics of the barrier: it counts arrivals; the arrival that completes the count
    starts a new generation with a count of zero, and releases all that wait for an older one. */
module BootBarrier {
  import opened FiniteSets
  import opened Options

  datatype Instr<A> = Do(action: A) | Sync

  type Program<A> = seq<Instr<A>>

  /** The next instruction, and the generation waited for at a barrier. */
  datatype Locality = Locality(pc: nat, waiting: Option<nat>)

  datatype State = State(locs: seq<Locality>, generation: nat, arrived: set<nat>)

  function Init(n: nat): State {
    State(seq(n, l => Locality(0, None)), 0, {})
  }

  predicate Enabled<A>(prog: Program<A>, s: State, l: nat) {
    l < |s.locs| && s.locs[l].pc < |prog| &&
    (s.locs[l].waiting.Some? ==> s.locs[l].waiting.value < s.generation)
  }

  /** An action, an arrival at a barrier, or a departure from one. */
  function Move<A>(prog: Program<A>, s: State, l: nat): State
    requires Enabled(prog, s, l)
  {
    var loc := s.locs[l];
    if prog[loc.pc].Do? || loc.waiting.Some? then s.(locs := s.locs[l := Locality(loc.pc + 1, None)])
    else
      var waits := s.(locs := s.locs[l := Locality(loc.pc, Some(s.generation))]);
      if |s.arrived + {l}| == |s.locs| then waits.(generation := s.generation + 1, arrived := {})
      else waits.(arrived := s.arrived + {l})
  }

  function Run<A>(prog: Program<A>, n: nat, schedule: seq<nat>): (s: Option<State>)
    ensures s.Some? ==> |s.value.locs| == n
  {
    if schedule == [] then Some(Init(n))
    else
      var k := |schedule| - 1;
      var before := Run(prog, n, schedule[..k]);
      if before.Some? && Enabled(prog, before.value, schedule[k]) then Some(Move(prog, before.value, schedule[k])) else None
  }

  // ------------------------------------------------------------------- invariant

  /** The number of barriers among the first k instructions. */
  function Syncs<A>(prog: Program<A>, k: nat): nat
    requires k <= |prog|
  {
    if k == 0 then 0 else Syncs(prog, k - 1) + if prog[k-1].Sync? then 1 else 0
  }

  lemma {:induction false} SyncsMonotone<A>(prog: Program<A>, j: nat, k: nat)
    requires j <= k <= |prog|
    ensures Syncs(prog, j) <= Syncs(prog, k)
  {
    if j < k {
      SyncsMonotone(prog, j, k - 1);
    }
  }

  /** A locality has passed as many barriers as there were generations, or it has arrived at the
      last one and is free to leave. */
  ghost predicate LocalityOk<A>(prog: Program<A>, s: State, l: nat)
    requires l < |s.locs|
  {
    var loc := s.locs[l];
    && loc.pc <= |prog|
    && (loc.waiting.Some? ==> loc.pc < |prog| && prog[loc.pc].Sync? && loc.waiting.value == Syncs(prog, loc.pc))
    && (Syncs(prog, loc.pc) == s.generation || (Syncs(prog, loc.pc) + 1 == s.generation && loc.waiting.Some?))
    && (l in s.arrived <==> loc.waiting == Some(s.generation))
  }

  ghost predicate Inv<A>(prog: Program<A>, s: State) {
    && (forall l {:trigger LocalityOk(prog, s, l)} :: 0 <= l < |s.locs| ==> LocalityOk(prog, s, l))
    && (forall l :: l in s.arrived ==> l < |s.locs|)
    && (s.locs != [] ==> |s.arrived| < |s.locs|)
  }

  lemma MoveInv<A>(prog: Program<A>, s: State, l: nat)
    requires Inv(prog, s) && Enabled(prog, s, l)
    ensures Inv(prog, Move(prog, s, l))
  {
    var s' := Move(prog, s, l);
    assert LocalityOk(prog, s, l);
    FullCount(s.arrived + {l}, |s.locs|);
    forall m | 0 <= m < |s.locs| ensures LocalityOk(prog, s', m) {
      assert LocalityOk(prog, s, m);
    }
  }

  lemma {:induction false} RunInv<A>(prog: Program<A>, n: nat, schedule: seq<nat>)
    requires Run(prog, n, schedule).Some?
    ensures Inv(prog, Run(prog, n, schedule).value)
  {
    if schedule == [] {
      forall l | 0 <= l < n ensures LocalityOk(prog, Init(n), l) {}
    } else {
      var k := |schedule| - 1;
      RunInv(prog, n, schedule[..k]);
      MoveInv(prog, Run(prog, n, schedule[..k]).value, schedule[k]);
    }
  }

  // ------------------------------------------------------------------- theorems

  /** No locality is past a barrier that another has not reached. */
  lemma BarrierSeparates<A>(prog: Program<A>, s: State, l: nat, m: nat, b: nat)
    requires Inv(prog, s) && l < |s.locs| && m < |s.locs|
    requires b < |prog| && prog[b].Sync? && b < s.locs[l].pc
    ensures b <= s.locs[m].pc
  {
    assert LocalityOk(prog, s, l) && LocalityOk(prog, s, m);
    SyncsMonotone(prog, b + 1, s.locs[l].pc);
    if s.locs[m].pc < b {
      SyncsMonotone(prog, s.locs[m].pc, b);
      if s.locs[m].waiting.Some? {
        SyncsMonotone(prog, s.locs[m].pc + 1, b);
      }
    }
  }

  /** In every run, of any two actions with a barrier between them, no locality starts the later
      one before all have finished the earlier one. */
  lemma ActionsInOrder<A>(prog: Program<A>, n: nat, schedule: seq<nat>, l: nat, m: nat, i: nat, b: nat, j: nat)
    requires Run(prog, n, schedule).Some? && l < n && m < n
    requires i < b < j <= |prog| && prog[b].Sync? && j <= Run(prog, n, schedule).value.locs[l].pc
    ensures i < Run(prog, n, schedule).value.locs[m].pc
  {
    RunInv(prog, n, schedule);
    BarrierSeparates(prog, Run(prog, n, schedule).value, l, m, b);
  }

  /** The numbers of barriers any two localities have passed differ by at most one. */
  lemma StagesClose<A>(prog: Program<A>, n: nat, schedule: seq<nat>, l: nat, m: nat)
    requires Run(prog, n, schedule).Some? && l < n && m < n
    ensures var s := Run(prog, n, schedule).value;
      && s.locs[l].pc <= |prog| && s.locs[m].pc <= |prog|
      && Syncs(prog, s.locs[l].pc) <= Syncs(prog, s.locs[m].pc) + 1
  {
    RunInv(prog, n, schedule);
    var s := Run(prog, n, schedule).value;
    assert LocalityOk(prog, s, l) && LocalityOk(prog, s, m);
  }

  // -------------------------------------------------------------------- liveness

  predicate AllLeft<A>(prog: Program<A>, s: State) {
    forall l :: 0 <= l < |s.locs| ==> s.locs[l].pc >= |prog|
  }

  /** Until all localities are through, one of them can move. */
  lemma ProgressNow<A>(prog: Program<A>, s: State) returns (l: nat)
    requires Inv(prog, s) && !AllLeft(prog, s)
    ensures Enabled(prog, s, l)
  {
    var m :| 0 <= m < |s.locs| && s.locs[m].pc < |prog|;
    FullCount(s.arrived, |s.locs|);
    var k: nat :| k < |s.locs| && k !in s.arrived;
    assert LocalityOk(prog, s, m) && LocalityOk(prog, s, k);
    if Enabled(prog, s, m) {
      l := m;
    } else {
      SyncsMonotone(prog, s.locs[m].pc + 1, |prog|);
      l := k;
    }
  }

  lemma Progress<A>(prog: Program<A>, n: nat, schedule: seq<nat>) returns (l: nat)
    requires Run(prog, n, schedule).Some? && !AllLeft(prog, Run(prog, n, schedule).value)
    ensures Run(prog, n, schedule + [l]).Some?
  {
    RunInv(prog, n, schedule);
    l := ProgressNow(prog, Run(prog, n, schedule).value);
    assert (schedule + [l])[..|schedule|] == schedule;
  }

  /** Moves made so far: two per barrier passed, one per action. */
  function Moves(loc: Locality): nat {
    2 * loc.pc + if loc.waiting.Some? then 1 else 0
  }

  function AllMoves(locs: seq<Locality>): nat {
    if locs == [] then 0 else AllMoves(locs[..|locs|-1]) + Moves(locs[|locs|-1])
  }

  lemma {:induction false} MovesGrow(locs: seq<Locality>, l: nat, loc: Locality)
    requires l < |locs|
    ensures AllMoves(locs[l := loc]) == AllMoves(locs) - Moves(locs[l]) + Moves(loc)
  {
    var n := |locs| - 1;
    if l == n {
      assert locs[l := loc][..n] == locs[..n];
    } else {
      MovesGrow(locs[..n], l, loc);
      assert locs[l := loc][..n] == locs[..n][l := loc];
    }
  }

  lemma {:induction false} MovesBound<A>(prog: Program<A>, locs: seq<Locality>)
    requires forall l :: 0 <= l < |locs| ==> Moves(locs[l]) <= 2 * |prog|
    ensures AllMoves(locs) <= 2 * |prog| * |locs|
  {
    if locs != [] {
      var n := |locs| - 1;
      MovesBound(prog, locs[..n]);
      assert 2 * |prog| * (n + 1) == 2 * |prog| * n + 2 * |prog|;
    }
  }

  lemma {:induction false} MovesCounted<A>(prog: Program<A>, n: nat, schedule: seq<nat>)
    requires Run(prog, n, schedule).Some?
    ensures |schedule| <= AllMoves(Run(prog, n, schedule).value.locs)
  {
    if schedule != [] {
      var k := |schedule| - 1;
      MovesCounted(prog, n, schedule[..k]);
      var s, l := Run(prog, n, schedule[..k]).value, schedule[k];
      MovesGrow(s.locs, l, Move(prog, s, l).locs[l]);
    }
  }

  /** Every run ends: no schedule is longer than two moves per instruction and locality. */
  lemma Termination<A>(prog: Program<A>, n: nat, schedule: seq<nat>)
    requires Run(prog, n, schedule).Some?
    ensures |schedule| <= 2 * |prog| * n
  {
    MovesCounted(prog, n, schedule);
    RunInv(prog, n, schedule);
    var s := Run(prog, n, schedule).value;
    forall l | 0 <= l < n ensures Moves(s.locs[l]) <= 2 * |prog| {
      assert LocalityOk(prog, s, l);
    }
    MovesBound(prog, s.locs);
  }

  // --------------------------------------------------------------- actions by name

  /** A locality has gone past an action of its list, or stands at it or past it. */
  ghost predicate HasDone<A>(prog: Program<A>, s: State, l: nat, a: A)
    requires l < |s.locs|
  {
    exists i :: 0 <= i < |prog| && prog[i] == Do(a) && i < s.locs[l].pc
  }

  ghost predicate HasReached<A>(prog: Program<A>, s: State, l: nat, a: A)
    requires l < |s.locs|
  {
    exists i :: 0 <= i < |prog| && prog[i] == Do(a) && i <= s.locs[l].pc
  }

  /** Everywhere in the list, a comes before b, with a barrier between them. */
  ghost predicate Separated<A>(prog: Program<A>, a: A, b: A) {
    && (exists i :: 0 <= i < |prog| && prog[i] == Do(a))
    && (forall i, j :: 0 <= i < |prog| && 0 <= j < |prog| && prog[i] == Do(a) && prog[j] == Do(b) ==> SyncBetween(prog, i, j))
  }

  ghost predicate SyncBetween<A>(prog: Program<A>, i: int, j: int) {
    exists k :: 0 <= i < k < j < |prog| && prog[k].Sync?
  }

  /** Where a comes before b with a barrier between them, no locality begins b before all have
      done a. */
  lemma SeparatedInOrder<A>(prog: Program<A>, n: nat, schedule: seq<nat>, l: nat, m: nat, a: A, b: A)
    requires Run(prog, n, schedule).Some? && l < n && m < n && Separated(prog, a, b)
    requires HasReached(prog, Run(prog, n, schedule).value, l, b)
    ensures HasDone(prog, Run(prog, n, schedule).value, m, a)
  {
    var s := Run(prog, n, schedule).value;
    var i :| 0 <= i < |prog| && prog[i] == Do(a);
    var j :| 0 <= j < |prog| && prog[j] == Do(b) && j <= s.locs[l].pc;
    assert SyncBetween(prog, i, j);
    var k :| 0 <= i < k < j < |prog| && prog[k].Sync?;
    RunInv(prog, n, schedule);
    BarrierSeparates(prog, s, l, m, k);
  }

  // ----------------------------------------------------------------- the boot list

  datatype Action = LoadComponents | RegisterMessageHandlers | RegisterCounterTypes | PreStartupFunctions | StartupFunctions {
    /** The stage of bootstrapping an action belongs to. */
    function Stage(): nat {
      match this
      case LoadComponents => 1
      case RegisterMessageHandlers => 2
      case RegisterCounterTypes => 2
      case PreStartupFunctions => 3
      case StartupFunctions => 4
    }
  }

  const BOOT: Program<Action> := [
    Do(LoadComponents), Sync, Do(RegisterMessageHandlers), Do(RegisterCounterTypes), Sync,
    Do(PreStartupFunctions), Sync, Do(StartupFunctions), Sync]

  /** Every action occurs exactly once, and actions of different stages have a barrier between
      them, in the order of the stages. */
  lemma BootList(a: Action, b: Action)
    ensures exists i :: 0 <= i < |BOOT| && BOOT[i] == Do(a)
    ensures forall i, j :: 0 <= i < |BOOT| && 0 <= j < |BOOT| && BOOT[i] == BOOT[j] == Do(a) ==> i == j
    ensures a.Stage() < b.Stage() <==> Separated(BOOT, a, b)
  {
    var i, j := Place(a), Place(b);
    assert BOOT[i] == Do(a) && BOOT[j] == Do(b);
    if a.Stage() < b.Stage() {
      var k := if a.Stage() == 1 then 1 else if a.Stage() == 2 then 4 else 6;
      assert BOOT[k].Sync? && i < k < j;
      assert SyncBetween(BOOT, i, j);
    }
  }

  function Place(a: Action): nat {
    match a
    case LoadComponents => 0 case RegisterMessageHandlers => 2 case RegisterCounterTypes => 3
    case PreStartupFunctions => 5 case StartupFunctions => 7
  }

  predicate HasLeft(s: State, l: nat)
    requires l < |s.locs|
  {
    s.locs[l].pc == |BOOT|
  }

  /** For any number of localities and any interleaving: no locality begins an action of a stage
      before all have done all actions of the stages before, and none leaves before all have done
      everything. */
  lemma StagesInOrder(n: nat, schedule: seq<nat>, l: nat, m: nat, a: Action, b: Action)
    requires Run(BOOT, n, schedule).Some? && l < n && m < n
    ensures var s := Run(BOOT, n, schedule).value;
      && (a.Stage() < b.Stage() && HasReached(BOOT, s, l, b) ==> HasDone(BOOT, s, m, a))
      && (HasLeft(s, l) ==> HasDone(BOOT, s, m, a))
  {
    var s := Run(BOOT, n, schedule).value;
    BootList(a, b);
    if a.Stage() < b.Stage() && HasReached(BOOT, s, l, b) {
      SeparatedInOrder(BOOT, n, schedule, l, m, a, b);
    }
    if HasLeft(s, l) {
      RunInv(BOOT, n, schedule);
      BarrierSeparates(BOOT, s, l, m, 8);
      assert BOOT[Place(a)] == Do(a);
    }
  }

  /** In particular no startup function runs before all pre-startup functions have run. */
  lemma BootOrder(n: nat, schedule: seq<nat>, l: nat, m: nat)
    requires Run(BOOT, n, schedule).Some? && l < n && m < n
    requires HasReached(BOOT, Run(BOOT, n, schedule).value, l, StartupFunctions)
    ensures HasDone(BOOT, Run(BOOT, n, schedule).value, m, PreStartupFunctions)
    ensures HasDone(BOOT, Run(BOOT, n, schedule).value, m, LoadComponents)
  {
    StagesInOrder(n, schedule, l, m, PreStartupFunctions, StartupFunctions);
    StagesInOrder(n, schedule, l, m, LoadComponents, StartupFunctions);
  }
}
