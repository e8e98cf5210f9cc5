/** The futurised time loop shared by the parallel solvers, as a transition system over
    any cell type and any three-input task.

    The main thread launches one task per partition and time step, keeping only two
    layers of future slots; tasks run in any order once their three inputs are ready;
    a continuation on partition 0 signals a sliding semaphore on which the main thread
    waits.  Assumed semantics of the runtime: a future is set once; a task may run when
    its inputs are set; a continuation may run when its future is set; `signal(t)` raises
    the lower limit (initially 0) to t; `wait(t)` returns only when t - nd <= lower limit. */
module Dataflow {
  import opened HeatSerial
  import opened Options
  import opened SignalPoints

  datatype Throttle = Unlimited | Window(nd: nat)

  datatype Config<!T> = Config(task: Rule<T>, init: seq<T>, nt: nat, throttle: Throttle) {
    predicate Valid() {
      init != [] && (throttle.Window? ==> throttle.nd >= 1)
    }
    function Np(): nat {
      |init|
    }
    /** The value the time loop means for all partitions after `layer` steps. */
    function Cells(layer: nat): (cells: seq<T>)
      ensures |cells| == Np()
    {
      SerialRun(task, init, layer)
    }
  }

  /** A future, named after the launch that created it. */
  datatype Id = Id(layer: nat, part: nat)

  /** What a future waits for: nothing, or the three partitions its task reads. */
  datatype Source = Given | Stencil(left: Id, middle: Id, right: Id)

  datatype Future<T> = Future(source: Source, value: Option<T>)

  /** Where the main thread stands. */
  datatype Pc = Launch(t: nat, i: nat) | Attach(t: nat) | Wait(t: nat) | Returned

  type Layer = seq<Option<Id>>

  datatype State<T> = State(
    pc: Pc,
    even: Layer,                     // future slots U[0]
    odd: Layer,                      // future slots U[1]
    futures: map<Id, Future<T>>,
    pending: map<nat, Id>,           // attached, not yet run continuations, by time step
    lower: nat)                      // lower limit of the semaphore
  {
    predicate Ready(id: Id) {
      id in futures && futures[id].value.Some?
    }
    predicate InputsReady(src: Source) {
      src.Stencil? ==> Ready(src.left) && Ready(src.middle) && Ready(src.right)
    }
    function Value(id: Id): T
      requires Ready(id)
    {
      futures[id].value.value
    }
    function Slots(t: nat): Layer {
      if t % 2 == 0 then even else odd
    }
  }

  // --------------------------------------------------------------- transitions

  datatype Step = DoLaunch | DoAttach | DoWait | Fire(id: Id) | Signal(t: nat)

  function StartOf<T>(c: Config<T>, t: nat): Pc {
    if t == c.nt then Returned else Launch(t, 0)
  }

  function Init<T>(c: Config<T>): State<T> {
    State(StartOf(c, 0),
          seq(c.Np(), i requires 0 <= i => Some(Id(0, i))), seq(c.Np(), i => None),
          map id | id in (set i | 0 <= i < c.Np() :: Id(0, i)) :: Future(Given, Some(c.init[id.part])),
          map[], 0)
  }

  predicate Shaped<T>(c: Config<T>, s: State<T>) {
    |s.even| == |s.odd| == c.Np() && (s.pc.Launch? ==> s.pc.i < c.Np())
  }

  predicate Enabled<T>(c: Config<T>, s: State<T>, step: Step)
    requires c.Valid()
  {
    Shaped(c, s) &&
    match step
    case DoLaunch =>
      s.pc.Launch? &&
      (var current := s.Slots(s.pc.t);
       current[Idx(s.pc.i, -1, c.Np())].Some? && current[s.pc.i].Some? && current[Idx(s.pc.i, 1, c.Np())].Some?)
    case DoAttach => s.pc.Attach? && s.Slots(s.pc.t + 1)[0].Some?
    case DoWait => s.pc.Wait? && (c.throttle.Window? ==> s.pc.t - c.throttle.nd <= s.lower)
    case Fire(id) =>
      && id in s.futures && s.futures[id].value.None?
      && s.futures[id].source.Stencil? && s.InputsReady(s.futures[id].source)
    case Signal(t) => t in s.pending && s.Ready(s.pending[t])
  }

  function Apply<T>(c: Config<T>, s: State<T>, step: Step): State<T>
    requires c.Valid() && Enabled(c, s, step)
  {
    match step
    case DoLaunch =>
      var t, i, current := s.pc.t, s.pc.i, s.Slots(s.pc.t);
      var src := Stencil(current[Idx(i, -1, c.Np())].value, current[i].value, current[Idx(i, 1, c.Np())].value);
      var id := Id(t + 1, i);
      var next := s.Slots(t + 1)[i := Some(id)];
      s.(pc := if i + 1 == c.Np() then Attach(t) else Launch(t, i + 1),
         even := if (t + 1) % 2 == 0 then next else s.even,
         odd := if (t + 1) % 2 == 0 then s.odd else next,
         futures := s.futures[id := Future(src, None)])
    case DoAttach =>
      var t := s.pc.t;
      s.(pc := Wait(t),
         pending := if c.throttle.Window? && t % c.throttle.nd == 0
                    then s.pending[t := s.Slots(t + 1)[0].value]
                    else s.pending)
    case DoWait =>
      s.(pc := StartOf(c, s.pc.t + 1))
    case Fire(id) =>
      var src := s.futures[id].source;
      var v := c.task(s.Value(src.left), s.Value(src.middle), s.Value(src.right));
      s.(futures := s.futures[id := Future(src, Some(v))])
    case Signal(t) =>
      s.(pending := s.pending - {t}, lower := if t > s.lower then t else s.lower)
  }

  /** The state a schedule leads to, or None when the schedule takes a step that is
      not enabled. */
  function Run<T>(c: Config<T>, schedule: seq<Step>): Option<State<T>>
    requires c.Valid()
  {
    if schedule == [] then Some(Init(c))
    else
      var n := |schedule| - 1;
      var before := Run(c, schedule[..n]);
      if before.Some? && Enabled(c, before.value, schedule[n])
      then Some(Apply(c, before.value, schedule[n])) else None
  }

  // ----------------------------------------------------------------- invariant

  /** Number of layers launched completely. */
  function FullLayers<T>(c: Config<T>, pc: Pc): nat {
    match pc
    case Launch(t, _) => t
    case Attach(t) => t + 1
    case Wait(t) => t + 1
    case Returned => c.nt
  }

  predicate Launched<T>(c: Config<T>, pc: Pc, id: Id) {
    && id.part < c.Np()
    && (id.layer <= FullLayers(c, pc) || (pc.Launch? && id.layer == pc.t + 1 && id.part < pc.i))
  }

  /** Time steps before which all continuations have been attached. */
  function Attached<T>(c: Config<T>, pc: Pc): nat {
    match pc
    case Launch(t, _) => t
    case Attach(t) => t
    case Wait(t) => t + 1
    case Returned => c.nt
  }

  /** Time steps before which all waits have returned. */
  function Waited<T>(c: Config<T>, pc: Pc): nat {
    if pc.Returned? then c.nt else pc.t
  }

  ghost predicate PcInv<T>(c: Config<T>, s: State<T>) {
    Shaped(c, s) && (!s.pc.Returned? ==> s.pc.t < c.nt)
  }

  ghost predicate Holds(slots: Layer, layer: nat, upto: nat) {
    upto <= |slots| && forall j :: 0 <= j < upto ==> slots[j] == Some(Id(layer, j))
  }

  /** Slots hold the newest launch of each partition. */
  ghost predicate SlotInv<T>(c: Config<T>, s: State<T>) {
    var full := FullLayers(c, s.pc);
    && Holds(s.Slots(full), full, c.Np())
    && (s.pc.Launch? ==> Holds(s.Slots(full + 1), full + 1, s.pc.i))
  }

  function SourceOf<T>(c: Config<T>, id: Id): Source
    requires id.part < c.Np()
  {
    if id.layer == 0 then Given
    else Stencil(Id(id.layer - 1, Idx(id.part, -1, c.Np())), Id(id.layer - 1, id.part),
                 Id(id.layer - 1, Idx(id.part, 1, c.Np())))
  }

  ghost predicate FutureOk<T>(c: Config<T>, s: State<T>, id: Id) {
    && id in s.futures && id.part < c.Np()
    && s.futures[id].source == SourceOf(c, id)
    && (id.layer == 0 ==> s.Ready(id))
    && (s.Ready(id) ==> s.InputsReady(s.futures[id].source) && s.Value(id) == c.Cells(id.layer)[id.part])
  }

  ghost predicate FutureInv<T>(c: Config<T>, s: State<T>) {
    && (forall id :: id in s.futures <==> Launched(c, s.pc, id))
    && (forall id {:trigger FutureOk(c, s, id)} :: id in s.futures ==> FutureOk(c, s, id))
  }

  /** Signals come at multiples of nd only.  Every signal point passed so far is either pending or
      reflected in the lower limit, and the limit is only ever raised by a finished partition 0. */
  ghost predicate SemInv<T>(c: Config<T>, s: State<T>) {
    && (s.lower > 0 ==> s.Ready(Id(s.lower + 1, 0)))
    && (c.throttle.Unlimited? ==> s.pending == map[])
    && (c.throttle.Window? ==>
          && Multiple(c.throttle.nd, s.lower)
          && (forall t :: t in s.pending ==> Multiple(c.throttle.nd, t))
          && (forall t :: t in s.pending ==> t < Attached(c, s.pc) && s.pending[t] == Id(t + 1, 0))
          && (forall t: nat :: SignalPoint(c.throttle.nd, t) && t < Attached(c, s.pc) ==> t in s.pending || s.lower >= t)
          && Waited(c, s.pc) - 1 - c.throttle.nd <= s.lower)
  }

  ghost predicate Inv<T>(c: Config<T>, s: State<T>) {
    PcInv(c, s) && SlotInv(c, s) && FutureInv(c, s) && SemInv(c, s)
  }

  lemma InitInv<T>(c: Config<T>)
    requires c.Valid()
    ensures Inv(c, Init(c))
  {}

  lemma LaunchKeeps<T>(c: Config<T>, s: State<T>, d: Id)
    requires c.Valid() && PcInv(c, s) && SlotInv(c, s) && FutureInv(c, s) && Enabled(c, s, DoLaunch)
    requires d in s.futures || d == Id(s.pc.t + 1, s.pc.i)
    ensures FutureOk(c, Apply(c, s, DoLaunch), d)
  {
    var s' := Apply(c, s, DoLaunch);
    var id := Id(s.pc.t + 1, s.pc.i);
    assert !Launched(c, s.pc, id);
    assert forall x :: s.Ready(x) ==> s'.Ready(x);
    if d != id {
      assert FutureOk(c, s, d);
      assert s'.futures[d] == s.futures[d];
    }
  }

  lemma LaunchFutures<T>(c: Config<T>, s: State<T>)
    requires c.Valid() && PcInv(c, s) && SlotInv(c, s) && FutureInv(c, s) && Enabled(c, s, DoLaunch)
    ensures FutureInv(c, Apply(c, s, DoLaunch))
  {
    var s' := Apply(c, s, DoLaunch);
    LaunchedNext(c, s);
    forall d | d in s'.futures ensures FutureOk(c, s', d) {
      LaunchKeeps(c, s, d);
    }
  }

  /** Exactly one more future has been launched. */
  lemma LaunchedNext<T>(c: Config<T>, s: State<T>)
    requires c.Valid() && PcInv(c, s) && FutureInv(c, s) && Enabled(c, s, DoLaunch)
    ensures var s' := Apply(c, s, DoLaunch); forall id :: id in s'.futures <==> Launched(c, s'.pc, id)
  {
    var s' := Apply(c, s, DoLaunch);
    assert s'.futures.Keys == s.futures.Keys + {Id(s.pc.t + 1, s.pc.i)};
  }

  lemma LaunchSlots<T>(c: Config<T>, s: State<T>)
    requires c.Valid() && PcInv(c, s) && SlotInv(c, s) && Enabled(c, s, DoLaunch)
    ensures PcInv(c, Apply(c, s, DoLaunch)) && SlotInv(c, Apply(c, s, DoLaunch))
  {}

  lemma LaunchSem<T>(c: Config<T>, s: State<T>)
    requires c.Valid() && Inv(c, s) && Enabled(c, s, DoLaunch)
    ensures SemInv(c, Apply(c, s, DoLaunch))
  {
    assert !Launched(c, s.pc, Id(s.pc.t + 1, s.pc.i));
  }

  /** The value a task computes is the one its cell must have. */
  lemma FireValue<T>(c: Config<T>, s: State<T>, id: Id)
    requires c.Valid() && FutureInv(c, s) && Enabled(c, s, Fire(id))
    ensures FutureOk(c, s, id) && id.layer >= 1
    ensures Apply(c, s, Fire(id)).Value(id) == c.Cells(id.layer)[id.part]
  {
    assert FutureOk(c, s, id);
    var src := s.futures[id].source;
    assert FutureOk(c, s, src.left) && FutureOk(c, s, src.middle) && FutureOk(c, s, src.right);
    StepAt(c.task, c.Cells(id.layer - 1), id.part);
  }

  /** Setting a future keeps what was known about the others. */
  lemma FireKeeps<T>(c: Config<T>, s: State<T>, id: Id, d: Id)
    requires c.Valid() && FutureInv(c, s) && Enabled(c, s, Fire(id)) && d in s.futures
    ensures FutureOk(c, Apply(c, s, Fire(id)), d)
  {
    var s' := Apply(c, s, Fire(id));
    assert FutureOk(c, s, d);
    assert forall x :: s.Ready(x) ==> s'.Ready(x);
    if d == id {
      FireValue(c, s, id);
    } else {
      assert s'.futures[d] == s.futures[d];
    }
  }

  lemma FireFutures<T>(c: Config<T>, s: State<T>, id: Id)
    requires c.Valid() && Inv(c, s) && Enabled(c, s, Fire(id))
    ensures FutureInv(c, Apply(c, s, Fire(id)))
  {
    var s' := Apply(c, s, Fire(id));
    assert s'.futures.Keys == s.futures.Keys;
    forall d | d in s'.futures ensures FutureOk(c, s', d) {
      FireKeeps(c, s, id, d);
    }
  }

  lemma FireInv<T>(c: Config<T>, s: State<T>, id: Id)
    requires c.Valid() && Inv(c, s) && Enabled(c, s, Fire(id))
    ensures Inv(c, Apply(c, s, Fire(id)))
  {
    FireFutures(c, s, id);
  }

  lemma SameFutures<T>(c: Config<T>, s: State<T>, s': State<T>)
    requires FutureInv(c, s) && s'.futures == s.futures
    requires forall id :: Launched(c, s.pc, id) <==> Launched(c, s'.pc, id)
    ensures FutureInv(c, s')
  {
    forall d | d in s'.futures ensures FutureOk(c, s', d) {
      assert FutureOk(c, s, d);
    }
  }

  lemma AttachInv<T>(c: Config<T>, s: State<T>)
    requires c.Valid() && Inv(c, s) && Enabled(c, s, DoAttach)
    ensures Inv(c, Apply(c, s, DoAttach))
  {
    SameFutures(c, s, Apply(c, s, DoAttach));
    if c.throttle.Window? && s.pc.t % c.throttle.nd == 0 {
      AttachedAt(c.throttle.nd, s.pc.t);
    }
  }

  lemma WaitInv<T>(c: Config<T>, s: State<T>)
    requires c.Valid() && Inv(c, s) && Enabled(c, s, DoWait)
    ensures Inv(c, Apply(c, s, DoWait))
  {
    SameFutures(c, s, Apply(c, s, DoWait));
  }

  lemma SignalInv<T>(c: Config<T>, s: State<T>, t: nat)
    requires c.Valid() && Inv(c, s) && Enabled(c, s, Signal(t))
    ensures Inv(c, Apply(c, s, Signal(t)))
  {
    SameFutures(c, s, Apply(c, s, Signal(t)));
  }

  lemma StepInv<T>(c: Config<T>, s: State<T>, step: Step)
    requires c.Valid() && Inv(c, s) && Enabled(c, s, step)
    ensures Inv(c, Apply(c, s, step))
  {
    match step
    case DoLaunch => LaunchSlots(c, s); LaunchFutures(c, s); LaunchSem(c, s);
    case Fire(id) => FireInv(c, s, id);
    case DoAttach => AttachInv(c, s);
    case DoWait => WaitInv(c, s);
    case Signal(t) => SignalInv(c, s, t);
  }

  /** Every state of every schedule satisfies the invariant. */
  lemma {:induction false} RunInv<T>(c: Config<T>, schedule: seq<Step>)
    requires c.Valid() && Run(c, schedule).Some?
    ensures Inv(c, Run(c, schedule).value)
  {
    if schedule == [] {
      InitInv(c);
    } else {
      var n := |schedule| - 1;
      RunInv(c, schedule[..n]);
      StepInv(c, Run(c, schedule[..n]).value, schedule[n]);
    }
  }

  // ------------------------------------------------- liveness and termination

  /** The loop has returned, every task has run and every continuation has signalled. */
  predicate Complete<T>(s: State<T>) {
    s.pc.Returned? && s.pending == map[] && forall id :: id in s.futures ==> s.Ready(id)
  }

  /** Below any unfinished task there is one whose inputs are all ready. */
  lemma {:induction false} SomeTaskCanFire<T>(c: Config<T>, s: State<T>, id: Id) returns (step: Step)
    requires c.Valid() && Inv(c, s) && id in s.futures && !s.Ready(id)
    ensures Enabled(c, s, step)
    decreases id.layer
  {
    assert FutureOk(c, s, id);
    var src := s.futures[id].source;
    if s.InputsReady(src) {
      step := Fire(id);
    } else {
      var d := if !s.Ready(src.left) then src.left else if !s.Ready(src.middle) then src.middle else src.right;
      step := SomeTaskCanFire(c, s, d);
    }
  }

  /** A wait whose signals have all arrived returns: the signal it needs was attached
      before it. */
  lemma WaitReturns<T>(c: Config<T>, s: State<T>)
    requires c.Valid() && Inv(c, s) && s.pc.Wait? && s.pending == map[]
    ensures Enabled(c, s, DoWait)
  {
    if c.throttle.Window? {
      var point := LastSignalPoint(c.throttle.nd, s.pc.t);
    }
  }

  lemma ProgressNow<T>(c: Config<T>, s: State<T>) returns (step: Step)
    requires c.Valid() && Inv(c, s) && !Complete(s)
    ensures Enabled(c, s, step)
  {
    if id :| id in s.futures && !s.Ready(id) {
      step := SomeTaskCanFire(c, s, id);
    } else if t :| t in s.pending {
      step := Signal(t);
    } else {
      assert s.pending == map[];
      step := MainThreadMoves(c, s);
    }
  }

  lemma MainThreadMoves<T>(c: Config<T>, s: State<T>) returns (step: Step)
    requires c.Valid() && Inv(c, s) && !s.pc.Returned? && s.pending == map[]
    ensures Enabled(c, s, step)
  {
    match s.pc
    case Launch(t, i) => step := DoLaunch;
    case Attach(t) => step := DoAttach;
    case Wait(t) => step := DoWait; WaitReturns(c, s);
  }

  /** No schedule gets stuck before everything is done. */
  lemma Progress<T>(c: Config<T>, schedule: seq<Step>) returns (step: Step)
    requires c.Valid() && Run(c, schedule).Some? && !Complete(Run(c, schedule).value)
    ensures Run(c, schedule + [step]).Some?
  {
    RunInv(c, schedule);
    step := ProgressNow(c, Run(c, schedule).value);
    assert (schedule + [step])[..|schedule|] == schedule;
  }

  /** Main-thread steps of k whole time steps: np launches, one attach, one wait each. */
  function MainSteps(np: nat, k: nat): (n: nat)
    ensures n == k * (np + 2)
  {
    if k == 0 then 0 else assert k * (np + 2) == (k - 1) * (np + 2) + (np + 2); MainSteps(np, k - 1) + np + 2
  }

  /** Main-thread steps still to come. */
  function MainLeft<T>(c: Config<T>, pc: Pc): nat
    requires !pc.Returned? ==> pc.t < c.nt
    requires pc.Launch? ==> pc.i < c.Np()
  {
    match pc
    case Launch(t, i) => MainSteps(c.Np(), c.nt - t - 1) + c.Np() + 2 - i
    case Attach(t) => MainSteps(c.Np(), c.nt - t - 1) + 2
    case Wait(t) => MainSteps(c.Np(), c.nt - t - 1) + 1
    case Returned => 0
  }

  ghost function Unfinished<T>(s: State<T>): set<Id> {
    set id | id in s.futures && !s.Ready(id)
  }

  ghost function Work<T>(c: Config<T>, s: State<T>): nat
    requires PcInv(c, s)
  {
    2 * MainLeft(c, s.pc) + |Unfinished(s)| + |s.pending|
  }

  lemma LaunchUnfinished<T>(s: State<T>, id: Id, src: Source)
    requires id !in s.futures
    ensures Unfinished(s.(futures := s.futures[id := Future(src, None)])) == Unfinished(s) + {id}
  {}

  lemma LaunchUsesWork<T>(c: Config<T>, s: State<T>)
    requires c.Valid() && Inv(c, s) && Enabled(c, s, DoLaunch)
    ensures PcInv(c, Apply(c, s, DoLaunch)) && Work(c, Apply(c, s, DoLaunch)) < Work(c, s)
  {
    var id, s' := Id(s.pc.t + 1, s.pc.i), Apply(c, s, DoLaunch);
    assert !Launched(c, s.pc, id);
    LaunchUnfinished(s, id, s'.futures[id].source);
    assert Unfinished(s') == Unfinished(s.(futures := s'.futures));
  }

  lemma FireUsesWork<T>(c: Config<T>, s: State<T>, id: Id)
    requires c.Valid() && Inv(c, s) && Enabled(c, s, Fire(id))
    ensures PcInv(c, Apply(c, s, Fire(id))) && Work(c, Apply(c, s, Fire(id))) < Work(c, s)
  {
    assert Unfinished(Apply(c, s, Fire(id))) == Unfinished(s) - {id};
  }

  lemma WaitUsesWork<T>(c: Config<T>, s: State<T>)
    requires c.Valid() && PcInv(c, s) && Enabled(c, s, DoWait)
    ensures PcInv(c, Apply(c, s, DoWait)) && Work(c, Apply(c, s, DoWait)) < Work(c, s)
  {
    assert Unfinished(Apply(c, s, DoWait)) == Unfinished(s);
  }

  /** Every step uses up work. */
  lemma StepUsesWork<T>(c: Config<T>, s: State<T>, step: Step)
    requires c.Valid() && Inv(c, s) && Enabled(c, s, step)
    ensures PcInv(c, Apply(c, s, step)) && Work(c, Apply(c, s, step)) < Work(c, s)
  {
    match step
    case DoLaunch => LaunchUsesWork(c, s);
    case DoWait => WaitUsesWork(c, s);
    case Fire(id) => FireUsesWork(c, s, id);
    case DoAttach => AttachUsesWork(c, s);
    case Signal(t) => SignalUsesWork(c, s, t);
  }

  lemma AttachUsesWork<T>(c: Config<T>, s: State<T>)
    requires c.Valid() && PcInv(c, s) && Enabled(c, s, DoAttach)
    ensures PcInv(c, Apply(c, s, DoAttach)) && Work(c, Apply(c, s, DoAttach)) < Work(c, s)
  {
    AttachEffect(c, s);
    OneMoreKey(s.pending, Apply(c, s, DoAttach).pending, s.pc.t);
    MainThreadWorks(c, s, Apply(c, s, DoAttach));
  }

  lemma AttachEffect<T>(c: Config<T>, s: State<T>)
    requires c.Valid() && PcInv(c, s) && Enabled(c, s, DoAttach)
    ensures var s' := Apply(c, s, DoAttach);
      s'.pc == Wait(s.pc.t) && s'.futures == s.futures && s'.pending.Keys <= s.pending.Keys + {s.pc.t} && PcInv(c, s')
  {}

  lemma MainThreadWorks<T>(c: Config<T>, s: State<T>, s': State<T>)
    requires PcInv(c, s) && PcInv(c, s') && s.pc.Attach? && s'.pc == Wait(s.pc.t)
    requires s'.futures == s.futures && |s'.pending| <= |s.pending| + 1
    ensures Work(c, s') < Work(c, s)
  {
    assert Unfinished(s') == Unfinished(s);
  }

  lemma OneMoreKey<T>(m: map<nat, T>, m': map<nat, T>, k: nat)
    requires m'.Keys <= m.Keys + {k}
    ensures |m'| <= |m| + 1
  {
    assert m.Keys + {k} == m'.Keys + (m.Keys + {k} - m'.Keys);
  }

  lemma SignalUsesWork<T>(c: Config<T>, s: State<T>, t: nat)
    requires c.Valid() && PcInv(c, s) && Enabled(c, s, Signal(t))
    ensures PcInv(c, Apply(c, s, Signal(t))) && Work(c, Apply(c, s, Signal(t))) < Work(c, s)
  {
    var s' := Apply(c, s, Signal(t));
    assert Unfinished(s') == Unfinished(s);
    assert s'.pending.Keys == s.pending.Keys - {t};
  }

  /** Every schedule is finite: its length is bounded by the parameters alone. */
  lemma {:induction false} Termination<T>(c: Config<T>, schedule: seq<Step>)
    requires c.Valid() && Run(c, schedule).Some?
    ensures PcInv(c, Run(c, schedule).value)
    ensures |schedule| + Work(c, Run(c, schedule).value) <= 2 * MainSteps(c.Np(), c.nt)
  {
    var s := Run(c, schedule).value;
    RunInv(c, schedule);
    if schedule == [] {
      assert Unfinished(s) == {};
    } else {
      var n := |schedule| - 1;
      Termination(c, schedule[..n]);
      RunInv(c, schedule[..n]);
      StepUsesWork(c, Run(c, schedule[..n]).value, schedule[n]);
    }
  }

  // ------------------------------------------------------------------- results

  predicate HasResult<T>(c: Config<T>, s: State<T>) {
    && Shaped(c, s)
    && forall j :: 0 <= j < c.Np() ==> s.Slots(c.nt)[j].Some? && s.Ready(s.Slots(c.nt)[j].value)
  }

  /** The layer of values the returned slots refer to. */
  function Result<T>(c: Config<T>, s: State<T>): (r: seq<T>)
    requires HasResult(c, s)
  {
    seq(c.Np(), j requires 0 <= j < c.Np() => s.Value(s.Slots(c.nt)[j].value))
  }

  lemma ResultOfComplete<T>(c: Config<T>, s: State<T>)
    requires c.Valid() && Inv(c, s) && Complete(s)
    ensures HasResult(c, s) && Result(c, s) == c.Cells(c.nt)
  {
    forall j | 0 <= j < c.Np()
      ensures s.Slots(c.nt)[j] == Some(Id(c.nt, j)) && s.Ready(Id(c.nt, j))
      ensures s.Value(Id(c.nt, j)) == c.Cells(c.nt)[j]
    {
      assert FutureOk(c, s, Id(c.nt, j));
    }
  }

  /** Whatever the schedule, a completed run returns the same layer of cells. */
  lemma CompleteResult<T>(c: Config<T>, schedule: seq<Step>)
    requires c.Valid() && Run(c, schedule).Some? && Complete(Run(c, schedule).value)
    ensures HasResult(c, Run(c, schedule).value) && Result(c, Run(c, schedule).value) == c.Cells(c.nt)
  {
    RunInv(c, schedule);
    ResultOfComplete(c, Run(c, schedule).value);
  }

  /** Runs the system to completion under a scheduler that always picks an enabled step;
      the step number lets it follow any schedule. */
  method Execute<T(!new)>(c: Config<T>, pick: (nat, State<T>) -> Step) returns (r: seq<T>)
    requires c.Valid()
    requires forall n: nat, s :: Inv(c, s) && !Complete(s) ==> Enabled(c, s, pick(n, s))
    ensures r == c.Cells(c.nt)
  {
    var s, n := Init(c), 0;
    InitInv(c);
    while !Complete(s)
      invariant Inv(c, s)
      decreases Work(c, s)
    {
      var step := pick(n, s);
      StepInv(c, s, step);
      StepUsesWork(c, s, step);
      s, n := Apply(c, s, step), n + 1;
    }
    ResultOfComplete(c, s);
    r := Result(c, s);
  }

  // ------------------------------------------------------------ sliding window

  /** Distance of partition j from partition 0 around the ring. */
  function RingDistance(j: nat, np: nat): nat
    requires j < np
  {
    if j <= np - j then j else np - j
  }

  /** A finished task stands on a cone of finished tasks. */
  lemma {:induction false} Cone<T>(c: Config<T>, s: State<T>, layer: nat, depth: nat, j: nat)
    requires c.Valid() && Inv(c, s) && s.Ready(Id(layer, 0)) && depth <= layer
    requires j < c.Np() && RingDistance(j, c.Np()) <= depth
    ensures s.Ready(Id(layer - depth, j))
    decreases depth
  {
    if depth > 0 {
      var np := c.Np();
      var via := if j == 0 then 0 else if j <= np - j then j - 1 else Idx(j, 1, np);
      Cone(c, s, layer, depth - 1, via);
      assert FutureOk(c, s, Id(layer - depth + 1, via));
    }
  }

  /** Once the wait of time step t has returned, partition 0 has finished the layer reached, which
      is at least t - nd + 1 if t > nd, and everything below it, and all partitions have finished
      the layers at least np/2 lower. */
  lemma SlidingWindow<T>(c: Config<T>, schedule: seq<Step>, t: nat, layer: nat, j: nat)
    requires c.Valid() && c.throttle.Window? && Run(c, schedule).Some?
    requires t < Waited(c, Run(c, schedule).value.pc) && j < c.Np()
    requires layer <= Reached(c.throttle.nd, t) && (j != 0 && layer > 0 ==> layer + c.Np() / 2 <= Reached(c.throttle.nd, t))
    ensures Run(c, schedule).value.Ready(Id(layer, j))
    ensures t > c.throttle.nd ==> t - c.throttle.nd + 1 <= Reached(c.throttle.nd, t)
  {
    RunInv(c, schedule);
    ReachedAtLeast(c.throttle.nd, t);
    WindowNow(c, Run(c, schedule).value, t, layer, j);
  }

  lemma WindowNow<T>(c: Config<T>, s: State<T>, t: nat, layer: nat, j: nat)
    requires c.Valid() && Inv(c, s) && c.throttle.Window? && t < Waited(c, s.pc) && j < c.Np()
    requires layer <= Reached(c.throttle.nd, t) && (j != 0 && layer > 0 ==> layer + c.Np() / 2 <= Reached(c.throttle.nd, t))
    ensures s.Ready(Id(layer, j))
  {
    if layer == 0 {
      assert Launched(c, s.pc, Id(0, j));
      assert FutureOk(c, s, Id(0, j));
    } else {
      ReachedBySignal(c.throttle.nd, t, s.lower);
      Cone(c, s, s.lower + 1, s.lower + 1 - layer, j);
    }
  }
}
