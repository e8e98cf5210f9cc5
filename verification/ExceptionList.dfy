/** The exception list: `add` gives its lock up in the middle to ask for the error code, so
    adds by several threads can overlap there.

    Every call of `add` is a process of its own; a thread that adds several exceptions one
    after the other is the case of processes that follow each other. */
module ExceptionList {
  import opened Options

  /** Codes of the exceptions to be added, by call; the list and base code it starts with. */
  datatype Config<C> = Config(codes: seq<C>, pre: seq<C>, base0: C) {
    /** As constructed: from a list, with the code of its front. */
    ghost predicate Valid() { pre != [] ==> base0 == pre[0] }
  }

  /** Where a call stands.  It holds the lock from Locked on, except in the Window. */
  datatype Pc = Start | Locked | Window | Setting | Pushing(hasSet: bool) | Releasing | Done {
    predicate HoldsLock() { Locked? || Setting? || Pushing? || Releasing? }
    predicate HasPushed() { Releasing? || Done? }
  }

  /** `added` are the calls that have pushed and `setters` those that set the base code, in order. */
  datatype State<C> = State(pcs: seq<Pc>, lock: Option<nat>, added: seq<nat>, setters: seq<nat>, base: C) {
    predicate IsEmpty(c: Config<C>) { |c.pre| == 0 && added == [] }
    predicate AllDone() { forall k :: 0 <= k < |pcs| ==> pcs[k].Done? }
  }

  function Init<C>(c: Config<C>): State<C> {
    State(seq(|c.codes|, k => Start), None, [], [], c.base0)
  }

  /** Call k can make its next move unless it needs the lock and another call has it. */
  predicate Enabled<C>(s: State<C>, k: nat) {
    k < |s.pcs| && !s.pcs[k].Done? && (s.pcs[k].Start? || s.pcs[k].Window? ==> s.lock.None?)
  }

  function Move<C>(c: Config<C>, s: State<C>, k: nat): State<C>
    requires |s.pcs| == |c.codes| && Enabled(s, k)
  {
    var at := (pc: Pc) => s.(pcs := s.pcs[k := pc]);
    match s.pcs[k]
    case Start => at(Locked).(lock := Some(k))
    case Locked => if s.IsEmpty(c) then at(Window).(lock := None) else at(Pushing(false))
    case Window => at(Setting).(lock := Some(k))
    case Setting => at(Pushing(true)).(base := c.codes[k], setters := s.setters + [k])
    case Pushing(_) => at(Releasing).(added := s.added + [k])
    case Releasing => at(Done).(lock := None)
    case Done => s
  }

  function Run<C>(c: Config<C>, schedule: seq<nat>): (s: Option<State<C>>)
    ensures s.Some? ==> |s.value.pcs| == |c.codes|
  {
    if schedule == [] then Some(Init(c))
    else
      var n := |schedule| - 1;
      var before := Run(c, schedule[..n]);
      if before.Some? && Enabled(before.value, schedule[n]) then Some(Move(c, before.value, schedule[n])) else None
  }

  // ------------------------------------------------------------------- invariant

  /** The lock is held by the call that stands where the lock is held. */
  ghost predicate LockOk<C>(s: State<C>) {
    (s.lock.Some? ==> s.lock.value < |s.pcs|) && forall k {:trigger s.pcs[k]} :: 0 <= k < |s.pcs| ==> (s.pcs[k].HoldsLock() <==> s.lock == Some(k))
  }

  /** The calls that have pushed are in the list, once each. */
  ghost predicate AddedOk<C>(s: State<C>) {
    && (forall k {:trigger ListedOk(s, k)} :: 0 <= k < |s.pcs| ==> ListedOk(s, k))
    && (forall i :: 0 <= i < |s.added| ==> s.added[i] < |s.pcs|)
    && (forall i, j :: 0 <= i < j < |s.added| ==> s.added[i] != s.added[j])
  }

  ghost predicate ListedOk<C>(s: State<C>, k: nat)
    requires k < |s.pcs|
  {
    s.pcs[k].HasPushed() <==> k in s.added
  }

  /** Why a call stands where it does. */
  ghost predicate CallOk<C>(c: Config<C>, s: State<C>, k: nat)
    requires k < |s.pcs|
  {
    match s.pcs[k]
    case Window => c.pre == []
    case Setting => c.pre == []
    case Pushing(hasSet) => if hasSet then s.setters != [] && s.setters[|s.setters|-1] == k else !s.IsEmpty(c)
    case _ => true
  }

  ghost predicate CallsOk<C>(c: Config<C>, s: State<C>) {
    forall k {:trigger CallOk(c, s, k)} :: 0 <= k < |s.pcs| ==> CallOk(c, s, k)
  }

  /** The base is the code of the last setter. */
  ghost predicate BaseOk<C>(c: Config<C>, s: State<C>) {
    && (forall i :: 0 <= i < |s.setters| ==> s.setters[i] < |c.codes|)
    && s.base == (if s.setters == [] then c.base0 else c.codes[s.setters[|s.setters|-1]])
    && (c.pre != [] ==> s.setters == [])
  }

  /** Whoever sets the base code pushes under the same lock, and the first one to do so is the
      front of a list that started empty. */
  ghost predicate SettersOk<C>(c: Config<C>, s: State<C>) {
    && (c.pre == [] && s.added != [] ==> s.setters != [] && s.added[0] == s.setters[0])
    && (c.pre == [] && s.added == [] ==> |s.setters| <= 1)
    && (forall i :: 0 <= i < |s.setters| ==> s.setters[i] in s.added || (s.setters[i] < |s.pcs| && s.pcs[s.setters[i]] == Pushing(true)))
  }

  ghost predicate Inv<C>(c: Config<C>, s: State<C>) {
    c.Valid() && |s.pcs| == |c.codes| && LockOk(s) && AddedOk(s) && CallsOk(c, s) && BaseOk(c, s) && SettersOk(c, s)
  }

  lemma MoveLock<C>(c: Config<C>, s: State<C>, k: nat)
    requires Inv(c, s) && Enabled(s, k)
    ensures LockOk(Move(c, s, k))
  {}

  lemma MoveAdded<C>(c: Config<C>, s: State<C>, k: nat)
    requires Inv(c, s) && Enabled(s, k)
    ensures AddedOk(Move(c, s, k))
  {
    var s' := Move(c, s, k);
    assert ListedOk(s, k);
    forall j | 0 <= j < |s.pcs| ensures ListedOk(s', j) {
      assert ListedOk(s, j);
    }
  }

  /** While one call holds the lock no other does. */
  lemma OneHolder<C>(s: State<C>, k: nat, j: nat)
    requires LockOk(s) && k < |s.pcs| && j < |s.pcs| && s.pcs[k].HoldsLock() && j != k
    ensures !s.pcs[j].HoldsLock()
  {}

  lemma MoveCalls<C>(c: Config<C>, s: State<C>, k: nat)
    requires Inv(c, s) && Enabled(s, k)
    ensures CallsOk(c, Move(c, s, k)) && BaseOk(c, Move(c, s, k))
  {
    var s' := Move(c, s, k);
    assert CallOk(c, s, k);
    forall j | 0 <= j < |s.pcs| ensures CallOk(c, s', j) {
      assert CallOk(c, s, j);
      if j != k && s.pcs[k].HoldsLock() {
        OneHolder(s, k, j);
      }
    }
  }

  lemma MoveSetters<C>(c: Config<C>, s: State<C>, k: nat)
    requires Inv(c, s) && Enabled(s, k)
    ensures SettersOk(c, Move(c, s, k))
  {
    assert CallOk(c, s, k);
  }

  lemma {:induction false} RunInv<C>(c: Config<C>, schedule: seq<nat>)
    requires c.Valid() && Run(c, schedule).Some?
    ensures Inv(c, Run(c, schedule).value)
  {
    if schedule != [] {
      var n := |schedule| - 1;
      RunInv(c, schedule[..n]);
      MoveLock(c, Run(c, schedule[..n]).value, schedule[n]);
      MoveAdded(c, Run(c, schedule[..n]).value, schedule[n]);
      MoveCalls(c, Run(c, schedule[..n]).value, schedule[n]);
      MoveSetters(c, Run(c, schedule[..n]).value, schedule[n]);
    }
  }

  // ------------------------------------------------------------------- theorems

  /** The exceptions in the list. */
  function Listed<C>(c: Config<C>, s: State<C>): (l: seq<C>)
    requires forall i :: 0 <= i < |s.added| ==> s.added[i] < |c.codes|
  {
    c.pre + seq(|s.added|, i requires 0 <= i < |s.added| => c.codes[s.added[i]])
  }

  /** No add is lost or duplicated: the list holds what it started with and then, once each, the
      calls that have pushed, which are exactly the completed ones while nobody holds the lock. */
  lemma NothingLost<C>(c: Config<C>, schedule: seq<nat>, k: nat)
    requires c.Valid() && Run(c, schedule).Some? && k < |c.codes|
    ensures var s := Run(c, schedule).value;
      && multiset(s.added)[k] == (if s.pcs[k].HasPushed() then 1 else 0)
      && (s.lock.None? ==> (s.pcs[k].HasPushed() <==> s.pcs[k].Done?))
  {
    RunInv(c, schedule);
    var s := Run(c, schedule).value;
    assert ListedOk(s, k);
    OnlyOnce(s.added, k);
  }

  lemma {:induction false} OnlyOnce(ks: seq<nat>, k: nat)
    requires forall i, j :: 0 <= i < j < |ks| ==> ks[i] != ks[j]
    ensures multiset(ks)[k] == if k in ks then 1 else 0
  {
    if ks != [] {
      var n := |ks| - 1;
      assert ks == ks[..n] + [ks[n]];
      OnlyOnce(ks[..n], k);
    }
  }

  /** The base code is the code of some listed exception whenever the lock is free and the list
      is not empty. */
  lemma BaseIsListed<C>(c: Config<C>, schedule: seq<nat>)
    requires c.Valid() && Run(c, schedule).Some? && Run(c, schedule).value.lock.None?
    ensures var s := Run(c, schedule).value;
      && (forall i :: 0 <= i < |s.added| ==> s.added[i] < |c.codes|)
      && (Listed(c, s) != [] ==> s.base in Listed(c, s))
  {
    RunInv(c, schedule);
    var s := Run(c, schedule).value;
    BaseListedNow(c, s);
  }

  lemma BaseListedNow<C>(c: Config<C>, s: State<C>)
    requires Inv(c, s) && s.lock.None?
    ensures Listed(c, s) != [] ==> s.base in Listed(c, s)
  {
    if c.pre != [] {
      assert Listed(c, s)[0] == c.pre[0];
    } else if s.added != [] {
      var k := s.setters[|s.setters|-1];
      assert k in s.added;
      var i :| 0 <= i < |s.added| && s.added[i] == k;
      assert Listed(c, s)[i] == c.codes[k];
    }
  }

  /** What `get_error` returns: the code of the front. */
  function GetError<C>(c: Config<C>, s: State<C>, noSuccess: C): C
    requires forall i :: 0 <= i < |s.added| ==> s.added[i] < |c.codes|
  {
    if Listed(c, s) == [] then noSuccess else Listed(c, s)[0]
  }

  // ---------------------------------------------------------------- single adder

  predicate Idle(pc: Pc) { pc.Start? || pc.Done? }

  /** At no time are two calls under way. */
  ghost predicate OneAtATime<C>(c: Config<C>, schedule: seq<nat>) {
    forall n :: 0 <= n <= |schedule| ==> Run(c, schedule[..n]).Some? && AtMostOne(Run(c, schedule[..n]).value)
  }

  ghost predicate AtMostOne<C>(s: State<C>) {
    forall j, k :: 0 <= j < k < |s.pcs| ==> Idle(s.pcs[j]) || Idle(s.pcs[k])
  }

  /** With a single adder only one call ever sets the base code. */
  ghost predicate SingleSetter<C>(c: Config<C>, s: State<C>) {
    && |s.setters| <= 1
    && forall k :: 0 <= k < |s.pcs| && (s.pcs[k].Window? || s.pcs[k].Setting?) ==> s.setters == [] && s.added == []
  }

  lemma MoveSingle<C>(c: Config<C>, s: State<C>, k: nat)
    requires Inv(c, s) && Enabled(s, k) && SingleSetter(c, s) && AtMostOne(s) && AtMostOne(Move(c, s, k))
    ensures SingleSetter(c, Move(c, s, k))
  {
    assert CallOk(c, s, k);
  }

  lemma {:induction false} RunSingle<C>(c: Config<C>, schedule: seq<nat>)
    requires c.Valid() && OneAtATime(c, schedule)
    ensures Run(c, schedule).Some? && SingleSetter(c, Run(c, schedule).value)
  {
    assert schedule[..|schedule|] == schedule;
    if schedule != [] {
      var n := |schedule| - 1;
      forall m | 0 <= m <= n ensures Run(c, schedule[..n][..m]).Some? && AtMostOne(Run(c, schedule[..n][..m]).value) {
        assert schedule[..n][..m] == schedule[..m];
      }
      RunSingle(c, schedule[..n]);
      RunInv(c, schedule[..n]);
      MoveSingle(c, Run(c, schedule[..n]).value, schedule[n]);
    }
  }

  /** Then the base code and `get_error` agree. */
  lemma SingleAdder<C>(c: Config<C>, schedule: seq<nat>, noSuccess: C)
    requires c.Valid() && OneAtATime(c, schedule)
    ensures Run(c, schedule).Some?
    ensures var s := Run(c, schedule).value;
      && (forall i :: 0 <= i < |s.added| ==> s.added[i] < |c.codes|)
      && (s.lock.None? && Listed(c, s) != [] ==> s.base == GetError(c, s, noSuccess))
  {
    RunSingle(c, schedule);
    RunInv(c, schedule);
    var s := Run(c, schedule).value;
    if s.lock.None? && Listed(c, s) != [] {
      SingleNow(c, s, noSuccess);
    }
  }

  lemma SingleNow<C>(c: Config<C>, s: State<C>, noSuccess: C)
    requires Inv(c, s) && SingleSetter(c, s) && s.lock.None? && Listed(c, s) != []
    ensures s.base == GetError(c, s, noSuccess)
  {}

  // ------------------------------------------------------------ overlapping adders

  lemma Extend<C>(c: Config<C>, schedule: seq<nat>, s: State<C>, k: nat) returns (longer: seq<nat>, s': State<C>)
    requires Run(c, schedule) == Some(s) && Enabled(s, k)
    ensures s' == Move(c, s, k) && Run(c, longer) == Some(s')
  {
    longer, s' := schedule + [k], Move(c, s, k);
    assert longer[..|schedule|] == schedule;
  }

  /** A call that finds the list empty gives the lock up again. */
  lemma Enter<C>(c: Config<C>, schedule: seq<nat>, s: State<C>, k: nat) returns (longer: seq<nat>, s': State<C>)
    requires Run(c, schedule) == Some(s) && k < |s.pcs| && s.pcs[k] == Start && s.lock.None? && s.IsEmpty(c)
    ensures Run(c, longer) == Some(s') && s' == s.(pcs := s.pcs[k := Window])
  {
    longer, s' := Extend(c, schedule, s, k);
    longer, s' := Extend(c, longer, s', k);
  }

  lemma SetAfterWindow<C>(c: Config<C>, schedule: seq<nat>, s: State<C>, k: nat) returns (longer: seq<nat>, s': State<C>)
    requires Run(c, schedule) == Some(s) && k < |s.pcs| && s.pcs[k] == Window && s.lock.None?
    ensures Run(c, longer) == Some(s')
    ensures s' == s.(pcs := s.pcs[k := Pushing(true)], lock := Some(k), base := c.codes[k], setters := s.setters + [k])
  {
    longer, s' := Extend(c, schedule, s, k);
    longer, s' := Extend(c, longer, s', k);
  }

  /** From the window to the end, with nobody in the way. */
  lemma Finish<C>(c: Config<C>, schedule: seq<nat>, s: State<C>, k: nat) returns (longer: seq<nat>, s': State<C>)
    requires Run(c, schedule) == Some(s) && k < |s.pcs| && s.pcs[k] == Window && s.lock.None?
    ensures Run(c, longer) == Some(s')
    ensures s' == s.(pcs := s.pcs[k := Done], base := c.codes[k], setters := s.setters + [k], added := s.added + [k])
  {
    longer, s' := SetAfterWindow(c, schedule, s, k);
    longer, s' := Extend(c, longer, s', k);
    longer, s' := Extend(c, longer, s', k);
  }

  /** Base code and front agree, if there is a list to look at. */
  ghost predicate Agree<C>(c: Config<C>, s: State<C>, noSuccess: C) {
    && (forall i :: 0 <= i < |s.added| ==> s.added[i] < |c.codes|)
    && (s.lock.None? && Listed(c, s) != [] ==> s.base == GetError(c, s, noSuccess))
  }

  /** Two calls that both find the list empty: the front is the first, the base the second. */
  lemma TwoAdders<C>(c: Config<C>, j: nat, k: nat, noSuccess: C) returns (schedule: seq<nat>, s: State<C>)
    requires c.pre == [] && j < |c.codes| && k < |c.codes| && c.codes[j] != c.codes[k]
    ensures Run(c, schedule) == Some(s) && s.lock.None? && s.added == [j, k] && s.base == c.codes[k]
    ensures !Agree(c, s, noSuccess)
  {
    schedule, s := Enter(c, [], Init(c), j);
    schedule, s := Enter(c, schedule, s, k);
    schedule, s := Finish(c, schedule, s, j);
    schedule, s := Finish(c, schedule, s, k);
    assert Listed(c, s)[0] == c.codes[j];
  }

  lemma AgreeNow<C>(c: Config<C>, s: State<C>, noSuccess: C)
    requires Inv(c, s) && (c.pre != [] || forall j, k :: 0 <= j < |c.codes| && 0 <= k < |c.codes| ==> c.codes[j] == c.codes[k])
    ensures Agree(c, s, noSuccess)
  {}

  /** In all runs base code and front agree exactly if the list did not start empty or all the
      exceptions to be added have the same code. */
  lemma AgreeExactly<C>(c: Config<C>, noSuccess: C)
    requires c.Valid()
    ensures (forall schedule :: Run(c, schedule).Some? ==> Agree(c, Run(c, schedule).value, noSuccess)) <==>
      c.pre != [] || forall j, k :: 0 <= j < |c.codes| && 0 <= k < |c.codes| ==> c.codes[j] == c.codes[k]
  {
    if j, k :| c.pre == [] && 0 <= j < |c.codes| && 0 <= k < |c.codes| && c.codes[j] != c.codes[k] {
      var schedule, s := TwoAdders(c, j, k, noSuccess);
    } else {
      forall schedule | Run(c, schedule).Some? ensures Agree(c, Run(c, schedule).value, noSuccess) {
        RunInv(c, schedule);
        AgreeNow(c, Run(c, schedule).value, noSuccess);
      }
    }
  }

  // -------------------------------------------------------------------- liveness

  /** Until all calls are done, one of them can move. */
  lemma Progress<C>(c: Config<C>, schedule: seq<nat>) returns (k: nat)
    requires c.Valid() && Run(c, schedule).Some? && !Run(c, schedule).value.AllDone()
    ensures Enabled(Run(c, schedule).value, k)
  {
    RunInv(c, schedule);
    k := ProgressNow(c, Run(c, schedule).value);
  }

  lemma ProgressNow<C>(c: Config<C>, s: State<C>) returns (k: nat)
    requires Inv(c, s) && !s.AllDone()
    ensures Enabled(s, k)
  {
    k :| 0 <= k < |s.pcs| && !s.pcs[k].Done?;
    if s.lock.Some? {
      k := s.lock.value;
      assert s.pcs[k].HoldsLock();
    }
  }

  function MovesLeft(pc: Pc): nat {
    match pc
    case Start => 6 case Locked => 5 case Window => 4 case Setting => 3
    case Pushing(_) => 2 case Releasing => 1 case Done => 0
  }

  function AllMovesLeft(pcs: seq<Pc>): nat {
    if pcs == [] then 0 else AllMovesLeft(pcs[..|pcs|-1]) + MovesLeft(pcs[|pcs|-1])
  }

  lemma {:induction false} MovesUsed(pcs: seq<Pc>, k: nat, pc: Pc)
    requires k < |pcs|
    ensures AllMovesLeft(pcs[k := pc]) == AllMovesLeft(pcs) - MovesLeft(pcs[k]) + MovesLeft(pc)
  {
    var n := |pcs| - 1;
    if k == n {
      assert pcs[k := pc][..n] == pcs[..n];
    } else {
      MovesUsed(pcs[..n], k, pc);
      assert pcs[k := pc][..n] == pcs[..n][k := pc];
    }
  }

  lemma {:induction false} AllMovesAtStart(n: nat)
    ensures AllMovesLeft(seq(n, k => Start)) == 6 * n
  {
    if n > 0 {
      AllMovesAtStart(n - 1);
      assert seq(n, k => Start)[..n - 1] == seq(n - 1, k => Start);
    }
  }

  lemma MoveUsesOne<C>(c: Config<C>, s: State<C>, k: nat)
    requires |s.pcs| == |c.codes| && Enabled(s, k)
    ensures AllMovesLeft(Move(c, s, k).pcs) < AllMovesLeft(s.pcs)
  {
    MovesUsed(s.pcs, k, Move(c, s, k).pcs[k]);
  }

  /** No schedule is longer than six moves per call. */
  lemma {:induction false} Termination<C>(c: Config<C>, schedule: seq<nat>)
    requires Run(c, schedule).Some?
    ensures |schedule| + AllMovesLeft(Run(c, schedule).value.pcs) <= 6 * |c.codes|
  {
    if schedule == [] {
      AllMovesAtStart(|c.codes|);
    } else {
      var n := |schedule| - 1;
      Termination(c, schedule[..n]);
      MoveUsesOne(c, Run(c, schedule[..n]).value, schedule[n]);
    }
  }

  // ------------------------------------------------------------- one thread alone

  /** The list as one thread sees it: base and front agree. */
  class List<C(==)> {
    var exceptions: seq<C>
    var base: C

    constructor (success: C)
      ensures exceptions == [] && base == success && Valid()
    {
      exceptions, base := [], success;
    }

    /** From an existing list: the code of its front. */
    constructor From(l: seq<C>, success: C)
      ensures exceptions == l && base == (if l == [] then success else l[0]) && Valid()
    {
      exceptions := l;
      base := if |l| > 0 then l[0] else success;
    }

    ghost predicate Valid()
      reads this
    {
      exceptions != [] ==> base == exceptions[0]
    }

    method Add(e: C)
      requires Valid()
      modifies this
      ensures Valid() && exceptions == old(exceptions) + [e]
      ensures base == if old(exceptions) == [] then e else old(base)
    {
      if |exceptions| == 0 {
        base := e;
      }
      exceptions := exceptions + [e];
    }

    method GetError(noSuccess: C) returns (e: C)
      requires Valid()
      ensures e == if exceptions == [] then noSuccess else base
    {
      e := if |exceptions| == 0 then noSuccess else exceptions[0];
    }
  }
}
