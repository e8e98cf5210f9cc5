/** What the feature counters mean: which ones bound which, and what the loop level is. */
module LoopFeatureLaws {
  import opened TripCount
  import opened LoopFeatures

  // ------------------------------------------------------------ what the counters count

  function Indicator(p: Kind -> bool): Kind -> nat {
    k => if p(k) then 1 else 0
  }

  /** How often statements with a property are executed, and how often they are written. */
  ghost function Executed(p: Kind -> bool, ss: seq<Stmt>): nat {
    RunsAll(Indicator(p), ss)
  }

  function Written(p: Kind -> bool, ss: seq<Stmt>): nat {
    OccursAll(Indicator(p), ss)
  }

  lemma {:induction false} RunsSum(own: Kind -> nat, a: Kind -> nat, b: Kind -> nat, ss: seq<Stmt>)
    requires forall k :: own(k) == a(k) + b(k)
    ensures RunsAll(own, ss) == RunsAll(a, ss) + RunsAll(b, ss)
    decreases ss
  {
    if ss != [] {
      var n := |ss| - 1;
      RunsSum(own, a, b, ss[..n]);
      if ss[n].Node? {
        RunsSum(own, a, b, ss[n].children);
        Distribute(Turns(ss[n].kind), RunsAll(a, ss[n].children), RunsAll(b, ss[n].children));
      }
    }
  }

  lemma {:induction false} OccursSum(own: Kind -> nat, a: Kind -> nat, b: Kind -> nat, ss: seq<Stmt>)
    requires forall k :: own(k) == a(k) + b(k)
    ensures OccursAll(own, ss) == OccursAll(a, ss) + OccursAll(b, ss)
    decreases ss
  {
    if ss != [] {
      var n := |ss| - 1;
      OccursSum(own, a, b, ss[..n]);
      if ss[n].Node? {
        OccursSum(own, a, b, ss[n].children);
      }
    }
  }

  function Nothing(): Kind -> nat { k => 0 }

  lemma {:induction false} NothingAdds(ss: seq<Stmt>)
    ensures RunsAll(Nothing(), ss) == 0 && OccursAll(Nothing(), ss) == 0
    decreases ss
  {
    if ss != [] {
      var n := |ss| - 1;
      NothingAdds(ss[..n]);
      if ss[n].Node? {
        NothingAdds(ss[n].children);
        assert Turns(ss[n].kind) * 0 == 0;
      }
    }
  }

  /** Of what is counted as executed, two kinds without overlap. */
  lemma ExecutedAs(c: Counter, p: Kind -> bool, q: Kind -> bool, ss: seq<Stmt>)
    requires forall k :: PerRun(c, k) == Indicator(p)(k) + Indicator(q)(k)
    ensures RunsAll(k => PerRun(c, k), ss) == Executed(p, ss) + Executed(q, ss)
  {
    RunsSum(k => PerRun(c, k), Indicator(p), Indicator(q), ss);
  }

  lemma WrittenAs(c: Counter, p: Kind -> bool, q: Kind -> bool, ss: seq<Stmt>)
    requires forall k :: Once(c, k) == Indicator(p)(k) + Indicator(q)(k)
    ensures OccursAll(k => Once(c, k), ss) == Written(p, ss) + Written(q, ss)
  {
    OccursSum(k => Once(c, k), Indicator(p), Indicator(q), ss);
  }

  lemma NoneOf(p: Kind -> bool, ss: seq<Stmt>)
    requires forall k :: !p(k)
    ensures Executed(p, ss) == 0 && Written(p, ss) == 0
  {
    NothingAdds(ss);
    RunsSum(Indicator(p), Nothing(), Nothing(), ss);
    OccursSum(Indicator(p), Nothing(), Nothing(), ss);
  }

  /** The counters in terms of the program: each binary and unary operator is an operation each time
      it is executed, each loop header counts two operations and a comparison where it stands. */
  lemma OperationsMean(ss: seq<Stmt>)
    ensures Counted(Ops, 1, ss) ==
      Executed((k: Kind) => k.Binary?, ss) + Executed((k: Kind) => k.Unary?, ss) + 2 * Written((k: Kind) => k.For?, ss)
    ensures Counted(ComparisonOps, 1, ss) ==
      Executed((k: Kind) => k == Binary(true, true), ss) + Executed((k: Kind) => k == Binary(false, true), ss) + Written((k: Kind) => k.For?, ss)
  {
    var none := (k: Kind) => false;
    NoneOf(none, ss);
    CountedIsRuns(Ops, 1, ss);
    ExecutedAs(Ops, (k: Kind) => k.Binary?, (k: Kind) => k.Unary?, ss);
    WrittenAs(Ops, (k: Kind) => k.For?, (k: Kind) => k.For?, ss);
    CountedIsRuns(ComparisonOps, 1, ss);
    ExecutedAs(ComparisonOps, (k: Kind) => k == Binary(true, true), (k: Kind) => k == Binary(false, true), ss);
    WrittenAs(ComparisonOps, (k: Kind) => k.For?, none, ss);
  }

  lemma FloatsMean(ss: seq<Stmt>)
    ensures Counted(FloatOps, 1, ss) ==
      Executed((k: Kind) => k == Binary(true, true), ss) + Executed((k: Kind) => k == Binary(true, false), ss)
  {
    var none := (k: Kind) => false;
    NoneOf(none, ss);
    CountedIsRuns(FloatOps, 1, ss);
    ExecutedAs(FloatOps, (k: Kind) => k == Binary(true, true), (k: Kind) => k == Binary(true, false), ss);
    WrittenAs(FloatOps, none, none, ss);
  }

  /** Conditionals and calls count each time they are executed, a loop with a variable in its header
      counts as a call where it stands. */
  lemma BranchesMean(ss: seq<Stmt>)
    ensures Counted(IfStmts, 1, ss) == Executed((k: Kind) => k.If?, ss)
    ensures Counted(FuncCalls, 1, ss) == Executed((k: Kind) => k.Call?, ss) + Written((k: Kind) => k == For(Variable), ss)
  {
    var none := (k: Kind) => false;
    NoneOf(none, ss);
    CountedIsRuns(IfStmts, 1, ss);
    ExecutedAs(IfStmts, (k: Kind) => k.If?, none, ss);
    WrittenAs(IfStmts, none, none, ss);
    CountedIsRuns(FuncCalls, 1, ss);
    ExecutedAs(FuncCalls, (k: Kind) => k.Call?, none, ss);
    WrittenAs(FuncCalls, (k: Kind) => k == For(Variable), none, ss);
  }

  /** Single declarations with a literal count once each, wherever they stand. */
  lemma VariablesMean(ss: seq<Stmt>)
    ensures Counted(IntVariables, 1, ss) == Written((k: Kind) => k == Decl(true, IntegerLiteral), ss)
    ensures Counted(FloatVariables, 1, ss) == Written((k: Kind) => k == Decl(true, FloatingLiteral), ss)
  {
    var none := (k: Kind) => false;
    NoneOf(none, ss);
    CountedIsRuns(IntVariables, 1, ss);
    ExecutedAs(IntVariables, none, none, ss);
    WrittenAs(IntVariables, (k: Kind) => k == Decl(true, IntegerLiteral), none, ss);
    CountedIsRuns(FloatVariables, 1, ss);
    ExecutedAs(FloatVariables, none, none, ss);
    WrittenAs(FloatVariables, (k: Kind) => k == Decl(true, FloatingLiteral), none, ss);
  }

  // -------------------------------------------------- floating point and comparisons

  /** Floating-point operations and comparisons are operations. */
  lemma {:induction false} CountedBound(c: Counter, factor: nat, ss: seq<Stmt>)
    requires c == FloatOps || c == ComparisonOps
    ensures Counted(c, factor, ss) <= Counted(Ops, factor, ss)
    decreases ss
  {
    if ss != [] {
      var n := |ss| - 1;
      CountedBound(c, factor, ss[..n]);
      if ss[n].Node? {
        CountedBound(c, factor * Turns(ss[n].kind), ss[n].children);
        assert OwnShare(c, factor, ss[n].kind) <= OwnShare(Ops, factor, ss[n].kind);
      }
    }
  }

  ghost predicate Bounded(t: Tally) {
    t.floatOps <= t.ops && t.comparisonOps <= t.ops
  }

  const ZERO := Tally(0, 0, 0, 0, 0, 0, 0, 0, 0)

  /** An analysis of these statements from zero. */
  ghost predicate Analysed(ss: seq<Stmt>, t: Tally) {
    Grown(ZERO, t, 1, ss)
  }

  /** Whatever statements count n operations, their counters are bounded by them. */
  ghost predicate AlwaysBounded(n: nat) {
    forall ss, t :: Analysed(ss, t) && Counted(Ops, 1, ss) == n ==> Bounded(t)
  }

  /** The bound holds as long as the counter of operations does not wrap around, and beyond that
      only if it ends on its largest value. */
  lemma BoundedExactly(n: nat)
    ensures AlwaysBounded(n) <==> n < UINT_MOD || Wrap(n) == UINT_MOD - 1
  {
    if n < UINT_MOD || Wrap(n) == UINT_MOD - 1 {
      forall ss, t | Analysed(ss, t) && Counted(Ops, 1, ss) == n ensures Bounded(t) {
        StaysBounded(n, ss, t);
      }
    } else {
      var ss, t := Unbounded(n);
    }
  }

  lemma StaysBounded(n: nat, ss: seq<Stmt>, t: Tally)
    requires Analysed(ss, t) && Counted(Ops, 1, ss) == n && (n < UINT_MOD || Wrap(n) == UINT_MOD - 1)
    ensures Bounded(t)
  {
    CountedBound(FloatOps, 1, ss);
    CountedBound(ComparisonOps, 1, ss);
    assert t.Get(Ops) == Wrap(n);
    assert t.Get(FloatOps) == Wrap(Counted(FloatOps, 1, ss));
    assert t.Get(ComparisonOps) == Wrap(Counted(ComparisonOps, 1, ss));
  }

  /** f floating-point operations among n. */
  function Flat(f: nat, n: nat): (ss: seq<Stmt>)
    requires f <= n
  {
    seq(n, i requires 0 <= i => Node(Binary(i < f, false), []))
  }

  lemma {:induction false} FlatCounts(f: nat, n: nat, k: nat)
    requires f <= n && k <= n
    ensures Counted(Ops, 1, Flat(f, n)[..k]) == k
    ensures Counted(FloatOps, 1, Flat(f, n)[..k]) == if k < f then k else f
  {
    if k > 0 {
      FlatCounts(f, n, k - 1);
      assert Flat(f, n)[..k][..k - 1] == Flat(f, n)[..k - 1];
      var s := Flat(f, n)[..k][k - 1];
      assert Counted(Ops, 1 * Turns(s.kind), []) == 0 == Counted(FloatOps, 1 * Turns(s.kind), []);
      assert CountedOne(Ops, 1, s) == 1 && CountedOne(FloatOps, 1, s) == if k - 1 < f then 1 else 0;
    }
  }

  function TallyFrom(g: Counter -> nat): Tally {
    Tally(g(Ops), g(FloatOps), g(ComparisonOps), g(IfStmts), g(FuncCalls),
          g(IfStmtsInLoop), g(FuncCallsInLoop), g(IntVariables), g(FloatVariables))
  }

  /** As many operations, 2^32 - 1 of them floating-point: the counter of operations wraps. */
  lemma Unbounded(n: nat) returns (ss: seq<Stmt>, t: Tally)
    requires n >= UINT_MOD && Wrap(n) < UINT_MOD - 1
    ensures Analysed(ss, t) && Counted(Ops, 1, ss) == n && !Bounded(t)
  {
    ss := Flat(UINT_MOD - 1, n);
    t := ResultOf(ss);
    FlatCounts(UINT_MOD - 1, n, n);
    assert ss[..n] == ss;
    assert t.Get(Ops) == Wrap(n);
    assert t.Get(FloatOps) == Wrap(UINT_MOD - 1);
  }

  lemma ResultOf(ss: seq<Stmt>) returns (t: Tally)
    ensures Analysed(ss, t)
  {
    t := TallyFrom(c => Wrap(Counted(c, 1, ss)));
    forall c: Counter ensures t.Get(c) == Wrap(ZERO.Get(c) + Counted(c, 1, ss)) {}
  }

  // ------------------------------------------------------------- counts inside loops

  /** No product of trip counts on the way down leaves the 32-bit range. */
  ghost predicate NoWrap(factor: nat, s: Stmt)
    decreases s
  {
    s.Null? || (factor * Turns(s.kind) < UINT_MOD && NoWrapAll(factor * Turns(s.kind), s.children))
  }

  ghost predicate NoWrapAll(factor: nat, ss: seq<Stmt>)
    decreases ss
  {
    ss == [] || (NoWrapAll(factor, ss[..|ss|-1]) && NoWrap(factor, ss[|ss|-1]))
  }

  /** How often statements of a kind are executed inside a loop of more than one turn. */
  ghost function Looped(own: Kind -> nat, s: Stmt): nat {
    if s.Null? || Turns(s.kind) == 0 then 0
    else if Turns(s.kind) == 1 then LoopedAll(own, s.children)
    else Turns(s.kind) * RunsAll(own, s.children)
  }

  ghost function LoopedAll(own: Kind -> nat, ss: seq<Stmt>): nat {
    if ss == [] then 0 else LoopedAll(own, ss[..|ss|-1]) + Looped(own, ss[|ss|-1])
  }

  /** What is met with a given factor, inside loops only. */
  ghost function InLoopCount(own: Kind -> nat, factor: nat, ss: seq<Stmt>): nat {
    if factor == 0 then 0 else if factor == 1 then LoopedAll(own, ss) else factor * RunsAll(own, ss)
  }

  /** The counters of conditionals and calls inside loops count what is executed inside a loop of
      more than one turn, as often as it is executed. */
  lemma {:induction false} InLoopIsLooped(c: Counter, factor: nat, ss: seq<Stmt>)
    requires c.InLoop() && factor < UINT_MOD && NoWrapAll(factor, ss)
    ensures Counted(c, factor, ss) == InLoopCount(k => PerRun(c, k), factor, ss)
    decreases ss
  {
    if ss != [] {
      var n := |ss| - 1;
      InLoopIsLooped(c, factor, ss[..n]);
      InLoopOne(c, factor, ss[n]);
      Distribute(factor, RunsAll(k => PerRun(c, k), ss[..n]), Runs(k => PerRun(c, k), ss[n]));
    }
  }

  lemma {:induction false} InLoopOne(c: Counter, factor: nat, s: Stmt)
    requires c.InLoop() && factor < UINT_MOD && NoWrap(factor, s)
    ensures var own := k => PerRun(c, k);
      CountedOne(c, factor, s) == if factor == 0 then 0 else if factor == 1 then Looped(own, s) else factor * Runs(own, s)
    decreases s
  {
    if s.Node? {
      var t, w := Turns(s.kind), RunsAll(k => PerRun(c, k), s.children);
      InLoopIsLooped(c, factor * t, s.children);
      Distribute(factor, PerRun(c, s.kind), t * w);
      Associate(factor, t, w);
      OneOrNone(factor, PerRun(c, s.kind));
      Products(factor, t, w);
    }
  }

  lemma Products(factor: nat, t: nat, w: nat)
    ensures factor == 0 || t == 0 ==> factor * t == 0 && factor * t * w == 0
    ensures factor == 1 ==> factor * t == t
    ensures factor > 1 && t >= 1 ==> factor * t > 1
  {
    if factor > 1 && t >= 1 {
      assert factor * t == factor + factor * (t - 1);
    }
  }

  // ------------------------------------------------------------------ loop levels

  function IsFor(k: Kind): nat { if k.For? then 1 else 0 }

  /** The number of loops. */
  function Fors(ss: seq<Stmt>): nat {
    if ss == [] then 0 else Fors(ss[..|ss|-1]) + ForsOne(ss[|ss|-1])
  }

  function ForsOne(s: Stmt): nat {
    if s.Null? then 0 else IsFor(s.kind) + Fors(s.children)
  }

  /** How deeply loops are nested. */
  function Depth(ss: seq<Stmt>): nat {
    if ss == [] then 0 else Max(Depth(ss[..|ss|-1]), DepthOne(ss[|ss|-1]))
  }

  function DepthOne(s: Stmt): nat {
    if s.Null? then 0 else IsFor(s.kind) + Depth(s.children)
  }

  /** The level reached at the end of the siblings lies between the start and one per loop. */
  lemma {:induction false} LevelBounds(ss: seq<Stmt>, level: nat)
    requires level + Fors(ss) < UINT_MOD
    ensures level <= LevelAfter(ss, level) <= level + Fors(ss)
  {
    if ss != [] {
      LevelBounds(ss[..|ss|-1], level);
    }
  }

  /** The highest level met lies between the nesting depth and the number of loops: levels are
      not lowered again after a loop, so loops side by side are counted as if nested. */
  lemma {:induction false} DeepestBounds(ss: seq<Stmt>, level: nat)
    requires level + Fors(ss) < UINT_MOD
    ensures Fors(ss) == 0 ==> Deepest(ss, level) == 0 && Depth(ss) == 0
    ensures Fors(ss) > 0 ==> level + Depth(ss) <= Deepest(ss, level) <= level + Fors(ss)
    decreases ss
  {
    if ss != [] {
      var n := |ss| - 1;
      var s := ss[n];
      DeepestBounds(ss[..n], level);
      LevelBounds(ss[..n], level);
      LevelBounds(ss, level);
      if s.Node? {
        LevelOfChildren(ss, level);
        DeepestBounds(s.children, LevelAfter(ss, level));
      }
    }
  }

  lemma LevelOfChildren(ss: seq<Stmt>, level: nat)
    requires ss != [] && ss[|ss|-1].Node? && level + Fors(ss) < UINT_MOD
    ensures var s := ss[|ss|-1];
      && LevelAfter(ss, level) + Fors(s.children) <= level + Fors(ss)
      && LevelAfter(ss, level) >= level + IsFor(s.kind)
  {
    LevelBounds(ss[..|ss|-1], level);
  }

  /** From level 0: at least the nesting depth, at most the number of loops. */
  lemma DeepestLoopLevel(ss: seq<Stmt>)
    requires Fors(ss) < UINT_MOD
    ensures Depth(ss) <= Deepest(ss, 0) <= Fors(ss)
  {
    DeepestBounds(ss, 0);
  }

  /** Room for d levels: every loop, together with the loops before it among its own siblings and
      among those of the statements around it, fits into d. */
  predicate Fits(ss: seq<Stmt>, d: nat) {
    ss == [] || (Fits(ss[..|ss|-1], d) && FitsOne(ss[|ss|-1], d, Direct(ss)))
  }

  /** The same for a statement after which n loops have been met. */
  predicate FitsOne(s: Stmt, d: nat, n: nat) {
    s.Null? || ForsOne(s) == 0 || (n <= d && Fits(s.children, d - n))
  }

  /** Loops among the siblings themselves. */
  function Direct(ss: seq<Stmt>): nat {
    if ss == [] then 0
    else Direct(ss[..|ss|-1]) + if ss[|ss|-1].Node? then IsFor(ss[|ss|-1].kind) else 0
  }

  lemma {:induction false} LevelIsDirect(ss: seq<Stmt>, level: nat)
    requires level + Fors(ss) < UINT_MOD
    ensures LevelAfter(ss, level) == level + Direct(ss) && Direct(ss) <= Fors(ss)
  {
    if ss != [] {
      LevelIsDirect(ss[..|ss|-1], level);
    }
  }

  lemma {:induction false} DeepestFits(ss: seq<Stmt>, level: nat, d: nat)
    requires level + Fors(ss) < UINT_MOD && Fors(ss) > 0
    ensures Deepest(ss, level) <= level + d <==> Fits(ss, d)
    decreases ss
  {
    var n := |ss| - 1;
    var s := ss[n];
    LevelIsDirect(ss, level);
    DeepestBounds(ss[..n], level);
    if Fors(ss[..n]) > 0 {
      DeepestFits(ss[..n], level, d);
    } else {
      NoLoopsFit(ss[..n], d);
    }
    if s.Node? {
      LevelOfChildren(ss, level);
      DeepestBounds(s.children, LevelAfter(ss, level));
      if Fors(s.children) > 0 && Direct(ss) <= d {
        DeepestFits(s.children, LevelAfter(ss, level), d - Direct(ss));
      } else {
        NoLoopsFit(s.children, if Direct(ss) <= d then d - Direct(ss) else 0);
      }
    }
  }

  lemma {:induction false} NoLoopsFit(ss: seq<Stmt>, d: nat)
    ensures Fors(ss) == 0 ==> Fits(ss, d)
  {
    if ss != [] {
      NoLoopsFit(ss[..|ss|-1], d);
    }
  }

  /** The reported level is the nesting depth exactly if every loop, counted with the loops met
      before it, fits into the nesting depth. */
  lemma DeepestIsDepth(ss: seq<Stmt>)
    requires Fors(ss) < UINT_MOD
    ensures Deepest(ss, 0) == Depth(ss) <==> Fits(ss, Depth(ss))
  {
    DeepestBounds(ss, 0);
    if Fors(ss) > 0 {
      DeepestFits(ss, 0, Depth(ss));
    } else {
      NoLoopsFit(ss, Depth(ss));
    }
  }

  /** Any number of loops side by side are as deep as they are many. */
  function SideBySide(n: nat): seq<Stmt> {
    if n == 0 then [] else SideBySide(n - 1) + [Node(For(Variable), [])]
  }

  lemma {:induction false} SideBySideLevel(n: nat)
    requires n < UINT_MOD
    ensures LevelAfter(SideBySide(n), 0) == n
  {
    if n > 0 {
      SideBySideLevel(n - 1);
      var ss := SideBySide(n);
      assert ss[..|ss|-1] == SideBySide(n - 1);
    }
  }

  lemma {:induction false} SideBySideIsDeep(n: nat)
    requires n < UINT_MOD
    ensures Deepest(SideBySide(n), 0) == n && Depth(SideBySide(n)) == if n == 0 then 0 else 1
  {
    if n > 0 {
      SideBySideIsDeep(n - 1);
      SideBySideLevel(n);
      var ss := SideBySide(n);
      assert ss[..|ss|-1] == SideBySide(n - 1);
      assert Deepest(ss[|ss|-1].children, n) == 0 && Depth(ss[|ss|-1].children) == 0;
    }
  }
}
