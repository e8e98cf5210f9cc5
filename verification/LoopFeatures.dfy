/** The loop feature extraction: one traversal of a statement tree that adds up operators,
    weighted by the trip counts of the loops around them, in 32-bit counters. */
module LoopFeatures {
  import opened TripCount

  // -------------------------------------------------------------- statement trees

  /** A loop header of literals, or one with a variable in it. */
  datatype Loop = Literal(header: Header) | Variable

  /** What a variable is declared with. */
  datatype Initial = IntegerLiteral | FloatingLiteral | OtherInitial

  datatype Kind = Binary(isFloat: bool, isComparison: bool) | Unary | For(loop: Loop) | Decl(single: bool, init: Initial) | If | Call | Other

  /** A statement with its children; a child may be missing. */
  datatype Stmt = Null | Node(kind: Kind, children: seq<Stmt>)

  ghost function Turns(k: Kind): nat {
    match k
    case For(Literal(h)) => if Ends(h) then Trips(h) else 0
    case _ => 1
  }

  /** Every literal loop of the tree ends; otherwise the analysis does not either. */
  ghost predicate AllEnd(s: Stmt) {
    s.Null? || ((s.kind.For? && s.kind.loop.Literal? ==> Ends(s.kind.loop.header)) &&
                forall i :: 0 <= i < |s.children| ==> AllEnd(s.children[i]))
  }

  // ------------------------------------------------------------ what is counted

  datatype Counter = Ops | FloatOps | ComparisonOps | IfStmts | FuncCalls | IfStmtsInLoop | FuncCallsInLoop | IntVariables | FloatVariables {
    /** Counts only what is met with a factor above one. */
    predicate InLoop() { IfStmtsInLoop? || FuncCallsInLoop? }
  }

  /** What a statement adds once per execution. */
  function PerRun(c: Counter, k: Kind): nat {
    match c
    case Ops => if k.Binary? || k.Unary? then 1 else 0
    case FloatOps => if k.Binary? && k.isFloat then 1 else 0
    case ComparisonOps => if k.Binary? && k.isComparison then 1 else 0
    case IfStmts => if k.If? then 1 else 0
    case FuncCalls => if k.Call? then 1 else 0
    case IfStmtsInLoop => if k.If? then 1 else 0
    case FuncCallsInLoop => if k.Call? then 1 else 0
    case _ => 0
  }

  /** What a statement adds once, however often it is executed. */
  function Once(c: Counter, k: Kind): nat {
    match c
    case Ops => if k.For? then 2 else 0
    case ComparisonOps => if k.For? then 1 else 0
    case FuncCalls => if k.For? && k.loop.Variable? then 1 else 0
    case IntVariables => if k.Decl? && k.single && k.init.IntegerLiteral? then 1 else 0
    case FloatVariables => if k.Decl? && k.single && k.init.FloatingLiteral? then 1 else 0
    case _ => 0
  }

  /** How often statements of a kind are executed: a loop multiplies what is below it. */
  ghost function Runs(own: Kind -> nat, s: Stmt): nat {
    if s.Null? then 0 else own(s.kind) + Turns(s.kind) * RunsAll(own, s.children)
  }

  ghost function RunsAll(own: Kind -> nat, ss: seq<Stmt>): nat {
    if ss == [] then 0 else RunsAll(own, ss[..|ss|-1]) + Runs(own, ss[|ss|-1])
  }

  /** How often statements of a kind occur. */
  function Occurs(own: Kind -> nat, s: Stmt): nat {
    if s.Null? then 0 else own(s.kind) + OccursAll(own, s.children)
  }

  function OccursAll(own: Kind -> nat, ss: seq<Stmt>): nat {
    if ss == [] then 0 else OccursAll(own, ss[..|ss|-1]) + Occurs(own, ss[|ss|-1])
  }

  /** What a statement itself adds when it is met with a given factor. */
  function OwnShare(c: Counter, factor: nat, k: Kind): nat {
    (if PerRun(c, k) > 0 && (c.InLoop() ==> Wrap(factor) > 1) then factor else 0) + Once(c, k)
  }

  /** What a traversal adds that hands the product of the trip counts down the tree. */
  ghost function CountedOne(c: Counter, factor: nat, s: Stmt): nat
    decreases s
  {
    if s.Null? then 0 else OwnShare(c, factor, s.kind) + Counted(c, factor * Turns(s.kind), s.children)
  }

  ghost function Counted(c: Counter, factor: nat, ss: seq<Stmt>): nat
    decreases ss
  {
    if ss == [] then 0 else Counted(c, factor, ss[..|ss|-1]) + CountedOne(c, factor, ss[|ss|-1])
  }

  /** Handing factors down is the same as multiplying on the way up: each operator counts as
      often as it is executed, each loop itself once. */
  lemma {:induction false} CountedIsRuns(c: Counter, factor: nat, ss: seq<Stmt>)
    requires !c.InLoop()
    ensures Counted(c, factor, ss) == factor * RunsAll(k => PerRun(c, k), ss) + OccursAll(k => Once(c, k), ss)
    decreases ss
  {
    if ss != [] {
      var n := |ss| - 1;
      CountedIsRuns(c, factor, ss[..n]);
      CountedOneIsRuns(c, factor, ss[n]);
      Distribute(factor, RunsAll(k => PerRun(c, k), ss[..n]), Runs(k => PerRun(c, k), ss[n]));
    }
  }

  lemma {:induction false} CountedOneIsRuns(c: Counter, factor: nat, s: Stmt)
    requires !c.InLoop()
    ensures CountedOne(c, factor, s) == factor * Runs(k => PerRun(c, k), s) + Occurs(k => Once(c, k), s)
    decreases s
  {
    if s.Node? {
      CountedIsRuns(c, factor * Turns(s.kind), s.children);
      var w := RunsAll(k => PerRun(c, k), s.children);
      Distribute(factor, PerRun(c, s.kind), Turns(s.kind) * w);
      Associate(factor, Turns(s.kind), w);
      OneOrNone(factor, PerRun(c, s.kind));
    }
  }

  lemma Distribute(f: nat, a: nat, b: nat)
    ensures f * (a + b) == f * a + f * b
  {}

  lemma Associate(f: nat, a: nat, b: nat)
    ensures f * (a * b) == f * a * b
  {}

  lemma OneOrNone(f: nat, a: nat)
    requires a <= 1
    ensures f * a == if a > 0 then f else 0
  {}

  // ------------------------------------------------------------- wrapping around

  function Wrap(x: int): (r: nat)
    ensures r < UINT_MOD
  {
    x % UINT_MOD
  }

  lemma WrapAgain(a: nat, b: nat)
    ensures Wrap(Wrap(a) + b) == Wrap(a + b)
  {}

  lemma WrapTurns(a: nat, j: nat)
    ensures Wrap(a + j * UINT_MOD) == Wrap(a)
  {}

  lemma WrapSum(a: nat, a': nat, b: nat, b': nat)
    requires Wrap(a) == Wrap(a') && Wrap(b) == Wrap(b')
    ensures Wrap(a + b) == Wrap(a' + b')
  {
    WrapAgain(a, b);
    WrapAgain(b, Wrap(a));
    WrapAgain(a', b');
    WrapAgain(b', Wrap(a'));
  }

  lemma SplitProduct(r: nat, q: nat, m: nat, w: nat)
    ensures (r + q * m) * w == r * w + q * w * m
  {
    assert (r + q * m) * w == r * w + q * m * w;
    assert q * m * w == q * w * m;
  }

  /** A factor may be reduced before it is multiplied. */
  lemma WrapFactor(x: nat, w: nat)
    ensures Wrap(Wrap(x) * w) == Wrap(x * w)
  {
    var r, q := Wrap(x), x / UINT_MOD;
    assert x == r + q * UINT_MOD;
    SplitProduct(r, q, UINT_MOD, w);
    WrapTurns(r * w, q * w);
  }

  /** Factors that are equal modulo 2^32 count the same modulo 2^32, also for the counters that
      look at the reduced factor. */
  lemma {:induction false} CountedCongruent(c: Counter, a: nat, b: nat, ss: seq<Stmt>)
    requires Wrap(a) == Wrap(b)
    ensures Wrap(Counted(c, a, ss)) == Wrap(Counted(c, b, ss))
    decreases ss
  {
    if ss != [] {
      var n := |ss| - 1;
      CountedCongruent(c, a, b, ss[..n]);
      CountedOneCongruent(c, a, b, ss[n]);
      WrapSum(Counted(c, a, ss[..n]), Counted(c, b, ss[..n]), CountedOne(c, a, ss[n]), CountedOne(c, b, ss[n]));
    }
  }

  lemma {:induction false} CountedOneCongruent(c: Counter, a: nat, b: nat, s: Stmt)
    requires Wrap(a) == Wrap(b)
    ensures Wrap(CountedOne(c, a, s)) == Wrap(CountedOne(c, b, s))
    decreases s
  {
    if s.Node? {
      var t := Turns(s.kind);
      WrapFactor(a, t);
      WrapFactor(b, t);
      CountedCongruent(c, a * t, b * t, s.children);
      WrapSum(OwnShare(c, a, s.kind), OwnShare(c, b, s.kind), Counted(c, a * t, s.children), Counted(c, b * t, s.children));
    }
  }

  /** A traversal may hand down reduced factors. */
  lemma CountedWraps(c: Counter, v: nat, factor: nat, ss: seq<Stmt>)
    ensures Wrap(v + Counted(c, Wrap(factor), ss)) == Wrap(v + Counted(c, factor, ss))
  {
    CountedCongruent(c, Wrap(factor), factor, ss);
    WrapSum(v, v, Counted(c, Wrap(factor), ss), Counted(c, factor, ss));
  }

  // --------------------------------------------------------- all counters together

  /** The counters at one moment. */
  datatype Tally = Tally(ops: nat, floatOps: nat, comparisonOps: nat, ifStmts: nat, funcCalls: nat,
                         ifStmtsInLoop: nat, funcCallsInLoop: nat, intVariables: nat, floatVariables: nat)
  {
    function Get(c: Counter): nat {
      match c
      case Ops => ops case FloatOps => floatOps case ComparisonOps => comparisonOps
      case IfStmts => ifStmts case FuncCalls => funcCalls
      case IfStmtsInLoop => ifStmtsInLoop case FuncCallsInLoop => funcCallsInLoop
      case IntVariables => intVariables case FloatVariables => floatVariables
    }
  }

  /** All counters have grown by what some statements count. */
  ghost predicate Grown(before: Tally, after: Tally, factor: nat, ss: seq<Stmt>) {
    forall c :: after.Get(c) == Wrap(before.Get(c) + Counted(c, factor, ss))
  }

  ghost predicate GrownByOne(before: Tally, after: Tally, factor: nat, s: Stmt) {
    forall c :: after.Get(c) == Wrap(before.Get(c) + CountedOne(c, factor, s))
  }

  lemma GrownStep(a: Tally, b: Tally, c: Tally, factor: nat, ss: seq<Stmt>, i: nat)
    requires i < |ss| && Grown(a, b, factor, ss[..i]) && GrownByOne(b, c, factor, ss[i])
    ensures Grown(a, c, factor, ss[..i + 1])
  {
    assert ss[..i + 1][..i] == ss[..i];
    forall x: Counter ensures c.Get(x) == Wrap(a.Get(x) + Counted(x, factor, ss[..i + 1])) {
      WrapAgain(a.Get(x) + Counted(x, factor, ss[..i]), CountedOne(x, factor, ss[i]));
    }
  }

  lemma GrownByNone(a: Tally, factor: nat)
    requires forall c :: a.Get(c) < UINT_MOD
    ensures Grown(a, a, factor, []) && GrownByOne(a, a, factor, Null)
  {}

  lemma GrownNode(a: Tally, b: Tally, c: Tally, factor: nat, s: Stmt)
    requires s.Node? && forall x :: b.Get(x) == Wrap(a.Get(x) + OwnShare(x, factor, s.kind))
    requires Grown(b, c, Wrap(factor * Turns(s.kind)), s.children)
    ensures GrownByOne(a, c, factor, s)
  {
    forall x: Counter ensures c.Get(x) == Wrap(a.Get(x) + CountedOne(x, factor, s)) {
      var inner := factor * Turns(s.kind);
      CountedWraps(x, b.Get(x), inner, s.children);
      WrapAgain(a.Get(x) + OwnShare(x, factor, s.kind), Counted(x, inner, s.children));
    }
  }

  // ------------------------------------------------------------------ loop levels

  function Max(a: nat, b: nat): nat { if a > b then a else b }

  /** The level is raised by every loop met among the siblings, and not lowered again. */
  function LevelAfter(ss: seq<Stmt>, level: nat): nat {
    if ss == [] then level
    else
      var before, s := LevelAfter(ss[..|ss|-1], level), ss[|ss|-1];
      if s.Node? && s.kind.For? then Wrap(before + 1) else before
  }

  /** The highest level met. */
  function Deepest(ss: seq<Stmt>, level: nat): nat {
    if ss == [] then 0
    else
      var s, l := ss[|ss|-1], LevelAfter(ss, level);
      var here := if s.Null? then 0 else Max(if s.kind.For? then l else 0, Deepest(s.children, l));
      Max(Deepest(ss[..|ss|-1], level), here)
  }

  // ------------------------------------------------------------------ the analysis

  class Statistics {
    var numOps: nat
    var numFloatOps: nat
    var numComparisonOps: nat
    var deepestLoopLevel: nat
    var numIfStmts: nat
    var numFuncCalls: nat
    var numIfStmtsInLoop: nat
    var numFuncCallsInLoop: nat
    var numIntVariables: nat
    var numFloatVariables: nat

    constructor ()
      ensures deepestLoopLevel == 0 && forall c :: Counts().Get(c) == 0
    {
      numOps, numFloatOps, numComparisonOps, deepestLoopLevel, numIfStmts, numFuncCalls := 0, 0, 0, 0, 0, 0;
      numIfStmtsInLoop, numFuncCallsInLoop, numIntVariables, numFloatVariables := 0, 0, 0, 0;
    }

    function Counts(): Tally
      reads this
    {
      Tally(numOps, numFloatOps, numComparisonOps, numIfStmts, numFuncCalls,
            numIfStmtsInLoop, numFuncCallsInLoop, numIntVariables, numFloatVariables)
    }

    ghost predicate InRange()
      reads this
    {
      forall c :: Counts().Get(c) < UINT_MOD
    }

    method AnalyzeBinaryOperator(isFloat: bool, isComparison: bool, factor: nat)
      requires InRange()
      modifies this`numOps, this`numFloatOps, this`numComparisonOps
      ensures forall c :: Counts().Get(c) == Wrap(old(Counts()).Get(c) + OwnShare(c, factor, Binary(isFloat, isComparison)))
    {
      numOps := Wrap(numOps + factor);
      if isFloat {
        numFloatOps := Wrap(numFloatOps + factor);
      }
      if isComparison {
        numComparisonOps := Wrap(numComparisonOps + factor);
      }
    }

    method AnalyzeUnaryOperator(factor: nat)
      requires InRange()
      modifies this`numOps
      ensures forall c :: Counts().Get(c) == Wrap(old(Counts()).Get(c) + OwnShare(c, factor, Unary))
    {
      numOps := Wrap(numOps + factor);
    }

    method AnalyzeDeclStatement(single: bool, init: Initial, factor: nat)
      requires InRange()
      modifies this`numIntVariables, this`numFloatVariables
      ensures forall c :: Counts().Get(c) == Wrap(old(Counts()).Get(c) + OwnShare(c, factor, Decl(single, init)))
    {
      if single {
        if init.IntegerLiteral? {
          numIntVariables := Wrap(numIntVariables + 1);
        } else if init.FloatingLiteral? {
          numFloatVariables := Wrap(numFloatVariables + 1);
        }
      }
    }

    method AnalyzeForLoop(loop: Loop) returns (trips: nat)
      requires loop.Literal? ==> Ends(loop.header)
      modifies this`numOps, this`numComparisonOps, this`numFuncCalls
      ensures trips == Wrap(Turns(For(loop)))
      ensures forall c :: Counts().Get(c) == if Once(c, For(loop)) > 0 then Wrap(old(Counts()).Get(c) + Once(c, For(loop))) else old(Counts()).Get(c)
    {
      numComparisonOps := Wrap(numComparisonOps + 1);
      numOps := Wrap(numOps + 2);
      if loop.Variable? {
        numFuncCalls := Wrap(numFuncCalls + 1);
        return 1;
      }
      trips := CountIterations(loop.header);
    }

    method VisitFor(loop: Loop, factor: nat) returns (inner: nat)
      requires loop.Literal? ==> Ends(loop.header)
      requires InRange()
      modifies this`numOps, this`numComparisonOps, this`numFuncCalls
      ensures inner == Wrap(factor * Turns(For(loop)))
      ensures forall c :: Counts().Get(c) == Wrap(old(Counts()).Get(c) + OwnShare(c, factor, For(loop)))
    {
      var trips := AnalyzeForLoop(loop);
      WrapFactor(Turns(For(loop)), factor);
      inner := Wrap(trips * factor);
    }

    method VisitIf(factor: nat)
      requires InRange() && factor < UINT_MOD
      modifies this`numIfStmts, this`numIfStmtsInLoop
      ensures forall c :: Counts().Get(c) == Wrap(old(Counts()).Get(c) + OwnShare(c, factor, If))
    {
      numIfStmts := Wrap(numIfStmts + factor);
      if factor > 1 {
        numIfStmtsInLoop := Wrap(numIfStmtsInLoop + factor);
      }
    }

    method VisitCall(factor: nat)
      requires InRange() && factor < UINT_MOD
      modifies this`numFuncCalls, this`numFuncCallsInLoop
      ensures forall c :: Counts().Get(c) == Wrap(old(Counts()).Get(c) + OwnShare(c, factor, Call))
    {
      numFuncCalls := Wrap(numFuncCalls + factor);
      if factor > 1 {
        numFuncCallsInLoop := Wrap(numFuncCallsInLoop + factor);
      }
    }

    /** One statement, without its children. */
    method Visit(kind: Kind, factor: nat, level: nat) returns (inner: nat, innerLevel: nat)
      requires InRange() && factor < UINT_MOD
      requires kind.For? && kind.loop.Literal? ==> Ends(kind.loop.header)
      modifies this
      ensures forall c :: Counts().Get(c) == Wrap(old(Counts()).Get(c) + OwnShare(c, factor, kind))
      ensures InRange()
      ensures inner == Wrap(factor * Turns(kind))
      ensures innerLevel == if kind.For? then Wrap(level + 1) else level
      ensures deepestLoopLevel == Max(old(deepestLoopLevel), if kind.For? then innerLevel else 0)
    {
      inner, innerLevel := factor, level;
      match kind
      case Binary(isFloat, isComparison) => AnalyzeBinaryOperator(isFloat, isComparison, factor);
      case Unary => AnalyzeUnaryOperator(factor);
      case For(loop) =>
        inner := VisitFor(loop, factor);
        innerLevel := Wrap(level + 1);
        deepestLoopLevel := Max(deepestLoopLevel, innerLevel);
      case Decl(single, init) => AnalyzeDeclStatement(single, init, factor);
      case If => VisitIf(factor);
      case Call => VisitCall(factor);
      case Other =>
    }

    /** One child, with everything below it; a missing child counts nothing. */
    method AnalyzeChild(child: Stmt, factor: nat, level: nat) returns (childLevel: nat)
      requires AllEnd(child) && InRange() && factor < UINT_MOD
      modifies this
      ensures InRange() && GrownByOne(old(Counts()), Counts(), factor, child)
      ensures childLevel == if child.Node? && child.kind.For? then Wrap(level + 1) else level
      ensures deepestLoopLevel == Max(old(deepestLoopLevel), if child.Null? then 0 else
        Max(if child.kind.For? then childLevel else 0, Deepest(child.children, childLevel)))
      decreases child, 1
    {
      childLevel := level;
      if child.Null? {
        GrownByNone(Counts(), factor);
        return;
      }
      var inner;
      inner, childLevel := Visit(child.kind, factor, level);
      ghost var met := Counts();
      AnalyzeStatement(child, inner, childLevel);
      GrownNode(old(Counts()), met, Counts(), factor, child);
    }

    /** The traversal: every counter grows by what the tree below the statement counts, modulo
        2^32, and the deepest level is raised to the highest one met. */
    method AnalyzeStatement(s: Stmt, factor: nat, level: nat)
      requires s.Node? && AllEnd(s) && InRange() && factor < UINT_MOD
      modifies this
      ensures InRange() && Grown(old(Counts()), Counts(), factor, s.children)
      ensures deepestLoopLevel == Max(old(deepestLoopLevel), Deepest(s.children, level))
      decreases s, 0
    {
      var loopLevel := level;
      GrownByNone(Counts(), factor);
      for i := 0 to |s.children|
        invariant InRange() && loopLevel == LevelAfter(s.children[..i], level)
        invariant Grown(old(Counts()), Counts(), factor, s.children[..i])
        invariant deepestLoopLevel == Max(old(deepestLoopLevel), Deepest(s.children[..i], level))
      {
        assert s.children[..i + 1][..i] == s.children[..i];
        ghost var sofar := Counts();
        loopLevel := AnalyzeChild(s.children[i], factor, loopLevel);
        GrownStep(old(Counts()), sofar, Counts(), factor, s.children, i);
      }
      assert s.children[..|s.children|] == s.children;
    }
  }
}
