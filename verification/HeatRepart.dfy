/** Runs of the futurised solver on changing partitionings of one array: the data are cut,
    advanced, gathered and cut again differently. */
module HeatRepart {
  import opened Blocks
  import opened Division
  import opened HeatSerial
  import opened HeatPartitioned
  import opened Dataflow
  import opened HeatFutures

  // -------------------------------------------------------------- the operator

  /** This solver groups the coefficient as ((k*dt)/dx)*dx. */
  function RepartCoefficient(k: real, dt: real, dx: real): real
    requires dx != 0.0
  {
    k * dt / dx * dx
  }

  ghost predicate SameHeat(c: real, d: real) {
    forall l, m, r :: Heat(c, l, m, r) == Heat(d, l, m, r)
  }

  /** It is the operator of the other solvers only for a vanishing k*dt or a unit grid spacing. */
  lemma RepartOperatorAgrees(k: real, dt: real, dx: real)
    requires dx != 0.0
    ensures SameHeat(RepartCoefficient(k, dt, dx), Coefficient(k, dt, dx)) <==> k * dt == 0.0 || dx * dx == 1.0
  {
    var a, b, q := k * dt, dx * dx, Coefficient(k, dt, dx);
    if b == 0.0 {
      ZeroFactor(dx, dx);
    }
    assert RepartCoefficient(k, dt, dx) == a;
    assert q * b == a;
    CoefficientsAgree(a, b, q);
    if SameHeat(a, q) {
      assert Heat(a, 1.0, 0.0, 0.0) == a && Heat(q, 1.0, 0.0, 0.0) == q;
    }
  }

  lemma CoefficientsAgree(a: real, b: real, q: real)
    requires q * b == a && b != 0.0
    ensures a == q <==> a == 0.0 || b == 1.0
  {
    assert q * b - q * 1.0 == q * (b - 1.0);
    if a == q {
      ZeroFactor(q, b - 1.0);
    } else if a == 0.0 {
      ZeroFactor(q, b);
    }
  }

  lemma ZeroFactor(x: real, y: real)
    requires x * y == 0.0
    ensures x == 0.0 || y == 0.0
  {}

  // ----------------------------------------------------- partition count search

  /** The candidate partition counts: each divisor below the square root of nx, from the
      number of threads on, with its cofactor. */
  function Divisors(nx: nat, from: nat): (ds: seq<nat>)
    requires from >= 1
    decreases nx - from
  {
    if from * from >= nx then []
    else
      assert from < nx by { SquareBelow(from, nx); }
      (if nx % from == 0 then [from, nx / from] else []) + Divisors(nx, from + 1)
  }

  lemma SquareBelow(i: nat, n: nat)
    requires i >= 1 && i * i < n
    ensures i < n
  {
    assert i <= i * i;
  }

  /** Every candidate cuts nx points into equal non-empty partitions, at least as many as
      there are threads. */
  lemma {:induction false} DivisorsDivide(nx: nat, from: nat, d: nat)
    requires from >= 1 && d in Divisors(nx, from)
    ensures from <= d && d * (nx / d) == nx && nx / d >= 1
    ensures |Divisors(nx, from)| >= 2
    decreases nx - from
  {
    SquareBelow(from, nx);
    if nx % from == 0 && (d == from || d == nx / from) {
      PairDivides(nx, from);
    } else {
      DivisorsDivide(nx, from + 1, d);
    }
  }

  /** A divisor below the square root and its cofactor divide each other out. */
  lemma PairDivides(nx: nat, from: nat)
    requires from >= 1 && from * from < nx && nx % from == 0
    ensures var q := nx / from; from < q && from * q == nx && nx / q == from
  {
    var q := nx / from;
    assert nx == from * q;
    assert q <= from ==> from * q <= from * from;
    QuotientIs(nx, q, from);
  }

  /** The candidates are exactly the divisors below the square root and their cofactors. */
  lemma {:induction false} DivisorsExact(nx: nat, from: nat, d: nat)
    requires from >= 1
    ensures d in Divisors(nx, from) <==>
      exists k: nat {:trigger nx % k} :: from <= k && k * k < nx && nx % k == 0 && (d == k || d == nx / k)
    decreases nx - from
  {
    if from * from < nx {
      SquareBelow(from, nx);
      DivisorsExact(nx, from + 1, d);
    } else {
      forall k: nat | from <= k ensures k * k >= nx {
        assert from * from <= k * from <= k * k;
      }
    }
  }

  method FindDivisors(nx: nat, threads: nat) returns (divisors: seq<nat>)
    requires threads >= 1
    ensures divisors == Divisors(nx, threads)
  {
    divisors := [];
    var i := threads;
    while i * i < nx
      invariant i >= 1
      invariant divisors + Divisors(nx, i) == Divisors(nx, threads)
      decreases nx - i
    {
      SquareBelow(i, nx);
      ghost var found, rest := divisors, Divisors(nx, i + 1);
      if nx % i == 0 {
        assert Divisors(nx, i) == [i, nx / i] + rest;
        divisors := divisors + [i];
        divisors := divisors + [nx / i];
        assert divisors == found + [i, nx / i];
      }
      assert divisors + rest == found + Divisors(nx, i);
      i := i + 1;
    }
  }

  // ------------------------------------------------------------- one run's data

  /** This solver also accepts partitions of a single point. */
  method HeatPartAnySize(op: Operator, left: Part, middle: Part, right: Part) returns (next: Part)
    requires |left| == |middle| == |right| >= 1
    ensures next == PartStep(op, left, middle, right)
  {
    if |middle| == 1 {
      EdgeStepAt(op, left[0], middle, right[0], 0);
      next := [op(left[0], middle[0], right[0])];
    } else {
      next := FillPart(op, left[|middle|-1], middle, right[0]);
    }
  }

  /** The partitions of a later run, copied from the array of the run before. */
  method CopiedParts(data: array<real>, np: nat, nx: nat) returns (parts: array<Part>)
    requires data.Length == Points(np, nx)
    ensures fresh(parts) && parts[..] == Split(data[..], np, nx)
  {
    ghost var u := data[..];
    parts := new Part[np];
    var i := 0;
    while i != np
      invariant 0 <= i <= np
      invariant data[..] == u
      invariant forall j :: 0 <= j < i ==> parts[j] == Chunk(u, j, np, nx)
    {
      PartBounds(i, np, nx);
      assert data[Points(i, nx) .. Points(i, nx) + nx] == u[Points(i, nx) .. Points(i, nx) + nx] == Chunk(u, i, np, nx);
      parts[i] := data[Points(i, nx) .. Points(i, nx) + nx];
      i := i + 1;
    }
  }

  /** Copies one partition to its place in the array. */
  method CopyIntoArray(part: Part, data: array<real>, at: nat)
    requires at + |part| <= data.Length
    modifies data
    ensures data[..] == old(data[..])[..at] + part + old(data[..])[at + |part|..]
  {
    var i := 0;
    while i != |part|
      invariant 0 <= i <= |part|
      invariant forall j :: 0 <= j < i ==> data[at + j] == part[j]
      invariant forall j :: 0 <= j < data.Length && !(at <= j < at + i) ==> data[j] == old(data[j])
    {
      data[at + i] := part[i];
      i := i + 1;
    }
  }

  /** Gathers the partitions of a solution. */
  method Gather(solution: seq<Part>, data: array<real>, nx: nat)
    requires forall i :: 0 <= i < |solution| ==> |solution[i]| == nx
    requires data.Length == Points(|solution|, nx)
    modifies data
    ensures data[..] == Join(solution)
  {
    var p := 0;
    while p != |solution|
      invariant 0 <= p <= |solution|
      invariant Points(p, nx) <= data.Length
      invariant data[..Points(p, nx)] == Join(solution[..p])
    {
      PartBounds(p, |solution|, nx);
      CopyIntoArray(solution[p], data, Points(p, nx));
      assert solution[..p + 1][..p] == solution[..p];
      p := p + 1;
    }
    assert solution[..p] == solution;
  }

  // --------------------------------------------------------------- all the runs

  /** Schedulers that always pick an enabled step. */
  ghost predicate Scheduler(pick: (Config<Part>, nat, State<Part>) -> Step) {
    forall c: Config<Part>, n: nat, s :: c.Valid() && Inv(c, s) && !Complete(s) ==> Enabled(c, s, pick(c, n, s))
  }

  /** One run: cut, advance nt steps under some schedule, gather. */
  method RunOnce(op: Operator, data: array?<real>, parts: nat, size: nat, nt: nat,
                 pick: (Config<Part>, nat, State<Part>) -> Step) returns (gathered: array<real>)
    requires parts >= 1 && size >= 1 && Scheduler(pick)
    requires data != null ==> data.Length == Points(parts, size)
    modifies data
    ensures gathered.Length == Points(parts, size) && (data != null ==> gathered == data) && (data == null ==> fresh(gathered))
    ensures gathered[..] == SerialRun(op, if data == null then Ramp(Points(parts, size)) else old(data[..]), nt)
  {
    ghost var u := if data == null then Ramp(Points(parts, size)) else data[..];
    var init;
    if data == null {
      init := InitialLayer(parts, size);
    } else {
      init := CopiedParts(data, parts, size);
    }
    var c := Config(PartTask(op), init[..], nt, Unlimited);
    var solution := Execute(c, (n, s) => pick(c, n, s));
    RunSplit(op, u, parts, size, nt);
    ghost var v := SerialRun(op, u, nt);
    assert solution == Split(v, parts, size);
    JoinSplit(v, parts, size);
    if data == null {
      gathered := new real[Points(parts, size)];
    } else {
      gathered := data;
    }
    assert forall i :: 0 <= i < parts ==> solution[i] == Chunk(v, i, parts, size);
    Gather(solution, gathered, size);
  }

  /** For any sequence of in-range choices of the partition count and any scheduling of the
      tasks, nr runs of nt steps amount to nr*nt serial steps from the initial ramp.  Without
      a candidate partition count nothing is computed. */
  method RepartitionedRuns(op: Operator, nx: nat, nt: nat, nr: nat, threads: nat, choices: seq<nat>,
                           pick: (Config<Part>, nat, State<Part>) -> Step) returns (data: array?<real>)
    requires threads >= 1 && Scheduler(pick)
    requires |choices| == nr
    requires Divisors(nx, threads) != [] ==> forall i :: 0 <= i < nr ==> choices[i] < |Divisors(nx, threads)|
    ensures data == null <==> Divisors(nx, threads) == [] || nr == 0
    ensures data != null ==> data[..] == SerialRun(op, Ramp(nx), nr * nt)
  {
    data := null;
    var divisors := FindDivisors(nx, threads);
    if divisors == [] {
      return;
    }
    var i := 0;
    while i < nr
      invariant 0 <= i <= nr
      invariant data == null <==> i == 0
      invariant data != null ==> fresh(data) && data.Length == nx && data[..] == SerialRun(op, Ramp(nx), Points(i, nt))
    {
      var parts := divisors[choices[i]];
      DivisorsDivide(nx, threads, parts);
      var size := nx / parts;
      PointsIsProduct(parts, size);
      data := RunOnce(op, data, parts, size, nt, pick);
      SerialRunCompose(op, Ramp(nx), Points(i, nt), nt);
      i := i + 1;
    }
    PointsIsProduct(nr, nt);
  }
}
