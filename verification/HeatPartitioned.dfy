/** The ring of np*nx points cut into np partitions of nx points each: the partitioned
    operator, proved to commute with one serial step. */
module HeatPartitioned {
  import opened Blocks
  import opened HeatSerial

  type Part = seq<real>

  // ---------------------------------------------------- the partitioned operator

  /** The operator on all points of a partition, given the two points next to it. */
  function EdgeStep(op: Operator, before: real, middle: Part, after: real): (next: Part)
    requires |middle| >= 1
    ensures |next| == |middle|
  {
    var size := |middle|;
    seq(size, j requires 0 <= j < size =>
      op(if j == 0 then before else middle[j-1], middle[j], if j == size - 1 then after else middle[j+1]))
  }

  lemma EdgeStepAt(op: Operator, before: real, middle: Part, after: real, j: nat)
    requires j < |middle|
    ensures EdgeStep(op, before, middle, after)[j]
         == op(if j == 0 then before else middle[j-1], middle[j], if j == |middle| - 1 then after else middle[j+1])
  {}

  /** Of its neighbours a partition uses only the adjacent boundary points. */
  function PartStep(op: Operator, left: Part, middle: Part, right: Part): (next: Part)
    requires |left| == |middle| == |right| >= 1
    ensures |next| == |middle|
  {
    EdgeStep(op, left[|middle|-1], middle, right[0])
  }

  /** The left neighbour of point j of partition i, seen from the ring. */
  lemma LeftNeighbour(u: seq<real>, i: nat, j: nat, np: nat, nx: nat)
    requires i < np && j < nx && |u| == Points(np, nx)
    ensures Points(i, nx) + j < |u|
    ensures u[Idx(Points(i, nx) + j, -1, |u|)]
         == if j == 0 then Chunk(u, Idx(i, -1, np), np, nx)[nx-1] else Chunk(u, i, np, nx)[j-1]
  {
    PartBounds(i, np, nx);
    PartBounds(np - 1, np, nx);
    if j == 0 && i != 0 {
      PartBounds(i - 1, np, nx);
    }
  }

  lemma RightNeighbour(u: seq<real>, i: nat, j: nat, np: nat, nx: nat)
    requires i < np && j < nx && |u| == Points(np, nx)
    ensures Points(i, nx) + j < |u|
    ensures u[Idx(Points(i, nx) + j, 1, |u|)]
         == if j == nx - 1 then Chunk(u, Idx(i, 1, np), np, nx)[0] else Chunk(u, i, np, nx)[j+1]
  {
    PartBounds(i, np, nx);
    if j == nx - 1 {
      if i == np - 1 {
        assert Idx(Points(i, nx) + j, 1, |u|) == 0;
        assert Chunk(u, 0, np, nx)[0] == u[0];
      } else {
        PartBounds(i + 1, np, nx);
      }
    }
  }

  /** The next value of point j of partition i, in terms of partitions. */
  lemma RingPoint(op: Operator, u: seq<real>, i: nat, j: nat, np: nat, nx: nat)
    requires i < np && j < nx && |u| == Points(np, nx)
    ensures Points(i, nx) + j < |u|
    ensures SerialStep(op, u)[Points(i, nx) + j]
         == op(if j == 0 then Chunk(u, Idx(i, -1, np), np, nx)[nx-1] else Chunk(u, i, np, nx)[j-1],
               Chunk(u, i, np, nx)[j],
               if j == nx - 1 then Chunk(u, Idx(i, 1, np), np, nx)[0] else Chunk(u, i, np, nx)[j+1])
  {
    PartBounds(i, np, nx);
    LeftNeighbour(u, i, j, np, nx);
    RightNeighbour(u, i, j, np, nx);
    StepAt(op, u, Points(i, nx) + j);
  }

  lemma PointStep(op: Operator, u: seq<real>, i: nat, j: nat, np: nat, nx: nat)
    requires i < np && j < nx && |u| == Points(np, nx)
    ensures PartStep(op, Chunk(u, Idx(i, -1, np), np, nx), Chunk(u, i, np, nx), Chunk(u, Idx(i, 1, np), np, nx))[j]
         == Chunk(SerialStep(op, u), i, np, nx)[j]
  {
    RingPoint(op, u, i, j, np, nx);
    ChunkAt(SerialStep(op, u), i, j, np, nx);
    EdgeStepAt(op, Chunk(u, Idx(i, -1, np), np, nx)[nx-1], Chunk(u, i, np, nx), Chunk(u, Idx(i, 1, np), np, nx)[0], j);
  }

  /** The partitioned operator on a partition and its two cyclic neighbours yields
      exactly that partition of the next serial state. */
  lemma PartStepIsSerialStep(op: Operator, u: seq<real>, i: nat, np: nat, nx: nat)
    requires i < np && nx >= 1 && |u| == Points(np, nx)
    ensures PartStep(op, Chunk(u, Idx(i, -1, np), np, nx), Chunk(u, i, np, nx), Chunk(u, Idx(i, 1, np), np, nx))
         == Chunk(SerialStep(op, u), i, np, nx)
  {
    forall j | 0 <= j < nx
      ensures PartStep(op, Chunk(u, Idx(i, -1, np), np, nx), Chunk(u, i, np, nx), Chunk(u, Idx(i, 1, np), np, nx))[j]
           == Chunk(SerialStep(op, u), i, np, nx)[j]
    {
      PointStep(op, u, i, j, np, nx);
    }
  }

  // ------------------------------------------------------------------ the code

  /** The initial data of partition i: `i * size` plus the local index. */
  method InitialPart(size: nat, initialValue: real) returns (data: array<real>)
    ensures data.Length == size
    ensures forall j :: 0 <= j < size ==> data[j] == initialValue * size as real + j as real
  {
    data := new real[size];
    var base := initialValue * size as real;
    var i := 0;
    while i != size
      invariant 0 <= i <= size
      invariant forall j :: 0 <= j < i ==> data[j] == base + j as real
    {
      data[i] := base + i as real;
      i := i + 1;
    }
  }

  /** The partition initialised with value i is partition i of the ramp. */
  lemma RampPart(p: Part, i: nat, np: nat, nx: nat)
    requires i < np && |p| == nx
    requires forall j :: 0 <= j < nx ==> p[j] == i as real * nx as real + j as real
    ensures p == Chunk(Ramp(Points(np, nx)), i, np, nx)
  {
    PartBounds(i, np, nx);
    forall j | 0 <= j < nx ensures p[j] == Chunk(Ramp(Points(np, nx)), i, np, nx)[j] {
      PointsIsProduct(i, nx);
      assert i as real * nx as real == (i * nx) as real;
    }
  }

  /** The partitions of the initial ramp. */
  method InitialLayer(np: nat, nx: nat) returns (parts: array<Part>)
    ensures fresh(parts) && parts[..] == Split(Ramp(Points(np, nx)), np, nx)
  {
    ghost var u := Ramp(Points(np, nx));
    parts := new Part[np];
    var i := 0;
    while i != np
      invariant 0 <= i <= np
      invariant forall j :: 0 <= j < i ==> parts[j] == Chunk(u, j, np, nx)
    {
      var p := InitialPart(nx, i as real);
      RampPart(p[..], i, np, nx);
      parts[i] := p[..];
      i := i + 1;
    }
  }

  /** Fills the next state of a partition; both ends are treated apart, as the ring ends
      are in the serial form. */
  method FillPart(op: Operator, before: real, middle: Part, after: real) returns (next: Part)
    requires |middle| >= 2
    ensures next == EdgeStep(op, before, middle, after)
  {
    var size := |middle|;
    var data := new real[size];
    ghost var target := EdgeStep(op, before, middle, after);
    EdgeStepAt(op, before, middle, after, 0);
    data[0] := op(before, middle[0], middle[1]);
    var i := 1;
    while i != size - 1
      invariant 1 <= i <= size - 1
      invariant forall j :: 0 <= j < i ==> data[j] == target[j]
    {
      data[i] := op(middle[i-1], middle[i], middle[i+1]);
      assert data[i] == target[i] by { EdgeStepAt(op, before, middle, after, i); }
      i := i + 1;
    }
    EdgeStepAt(op, before, middle, after, size - 1);
    data[size-1] := op(middle[size-2], middle[size-1], after);
    next := data[..];
  }

  method HeatPart(op: Operator, left: Part, middle: Part, right: Part) returns (next: Part)
    requires |left| == |middle| == |right| >= 2
    ensures next == PartStep(op, left, middle, right)
  {
    next := FillPart(op, left[|middle|-1], middle, right[0]);
  }

  /** One time step over all partitions, in index order. */
  method StepLayer(op: Operator, current: array<Part>, next: array<Part>, ghost u: seq<real>, nx: nat)
    requires current != next && current.Length == next.Length && nx >= 2
    requires |u| == Points(current.Length, nx)
    requires current[..] == Split(u, current.Length, nx)
    modifies next
    ensures next[..] == Split(SerialStep(op, u), current.Length, nx)
  {
    var np := current.Length;
    var i := 0;
    while i != np
      invariant 0 <= i <= np
      invariant current[..] == Split(u, np, nx)
      invariant forall j :: 0 <= j < i ==> next[j] == Chunk(SerialStep(op, u), j, np, nx)
    {
      assert forall j :: 0 <= j < np ==> current[j] == current[..][j] == Chunk(u, j, np, nx);
      next[i] := HeatPart(op, current[Idx(i, -1, np)], current[i], current[Idx(i, 1, np)]);
      PartStepIsSerialStep(op, u, i, np, nx);
      i := i + 1;
    }
  }

  /** The serial loop over partitions, with two layers of partitions that swap roles. */
  method DoWork(op: Operator, np: nat, nx: nat, nt: nat) returns (solution: array<Part>)
    requires nx >= 2 || nt == 0
    ensures solution[..] == Split(SerialRun(op, Ramp(Points(np, nx)), nt), np, nx)
    ensures Join(solution[..]) == SerialRun(op, Ramp(Points(np, nx)), nt)
  {
    var u0 := InitialLayer(np, nx);
    var u1 := new Part[np];
    ghost var ramp := Ramp(Points(np, nx));
    var t := 0;
    while t != nt
      invariant 0 <= t <= nt
      invariant (if t % 2 == 0 then u0 else u1)[..] == Split(SerialRun(op, ramp, t), np, nx)
    {
      var current := if t % 2 == 0 then u0 else u1;
      var next := if (t + 1) % 2 == 0 then u0 else u1;
      StepLayer(op, current, next, SerialRun(op, ramp, t), nx);
      t := t + 1;
    }
    solution := if nt % 2 == 0 then u0 else u1;
    JoinSplit(SerialRun(op, ramp, nt), np, nx);
  }
}
