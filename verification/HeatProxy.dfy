/** The distributed solver: neighbours are read through one-element proxies, and
    partitions are placed on localities in blocks. */
module HeatProxy {
  import opened Blocks
  import opened Division
  import opened HeatSerial
  import opened HeatPartitioned
  import opened Dataflow

  /** A partition of `size` points of which the buffer holds those from `minIndex` on. */
  datatype PartitionData = PartitionData(data: seq<real>, size: nat, minIndex: nat) {
    predicate Full() {
      minIndex == 0 && |data| == size
    }
    /** The index passes the assertion of the accessor and stays inside the buffer. */
    predicate Readable(idx: nat) {
      minIndex <= idx < size && idx - minIndex < |data|
    }
    function At(idx: nat): real
      requires Readable(idx)
    {
      data[idx - minIndex]
    }
  }

  datatype PartitionType = LeftPartition | MiddlePartition | RightPartition

  function Proxy(base: PartitionData, minIndex: nat): PartitionData
    requires base.Full() && minIndex < base.size
  {
    PartitionData([base.data[minIndex]], base.size, minIndex)
  }

  function GetData(server: PartitionData, t: PartitionType): PartitionData
    requires server.Full() && server.size >= 1
  {
    match t
    case LeftPartition => Proxy(server, server.size - 1)
    case MiddlePartition => server
    case RightPartition => Proxy(server, 0)
  }

  /** A proxy gives access to the one boundary point its user needs, and to no other. */
  lemma ProxyReads(server: PartitionData, idx: nat)
    requires server.Full() && server.size >= 1
    ensures GetData(server, LeftPartition).Readable(idx) <==> idx == server.size - 1
    ensures GetData(server, RightPartition).Readable(idx) <==> idx == 0
    ensures GetData(server, LeftPartition).At(server.size - 1) == server.At(server.size - 1)
    ensures GetData(server, RightPartition).At(0) == server.At(0)
  {}

  /** The accesses the partitioned operator makes are all inside the buffers. */
  predicate Accessible(left: PartitionData, middle: PartitionData, right: PartitionData) {
    middle.Full() && middle.size >= 2 && left.Readable(middle.size - 1) && right.Readable(0)
  }

  function StepData(op: Operator, left: PartitionData, middle: PartitionData, right: PartitionData): (next: PartitionData)
    requires Accessible(left, middle, right)
    ensures next.Full() && next.size == middle.size
  {
    PartitionData(EdgeStep(op, left.At(middle.size - 1), middle.data, right.At(0)), middle.size, 0)
  }

  /** The partitioned operator through the accessors of possibly partial buffers. */
  method HeatPartData(op: Operator, left: PartitionData, middle: PartitionData, right: PartitionData)
    returns (next: PartitionData)
    requires Accessible(left, middle, right)
    ensures next == StepData(op, left, middle, right)
  {
    var next' := FillPart(op, left.At(middle.size - 1), middle.data, right.At(0));
    next := PartitionData(next', middle.size, 0);
  }

  /** Reading the neighbours through proxies is safe and changes nothing: the result is the
      one computed from the full neighbour partitions. */
  lemma ProxyRefinement(op: Operator, l: PartitionData, m: PartitionData, r: PartitionData)
    requires l.Full() && m.Full() && r.Full() && l.size == m.size == r.size >= 2
    ensures Accessible(GetData(l, LeftPartition), GetData(m, MiddlePartition), GetData(r, RightPartition))
    ensures Accessible(l, m, r)
    ensures StepData(op, GetData(l, LeftPartition), GetData(m, MiddlePartition), GetData(r, RightPartition))
         == StepData(op, l, m, r)
         == PartitionData(PartStep(op, l.data, m.data, r.data), m.size, 0)
  {
    ProxyReads(l, l.size - 1);
    ProxyReads(r, 0);
  }

  // ----------------------------------------------------------------- placement

  function LocIdx(i: nat, np: nat, nl: nat): nat
    requires np >= nl >= 1
  {
    assert np / nl >= 1 by { QuotientPositive(np, nl); }
    i / (np / nl)
  }

  lemma QuotientPositive(np: nat, nl: nat)
    requires np >= nl >= 1
    ensures np / nl >= 1
  {}

  /** Every partition is sent to an existing locality exactly when the number of localities
      divides the number of partitions. */
  lemma PlacementValid(np: nat, nl: nat)
    requires np >= nl >= 1
    ensures (forall i: nat :: i < np ==> LocIdx(i, np, nl) < nl) <==> np % nl == 0
  {
    var b := np / nl;
    QuotientPositive(np, nl);
    assert np == nl * b + np % nl;
    if np % nl == 0 {
      forall i: nat | i < np ensures LocIdx(i, np, nl) < nl {
        var k := i / b;
        QuotientIs(i, b, k);
        MultipleGap(nl, k, b);
      }
    } else {
      QuotientIs(nl * b, b, nl);
      assert LocIdx(nl * b, np, nl) == nl;
    }
  }

  /** Then locality k owns the contiguous block of np/nl partitions starting at k*(np/nl). */
  lemma PlacementBlocks(np: nat, nl: nat, i: nat, k: nat)
    requires np >= nl >= 1 && np % nl == 0 && i < np && k < nl
    ensures LocIdx(i, np, nl) == k <==> k * (np / nl) <= i < k * (np / nl) + np / nl
    ensures k * (np / nl) + np / nl <= np
  {
    QuotientPositive(np, nl);
    var b := np / nl;
    QuotientIs(i, b, k);
    assert np == nl * b;
    assert k * b + b == (k + 1) * b <= nl * b;
  }

  // ---------------------------------------------------------- distributed runs

  /** A partition and the locality it lives on. */
  datatype Server = Server(loc: nat, part: PartitionData)

  /** What the remote action makes from three partition servers: a partition on the locality of
      the middle one. */
  function RemoteTask(op: Operator): (Server, Server, Server) -> Server {
    (l: Server, m: Server, r: Server) =>
      if l.part.Full() && m.part.Full() && r.part.Full() && l.part.size == m.part.size == r.part.size >= 2 then
        (ProxyRefinement(op, l.part, m.part, r.part);
         Server(m.loc, StepData(op, GetData(l.part, LeftPartition), GetData(m.part, MiddlePartition), GetData(r.part, RightPartition))))
      else Server(m.loc, PartitionData([], 0, 0))
  }

  /** Full partitions holding the given data, placed on nl localities. */
  function Servers(ps: seq<Part>, nl: nat): (ds: seq<Server>)
    requires |ps| >= nl >= 1
    ensures |ds| == |ps|
  {
    seq(|ps|, i requires 0 <= i < |ps| => Server(LocIdx(i, |ps|, nl), PartitionData(ps[i], |ps[i]|, 0)))
  }

  function Distributed(op: Operator, u: seq<real>, np: nat, nx: nat, nt: nat, nl: nat): Config<Server>
    requires |u| == Points(np, nx) && np >= nl >= 1
  {
    Config(RemoteTask(op), Servers(Split(u, np, nx), nl), nt, Unlimited)
  }

  lemma RemoteStep(op: Operator, u: seq<real>, np: nat, nx: nat, nl: nat)
    requires |u| == Points(np, nx) && nx >= 2 && np >= nl >= 1
    ensures SerialStep(RemoteTask(op), Servers(Split(u, np, nx), nl)) == Servers(Split(SerialStep(op, u), np, nx), nl)
  {
    var ds := Servers(Split(u, np, nx), nl);
    forall i | 0 <= i < np
      ensures SerialStep(RemoteTask(op), ds)[i] == Server(LocIdx(i, np, nl), PartitionData(Chunk(SerialStep(op, u), i, np, nx), nx, 0))
    {
      StepAt(RemoteTask(op), ds, i);
      ProxyRefinement(op, ds[Idx(i, -1, np)].part, ds[i].part, ds[Idx(i, 1, np)].part);
      PartStepIsSerialStep(op, u, i, np, nx);
    }
  }

  lemma {:induction false} RemoteRun(op: Operator, u: seq<real>, np: nat, nx: nat, t: nat, nl: nat)
    requires |u| == Points(np, nx) && nx >= 2 && np >= nl >= 1
    ensures SerialRun(RemoteTask(op), Servers(Split(u, np, nx), nl), t) == Servers(Split(SerialRun(op, u, t), np, nx), nl)
  {
    if t > 0 {
      RemoteRun(op, u, np, nx, t - 1, nl);
      RemoteStep(op, SerialRun(op, u, t - 1), np, nx, nl);
    }
  }

  /** In every schedule each finished partition holds its part of the serial solution and lives on
      the locality that `locidx` names, where the action on it is run; that locality exists for
      all partitions exactly if the number of localities divides the number of partitions. */
  lemma ActionsAreLocal(op: Operator, u: seq<real>, np: nat, nx: nat, nt: nat, nl: nat, schedule: seq<Step>, id: Id)
    requires |u| == Points(np, nx) && np >= nl >= 1 && nx >= 2
    requires var c := Distributed(op, u, np, nx, nt, nl); Run(c, schedule).Some? && Run(c, schedule).value.Ready(id)
    ensures var s := Run(Distributed(op, u, np, nx, nt, nl), schedule).value;
      && id.part < np
      && s.Value(id) == Server(LocIdx(id.part, np, nl), PartitionData(Chunk(SerialRun(op, u, id.layer), id.part, np, nx), nx, 0))
      && (np % nl == 0 ==> s.Value(id).loc < nl)
  {
    var c := Distributed(op, u, np, nx, nt, nl);
    RunInv(c, schedule);
    assert FutureOk(c, Run(c, schedule).value, id);
    RemoteRun(op, u, np, nx, id.layer, nl);
    PlacementValid(np, nl);
  }

  /** Whole distributed runs end with the serial solution on its localities, whatever the order of
      the remote tasks, if every partition has a locality. */
  lemma DistributedRefinesSerial(op: Operator, u: seq<real>, np: nat, nx: nat, nt: nat, nl: nat, schedule: seq<Step>)
    requires |u| == Points(np, nx) && nx >= 2 && np >= nl >= 1 && forall i: nat :: i < np ==> LocIdx(i, np, nl) < nl
    requires var c := Distributed(op, u, np, nx, nt, nl); Run(c, schedule).Some? && Complete(Run(c, schedule).value)
    ensures var c := Distributed(op, u, np, nx, nt, nl);
      var s := Run(c, schedule).value;
      HasResult(c, s) && Result(c, s) == Servers(Split(SerialRun(op, u, nt), np, nx), nl)
    ensures np % nl == 0
  {
    CompleteResult(Distributed(op, u, np, nx, nt, nl), schedule);
    RemoteRun(op, u, np, nx, nt, nl);
    PlacementValid(np, nl);
  }
}
