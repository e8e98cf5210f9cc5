/** The futurised local solver: the dataflow system instantiated with partitions of the
    ring, shown to compute the serial solution under every schedule. */
module HeatFutures {
  import opened Blocks
  import opened HeatSerial
  import opened HeatPartitioned
  import opened Dataflow

  /** The task body as a total function of its three inputs. */
  function PartTask(op: Operator): (Part, Part, Part) -> Part {
    (l: Part, m: Part, r: Part) => if |l| == |m| == |r| >= 1 then PartStep(op, l, m, r) else []
  }

  function Futurised(op: Operator, u: seq<real>, np: nat, nx: nat, nt: nat, throttle: Throttle): Config<Part>
    requires |u| == Points(np, nx)
  {
    Config(PartTask(op), Split(u, np, nx), nt, throttle)
  }

  /** One step on partitions is one step on points. */
  lemma StepSplit(op: Operator, u: seq<real>, np: nat, nx: nat)
    requires |u| == Points(np, nx) && nx >= 1
    ensures SerialStep(PartTask(op), Split(u, np, nx)) == Split(SerialStep(op, u), np, nx)
  {
    var ps := Split(u, np, nx);
    forall i | 0 <= i < np
      ensures SerialStep(PartTask(op), ps)[i] == Chunk(SerialStep(op, u), i, np, nx)
    {
      StepAt(PartTask(op), ps, i);
      PartStepIsSerialStep(op, u, i, np, nx);
    }
  }

  lemma {:induction false} RunSplit(op: Operator, u: seq<real>, np: nat, nx: nat, t: nat)
    requires |u| == Points(np, nx) && nx >= 1
    ensures SerialRun(PartTask(op), Split(u, np, nx), t) == Split(SerialRun(op, u, t), np, nx)
  {
    if t > 0 {
      RunSplit(op, u, np, nx, t - 1);
      StepSplit(op, SerialRun(op, u, t - 1), np, nx);
    }
  }

  /** In every schedule, every value a finished task holds is its part of the serial
      solution at that layer: results do not depend on the order of execution. */
  lemma EveryScheduleAgrees(op: Operator, u: seq<real>, np: nat, nx: nat, nt: nat, throttle: Throttle,
                            schedule: seq<Step>, id: Id)
    requires |u| == Points(np, nx) && np >= 1 && nx >= 1
    requires var c := Futurised(op, u, np, nx, nt, throttle);
      c.Valid() && Run(c, schedule).Some? && Run(c, schedule).value.Ready(id)
    ensures var s := Run(Futurised(op, u, np, nx, nt, throttle), schedule).value;
      id.part < np && s.Value(id) == Chunk(SerialRun(op, u, id.layer), id.part, np, nx)
  {
    var c := Futurised(op, u, np, nx, nt, throttle);
    RunInv(c, schedule);
    assert FutureOk(c, Run(c, schedule).value, id);
    RunSplit(op, u, np, nx, id.layer);
  }

  /** A completed run of any schedule returns the serial solution on np*nx points. */
  lemma FuturisedRefinesSerial(op: Operator, u: seq<real>, np: nat, nx: nat, nt: nat, throttle: Throttle,
                               schedule: seq<Step>)
    requires |u| == Points(np, nx) && np >= 1 && nx >= 1
    requires var c := Futurised(op, u, np, nx, nt, throttle);
      c.Valid() && Run(c, schedule).Some? && Complete(Run(c, schedule).value)
    ensures var c := Futurised(op, u, np, nx, nt, throttle);
      var s := Run(c, schedule).value;
      && HasResult(c, s)
      && Join(Result(c, s)) == SerialRun(op, u, nt)
  {
    CompleteResult(Futurised(op, u, np, nx, nt, throttle), schedule);
    RunSplit(op, u, np, nx, nt);
    JoinSplit(SerialRun(op, u, nt), np, nx);
  }
}
