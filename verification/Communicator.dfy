/** How the workers' channels are paired by registered names. */
module Communicator {
  import opened HaloGrid
  import opened HaloProtocol
  import opened Options

  datatype Neighbor = Up | Down {
    function Opposite(): Neighbor { if Up? then Down else Up }
    function Index(): nat { if Up? then 0 else 1 }
  }

  /** A registered channel: the base name by direction, and the rank that created it. */
  datatype Name = Name(base: Neighbor, rank: nat)

  /** The rank next to r on side n, if any. */
  function Beside(num: nat, r: nat, n: Neighbor): Option<nat> {
    if n == Up then (if r > 0 then Some(r - 1) else None) else if r + 1 < num then Some(r + 1) else None
  }

  class Endpoints {
    const rank: nat
    const num: nat
    var recv: seq<Option<Name>>
    var send: seq<Option<Name>>

    /** Each direction receives on the channel that the neighbour there created for the opposite
        direction, and sends on one of its own. */
    ghost predicate Valid()
      reads this
    {
      |recv| == |send| == 2 && forall n: Neighbor ::
        send[n.Index()] == SendName(num, rank, n) && recv[n.Index()] == RecvName(num, rank, n)
    }

    constructor (rank: nat, num: nat)
      requires rank < num
      ensures this.rank == rank && this.num == num && Valid()
    {
      this.rank, this.num := rank, num;
      recv, send := [None, None], [None, None];
      new;
      if num > 1 {
        if rank > 0 {
          recv := recv[0 := Some(Name(Down, rank - 1))];
          send := send[0 := Some(Name(Up, rank))];
        }
        if rank < num - 1 {
          recv := recv[1 := Some(Name(Up, rank + 1))];
          send := send[1 := Some(Name(Down, rank))];
        }
      }
    }

    method HasNeighbor(n: Neighbor) returns (b: bool)
      requires Valid()
      ensures b <==> Beside(num, rank, n).Some?
    {
      b := recv[n.Index()].Some? && send[n.Index()].Some?;
    }
  }

  function SendName(num: nat, r: nat, n: Neighbor): Option<Name> {
    if Beside(num, r, n).Some? then Some(Name(n, r)) else None
  }

  function RecvName(num: nat, r: nat, n: Neighbor): Option<Name> {
    if Beside(num, r, n).Some? then Some(Name(n.Opposite(), Beside(num, r, n).value)) else None
  }

  /** A rank receives on exactly the channel on which the rank beside it sends back: the
      pairing of the halo exchange, where rank r reads the downward channel of r - 1 and the
      upward channel of r + 1. */
  lemma Pairing(num: nat, r: nat, n: Neighbor, q: nat, m: Neighbor)
    requires r < num && q < num
    ensures (RecvName(num, r, n).Some? && RecvName(num, r, n) == SendName(num, q, m)) <==>
      (Beside(num, r, n) == Some(q) && m == n.Opposite())
    ensures Beside(num, r, n) == Some(q) <==> Beside(num, q, n.Opposite()) == Some(r)
  {}

  // ------------------------------------------------- the protocol talks by these names

  /** The channel of the protocol that is registered under a name. */
  ghost function ChannelOf<R>(s: State<R>, name: Name): Channel<R>
    requires name.rank < |s.up| == |s.down|
  {
    if name.base == Up then s.up[name.rank] else s.down[name.rank]
  }

  /** The side a worker receives from or sends to at a program point, if any. */
  function Receives(pc: Pc): Option<Neighbor> {
    if pc == GetUp then Some(Up) else if pc == GetDown then Some(Down) else None
  }

  function Sends(pc: Pc): Option<Neighbor> {
    if pc == SendUp || pc == PutUp then Some(Up) else if pc == SendDown || pc == PutDown then Some(Down) else None
  }

  /** The row and tag sent at a program point: the outermost row at the start, later the row just
      written, for the step after. */
  ghost function Message<R>(g: Grid<R>, s: State<R>, r: nat): (nat, R)
    requires g.Valid() && Enabled(g, s, Work(r)) && Sends(s.ws[r].pc).Some?
  {
    match s.ws[r].pc
    case SendUp => (0, s.ws[r].u0[0])
    case SendDown => (0, s.ws[r].u0[g.ny-1])
    case PutUp => (s.ws[r].t + 1, MovedWorker(g, s, r).Next()[0])
    case PutDown => (s.ws[r].t + 1, MovedWorker(g, s, r).Next()[g.ny-2])
  }

  /** What a worker's move does to the channel of a given name: a row is taken from it if it is the
      one the worker receives on, put on it if it is the one it sends on, and otherwise it stays
      as it is. */
  lemma TalksByName<R>(g: Grid<R>, s: State<R>, r: nat, name: Name)
    requires g.Valid() && Enabled(g, s, Work(r)) && name.rank < g.num
    ensures var w, ch, ch' := s.ws[r], ChannelOf(s, name), ChannelOf(Apply(g, s, Work(r)), name);
      ch' ==
        if Receives(w.pc).Some? && RecvName(g.num, r, Receives(w.pc).value) == Some(name) then
          (assert w.t in ch.arrived; ch.Get(w.t))
        else if Sends(w.pc).Some? && SendName(g.num, r, Sends(w.pc).value) == Some(name) then
          ch.Set(Message(g, s, r).0, Message(g, s, r).1)
        else ch
  {}

  /** The row taken is the one a worker goes on with. */
  lemma TakesByName<R>(g: Grid<R>, s: State<R>, r: nat, n: Neighbor)
    requires g.Valid() && Enabled(g, s, Work(r)) && Receives(s.ws[r].pc) == Some(n) && RecvName(g.num, r, n).Some?
    ensures var w, ch := s.ws[r], ChannelOf(s, RecvName(g.num, r, n).value);
      w.t in ch.arrived && MovedWorker(g, s, r).halo == Some(ch.arrived[w.t])
  {}
}
