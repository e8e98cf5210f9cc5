/** A flat sequence seen as equal consecutive blocks: partitions of a ring of points, rows
    of a grid.  Gluing undoes cutting. */
module Blocks {

  /** Number of points in k blocks: k * nx. */
  function Points(k: nat, nx: nat): nat {
    if k == 0 then 0 else Points(k - 1, nx) + nx
  }

  lemma {:induction false} PointsIsProduct(k: nat, nx: nat)
    ensures Points(k, nx) == k * nx
  {
    if k > 0 {
      PointsIsProduct(k - 1, nx);
      assert k * nx == (k - 1) * nx + nx;
    }
  }

  /** Block i ends inside the whole, and at its end only if it is the last one. */
  lemma {:induction false} PartBounds(i: nat, np: nat, nx: nat)
    requires i < np
    ensures Points(i, nx) + nx == Points(i + 1, nx) <= Points(np, nx)
  {
    if i < np - 1 {
      PartBounds(i, np - 1, nx);
    }
  }

  /** Block i of the whole. */
  function Chunk<T>(u: seq<T>, i: nat, np: nat, nx: nat): (p: seq<T>)
    requires i < np && |u| == Points(np, nx)
    ensures |p| == nx
  {
    PartBounds(i, np, nx);
    u[Points(i, nx) .. Points(i, nx) + nx]
  }

  lemma ChunkAt<T>(u: seq<T>, i: nat, j: nat, np: nat, nx: nat)
    requires i < np && j < nx && |u| == Points(np, nx)
    ensures Points(i, nx) + j < |u| && Chunk(u, i, np, nx)[j] == u[Points(i, nx) + j]
  {
    PartBounds(i, np, nx);
  }

  function Split<T>(u: seq<T>, np: nat, nx: nat): (ps: seq<seq<T>>)
    requires |u| == Points(np, nx)
    ensures |ps| == np
  {
    seq(np, i requires 0 <= i < np => Chunk(u, i, np, nx))
  }

  function Join<T>(ps: seq<seq<T>>): seq<T> {
    if ps == [] then [] else Join(ps[..|ps|-1]) + ps[|ps|-1]
  }

  /** Gluing the blocks back gives the whole. */
  lemma {:induction false} JoinSplit<T>(u: seq<T>, np: nat, nx: nat)
    requires |u| == Points(np, nx)
    ensures Join(Split(u, np, nx)) == u
    decreases np
  {
    if np == 0 {
      assert u == [];
    } else {
      var k := np - 1;
      PartBounds(k, np, nx);
      SplitFront(u, k, nx);
      JoinSplit(u[..Points(k, nx)], k, nx);
      assert u == u[..Points(k, nx)] + Chunk(u, k, np, nx);
    }
  }

  lemma SplitFront<T>(u: seq<T>, k: nat, nx: nat)
    requires |u| == Points(k + 1, nx)
    ensures Points(k, nx) <= |u|
    ensures Split(u, k + 1, nx)[..k] == Split(u[..Points(k, nx)], k, nx)
  {
    PartBounds(k, k + 1, nx);
    forall i | 0 <= i < k ensures Chunk(u, i, k + 1, nx) == Chunk(u[..Points(k, nx)], i, k, nx) {
      PartBounds(i, k, nx);
    }
  }
}
