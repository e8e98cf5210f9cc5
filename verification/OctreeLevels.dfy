/** What a built octree promises: its levels partition the bodies, conserve mass, and put every
    body into the deepest cube around it. */
module OctreeLevels {
  import opened OctreeGeometry
  import opened OctreeBuild

  ghost predicate InRoot(bodies: seq<Body>) {
    forall i :: 0 <= i < |bodies| ==> ROOT.Has(bodies[i].location)
  }

  lemma {:induction false} AllInside(bodies: seq<Body>)
    requires InRoot(bodies)
    ensures Inside(bodies, At, ROOT) == bodies
  {
    if bodies != [] {
      AllInside(bodies[..|bodies|-1]);
    }
  }

  /** The cubes of a built tree in numbers: cube 0 is [-500,500)^3, and a cube of level l measures
      1000 / 2^l along each axis. */
  lemma CubesInNumbers(octree: seq<Cube>, bodies: seq<Body>, k: nat)
    requires Built(octree, bodies, |octree|) && k < |octree|
    ensures k == 0 ==> octree[k].boundary == Cuboid(-500.0, -500.0, -500.0, 1000.0)
    ensures var b, n := octree[k].boundary, Pow2(octree[k].level) as real;
      (b.x.hi - b.x.lo) * n == (b.y.hi - b.y.lo) * n == (b.z.hi - b.z.lo) * n == 1000.0
  {
    assert CubeAt(octree, k);
    FirstCubes();
    SideLaw(k);
    SideIs(LevelOf(k));
  }

  /** The weight of the bodies listed in cubes lo .. hi-1. */
  ghost function ListedWeight(octree: seq<Cube>, f: Weight<Body>, lo: nat, hi: nat): real
    requires lo <= hi <= |octree|
    reads octree
  {
    if lo == hi then 0.0 else ListedWeight(octree, f, lo, hi - 1) + Total(octree[hi - 1].bodyMembers, f)
  }

  lemma {:induction false} ListedIsInside(octree: seq<Cube>, bodies: seq<Body>, f: Weight<Body>, lo: nat, hi: nat)
    requires Built(octree, bodies, |octree|) && InRoot(bodies) && lo <= hi <= |octree|
    ensures ListedWeight(octree, f, lo, hi) == WeightIn(bodies, At, f, lo, hi)
  {
    if lo < hi {
      ListedIsInside(octree, bodies, f, lo, hi - 1);
      assert FilledAt(octree, bodies, |octree|, hi - 1);
      AllInside(bodies);
    }
  }

  /** Any weight on bodies is shared out exactly by each complete level. */
  lemma LevelShares(octree: seq<Cube>, bodies: seq<Body>, f: Weight<Body>, l: nat)
    requires Built(octree, bodies, |octree|) && InRoot(bodies) && LevelStart(l) <= LevelStart(l + 1) <= |octree|
    ensures ListedWeight(octree, f, LevelStart(l), LevelStart(l + 1)) == Total(bodies, f)
  {
    ListedIsInside(octree, bodies, f, LevelStart(l), LevelStart(l + 1));
    LevelKeepsWeight(bodies, At, f, l);
  }

  // ------------------------------------------------------------------------ mass

  ghost function MassIn(octree: seq<Cube>, lo: nat, hi: nat): real
    requires lo <= hi <= |octree|
    reads octree
  {
    if lo == hi then 0.0 else MassIn(octree, lo, hi - 1) + octree[hi - 1].mass
  }

  lemma {:induction false} MassIsListed(octree: seq<Cube>, bodies: seq<Body>, lo: nat, hi: nat)
    requires Built(octree, bodies, |octree|) && lo <= hi <= |octree|
    ensures MassIn(octree, lo, hi) == ListedWeight(octree, Mass, lo, hi)
  {
    if lo < hi {
      MassIsListed(octree, bodies, lo, hi - 1);
      assert FilledAt(octree, bodies, |octree|, hi - 1);
    }
  }

  /** The masses of the cubes of a level add up to the mass of all bodies. */
  lemma LevelMass(octree: seq<Cube>, bodies: seq<Body>, l: nat)
    requires Built(octree, bodies, |octree|) && InRoot(bodies) && LevelStart(l) <= LevelStart(l + 1) <= |octree|
    ensures MassIn(octree, LevelStart(l), LevelStart(l + 1)) == Total(bodies, Mass)
  {
    MassIsListed(octree, bodies, LevelStart(l), LevelStart(l + 1));
    LevelShares(octree, bodies, Mass, l);
  }

  // ------------------------------------------------------------------- partition

  /** How often a body is listed in cubes lo .. hi-1. */
  ghost function Listed(octree: seq<Cube>, b: Body, lo: nat, hi: nat): nat
    requires lo <= hi <= |octree|
    reads octree
  {
    if lo == hi then 0 else Listed(octree, b, lo, hi - 1) + multiset(octree[hi - 1].bodyMembers)[b]
  }

  ghost function One(b: Body): Weight<Body> {
    x => if x == b then 1.0 else 0.0
  }

  lemma {:induction false} TotalCounts(bodies: seq<Body>, b: Body)
    ensures Total(bodies, One(b)) == multiset(bodies)[b] as real
  {
    if bodies != [] {
      var n := |bodies| - 1;
      TotalCounts(bodies[..n], b);
      assert bodies == bodies[..n] + [bodies[n]];
    }
  }

  lemma {:induction false} ListedCounts(octree: seq<Cube>, b: Body, lo: nat, hi: nat)
    requires lo <= hi <= |octree|
    ensures ListedWeight(octree, One(b), lo, hi) == Listed(octree, b, lo, hi) as real
  {
    if lo < hi {
      ListedCounts(octree, b, lo, hi - 1);
      TotalCounts(octree[hi - 1].bodyMembers, b);
    }
  }

  /** Each level lists each body as often as it was given, and only in the cube around it. */
  lemma LevelPartitionsBodies(octree: seq<Cube>, bodies: seq<Body>, b: Body, l: nat, k: nat)
    requires Built(octree, bodies, |octree|) && InRoot(bodies) && LevelStart(l) <= LevelStart(l + 1) <= |octree|
    requires b in bodies && InLevel(k, l)
    ensures Listed(octree, b, LevelStart(l), LevelStart(l + 1)) == multiset(bodies)[b]
    ensures b in octree[k].bodyMembers <==> k == Leaf(l, b.location)
    ensures octree[k].level == l
  {
    LevelShares(octree, bodies, One(b), l);
    ListedCounts(octree, b, LevelStart(l), LevelStart(l + 1));
    TotalCounts(bodies, b);
    assert CubeAt(octree, k) && FilledAt(octree, bodies, |octree|, k);
    AllInside(bodies);
    InsideMember(bodies, Geometry(k), b);
    LevelPartition(l, k, b.location);
    LevelOfInLevel(k, l);
  }

  // --------------------------------------------------------------- deepest cube

  /** With one to three levels, every body's parent is its cube of the last level. */
  lemma ParentIsDeepest(octree: seq<Cube>, bodies: seq<Body>, b: Body, l: nat)
    requires Built(octree, bodies, |octree|) && InRoot(bodies) && b in bodies && |octree| == LevelStart(l + 1)
    ensures Leaf(l, b.location) < |octree| && b.parent == octree[Leaf(l, b.location)]
    ensures octree[Leaf(l, b.location)].boundary.Has(b.location)
  {
    assert HomeAt(octree, b, |octree|);
    HomeIsLeaf(b.location, l);
    LeafInLevel(l, b.location);
    LevelPartition(l, Leaf(l, b.location), b.location);
    assert CubeAt(octree, Leaf(l, b.location));
  }

  /** With four levels the last one is cut short: a body reaches it exactly if its cube of the
      third level is not among the last eight. */
  lemma FourthLevelCut(octree: seq<Cube>, bodies: seq<Body>, b: Body)
    requires Built(octree, bodies, |octree|) && InRoot(bodies) && b in bodies && |octree| == TreeSize(4)
    ensures Leaf(3, b.location) < |octree| <==> Leaf(2, b.location) < 65
    ensures Leaf(2, b.location) < |octree|
    ensures b.parent == octree[if Leaf(3, b.location) < |octree| then Leaf(3, b.location) else Leaf(2, b.location)]
  {
    var p := b.location;
    LevelConstants();
    assert HomeAt(octree, b, |octree|);
    LeafInLevel(2, p);
    LeafInLevel(3, p);
    LevelPartition(2, Leaf(2, p), p);
    LevelPartition(3, Leaf(3, p), p);
    var k := Home(p, |octree|);
    if k >= 73 {
      LevelPartition(3, k, p);
    } else if k >= 9 {
      LevelPartition(2, k, p);
    }
  }

  // ---------------------------------------------------------------------- links

  lemma SiblingsAre(octree: seq<Cube>, q: nat, i: nat)
    requires 8 * q + 8 < |octree| && 1 <= i <= 8
    ensures Siblings(octree, 8 * q + i) == LinkedTo(octree, q, i)
  {
    ChildOf(q, i);
  }

  lemma SidesAre(octree: seq<Cube>, k: nat)
    requires Shape(octree) && Sided(octree, |octree|) && k < |octree|
    ensures octree[k].boundary == Geometry(k) && octree[k].sides == Siblings(octree, k)
  {
    assert CubeAt(octree, k) && SidesAt(octree, |octree|, k);
  }

  /** The box and the links of the i-th sub-cube of cube q. */
  lemma SubCubeLinks(octree: seq<Cube>, bodies: seq<Body>, q: nat, i: nat)
    requires Built(octree, bodies, |octree|) && 8 * q + 8 < |octree| && 1 <= i <= 8
    ensures LinkedSub(octree, q, i)
  {
    ChildOf(q, i);
    SidesAre(octree, 8 * q + i);
    SiblingsAre(octree, q, i);
  }

  lemma OneSideLinked(i: nat, side: Side)
    requires 1 <= i <= 8
    ensures Across(i, side) > 0 <==> Across(i, side.Opposite()) == 0
  {}

  ghost predicate LinkedSub(octree: seq<Cube>, q: nat, i: nat)
    requires 8 * q + 8 < |octree| && 1 <= i <= 8
    reads octree
  {
    octree[8 * q + i].boundary == SubBox(Geometry(q), i) && octree[8 * q + i].sides == LinkedTo(octree, q, i)
  }

  /** A cube that is linked to another one on a side shares that face with it, and is linked back. */
  ghost predicate LeadsAcross(c: Cube, side: Side)
    reads c, c.sides.Values
  {
    side in c.sides ==>
      var d := c.sides[side];
      Touches(c.boundary, side, d.boundary) && side.Opposite() in d.sides && d.sides[side.Opposite()] == c
  }

  lemma LinkAndBack(octree: seq<Cube>, q: nat, i: nat, side: Side)
    requires 8 * q + 8 < |octree| && 1 <= i <= 8 && LinkedSub(octree, q, i)
    requires Across(i, side) > 0 ==> LinkedSub(octree, q, Across(i, side))
    ensures LeadsAcross(octree[8 * q + i], side)
    ensures side in octree[8 * q + i].sides <==> side.Opposite() !in octree[8 * q + i].sides
  {
    OneSideLinked(i, side);
    GeometrySolid(q);
    if Across(i, side) > 0 {
      LinksTouch(Geometry(q), i, side, Across(i, side));
    }
  }

  /** In a built tree all links lead across a shared face and back, and every sub-cube is linked on
      exactly one of two opposite sides. */
  lemma LinksLeadAcross(octree: seq<Cube>, bodies: seq<Body>, q: nat, i: nat, side: Side)
    requires Built(octree, bodies, |octree|) && 8 * q + 8 < |octree| && 1 <= i <= 8
    ensures LeadsAcross(octree[8 * q + i], side)
    ensures side in octree[8 * q + i].sides <==> side.Opposite() !in octree[8 * q + i].sides
  {
    SubCubeLinks(octree, bodies, q, i);
    if Across(i, side) > 0 {
      SubCubeLinks(octree, bodies, q, Across(i, side));
    }
    LinkAndBack(octree, q, i, side);
  }

  // ----------------------------------------------------------------- centre of mass

  /** Sums of coordinates, plain and weighted by masses. */
  function Plain(xs: seq<real>): real {
    if xs == [] then 0.0 else Plain(xs[..|xs|-1]) + xs[|xs|-1]
  }

  function Weighted(ms: seq<real>, xs: seq<real>): real
    requires |ms| == |xs|
  {
    if xs == [] then 0.0 else Weighted(ms[..|xs|-1], xs[..|xs|-1]) + ms[|xs|-1] * xs[|xs|-1]
  }

  /** Masses and coordinates along one axis of some bodies. */
  function Masses(bodies: seq<Body>): (ms: seq<real>)
    ensures |ms| == |bodies|
  {
    seq(|bodies|, i requires 0 <= i < |bodies| => bodies[i].mass)
  }

  function Coordinates(bodies: seq<Body>, axis: Axis): (xs: seq<real>)
    ensures |xs| == |bodies|
  {
    seq(|bodies|, i requires 0 <= i < |bodies| => axis.Of(bodies[i].location))
  }

  lemma {:induction false} TotalIsPlain(bodies: seq<Body>, f: Weight<Body>, axis: Axis)
    requires forall b {:trigger f(b)} :: f(b) == axis.Of(b.location)
    ensures Total(bodies, f) == Plain(Coordinates(bodies, axis))
  {
    if bodies != [] {
      var n := |bodies| - 1;
      TotalIsPlain(bodies[..n], f, axis);
      assert Coordinates(bodies, axis)[..n] == Coordinates(bodies[..n], axis);
    }
  }

  datatype Axis = X | Y | Z {
    function Of(p: Point): real {
      match this case X => p.x case Y => p.y case Z => p.z
    }
  }

  lemma LocationsAlong(bodies: seq<Body>, axis: Axis)
    ensures axis.Of(Locations(bodies)) == Plain(Coordinates(bodies, axis))
  {
    match axis
    case X => TotalIsPlain(bodies, (b: Body) => b.location.x, axis);
    case Y => TotalIsPlain(bodies, (b: Body) => b.location.y, axis);
    case Z => TotalIsPlain(bodies, (b: Body) => b.location.z, axis);
  }

  /** A cube's centre is the centre of mass of its bodies, along an axis, exactly if their plain
      and weighted sums along it agree. */
  lemma CentreOfCube(octree: seq<Cube>, bodies: seq<Body>, k: nat, axis: Axis)
    requires Built(octree, bodies, |octree|) && k < |octree| && octree[k].mass != 0.0
    ensures var members := Members(bodies, k);
      axis.Of(octree[k].centerOfMass) * octree[k].mass == Weighted(Masses(members), Coordinates(members, axis)) <==>
        Plain(Coordinates(members, axis)) == Weighted(Masses(members), Coordinates(members, axis))
  {
    assert CubeAt(octree, k) && FilledAt(octree, bodies, |octree|, k);
    LocationsAlong(Members(bodies, k), axis);
    DividedBack(axis.Of(octree[k].initLocation), octree[k].mass);
  }

  lemma DividedBack(x: real, m: real)
    requires m != 0.0
    ensures x / m * m == x
  {}

  /** What the code divides by the mass is the plain sum of locations.  That gives the centre of
      mass, wherever the bodies are, exactly if every body has mass 1. */
  lemma CentreExactly(ms: seq<real>)
    ensures (forall xs: seq<real> :: |xs| == |ms| ==> Plain(xs) == Weighted(ms, xs)) <==>
      forall i :: 0 <= i < |ms| ==> ms[i] == 1.0
  {
    if i :| 0 <= i < |ms| && ms[i] != 1.0 {
      var xs := Unit(|ms|, i);
      UnitSums(ms, i, |ms|);
      assert xs[..|ms|] == xs && ms[..|ms|] == ms;
    } else {
      forall xs: seq<real> | |xs| == |ms| ensures Plain(xs) == Weighted(ms, xs) {
        UnitMasses(ms, xs);
      }
    }
  }

  function Unit(n: nat, i: nat): (xs: seq<real>)
    ensures |xs| == n
  {
    seq(n, j => if j == i then 1.0 else 0.0)
  }

  lemma {:induction false} UnitSums(ms: seq<real>, i: nat, k: nat)
    requires i < |ms| && k <= |ms|
    ensures Plain(Unit(|ms|, i)[..k]) == if i < k then 1.0 else 0.0
    ensures Weighted(ms[..k], Unit(|ms|, i)[..k]) == if i < k then ms[i] else 0.0
  {
    if k > 0 {
      UnitSums(ms, i, k - 1);
      assert Unit(|ms|, i)[..k][..k - 1] == Unit(|ms|, i)[..k - 1] && ms[..k][..k - 1] == ms[..k - 1];
    }
  }

  lemma {:induction false} UnitMasses(ms: seq<real>, xs: seq<real>)
    requires |ms| == |xs| && forall i :: 0 <= i < |ms| ==> ms[i] == 1.0
    ensures Plain(xs) == Weighted(ms, xs)
  {
    if xs != [] {
      UnitMasses(ms[..|xs|-1], xs[..|xs|-1]);
    }
  }
}
