/** The cubes of the n-body octree as boxes, numbered level by level: cube 8k+i is the i-th
    octant of cube k.  Each level of the numbering partitions space, and with it any weight
    that bodies carry. */
module OctreeGeometry {

  datatype Point = Point(x: real, y: real, z: real)

  /** A half-open interval. */
  datatype Interval = Interval(lo: real, hi: real) {
    predicate Has(x: real) { lo <= x < hi }
    function Low(): Interval { Interval(lo, lo + (hi - lo) / 2.0) }
    function High(): Interval { Interval(hi - (hi - lo) / 2.0, hi) }
  }

  datatype Box = Box(x: Interval, y: Interval, z: Interval) {
    predicate Has(p: Point) { x.Has(p.x) && y.Has(p.y) && z.Has(p.z) }
    predicate Proper() { x.lo <= x.hi && y.lo <= y.hi && z.lo <= z.hi }
  }

  const ROOT := Box(Interval(-500.0, 500.0), Interval(-500.0, 500.0), Interval(-500.0, 500.0))

  /** The i-th octant, in the order the eight sub-cubes are made. */
  function SubBox(b: Box, i: nat): Box
    requires 1 <= i <= 8
  {
    Box(if i in {2, 4, 5, 6} then b.x.High() else b.x.Low(),
        if i in {2, 3, 5, 7} then b.y.High() else b.y.Low(),
        if i in {2, 3, 4, 8} then b.z.High() else b.z.Low())
  }

  function Octant(b: Box, p: Point): (i: nat)
    ensures 1 <= i <= 8
  {
    if b.x.High().Has(p.x) then
      if b.y.High().Has(p.y) then (if b.z.High().Has(p.z) then 2 else 5)
      else (if b.z.High().Has(p.z) then 4 else 6)
    else
      if b.y.High().Has(p.y) then (if b.z.High().Has(p.z) then 3 else 7)
      else (if b.z.High().Has(p.z) then 8 else 1)
  }

  lemma Halves(v: Interval, x: real)
    requires v.lo <= v.hi
    ensures v.Low().lo <= v.Low().hi && v.High().lo <= v.High().hi
    ensures v.Low().Has(x) <==> v.Has(x) && !v.High().Has(x)
    ensures v.High().Has(x) ==> v.Has(x)
  {}

  /** The eight octants partition a box. */
  lemma OneOctant(b: Box, p: Point, i: nat)
    requires b.Proper() && 1 <= i <= 8
    ensures SubBox(b, i).Proper()
    ensures SubBox(b, i).Has(p) <==> b.Has(p) && i == Octant(b, p)
  {
    Halves(b.x, p.x);
    Halves(b.y, p.y);
    Halves(b.z, p.z);
  }

  // ------------------------------------------------------------- neighbouring octants

  /** The six sides of a cube: left and right along x, back and front along y, down and up along z. */
  datatype Side = Left | Right | Back | Front | Down | Up {
    function Opposite(): Side {
      match this
      case Left => Right case Right => Left case Back => Front
      case Front => Back case Down => Up case Up => Down
    }
  }

  /** The octant that is linked to octant i on a side, or 0 for none. */
  function Across(i: nat, side: Side): (j: nat)
    ensures j <= 8
  {
    match side
    case Right => if i == 1 then 6 else if i == 8 then 4 else if i == 3 then 2 else if i == 7 then 5 else 0
    case Left => if i == 6 then 1 else if i == 4 then 8 else if i == 2 then 3 else if i == 5 then 7 else 0
    case Front => if i == 1 then 7 else if i == 8 then 3 else if i == 6 then 5 else if i == 4 then 2 else 0
    case Back => if i == 7 then 1 else if i == 3 then 8 else if i == 5 then 6 else if i == 2 then 4 else 0
    case Up => if i == 1 then 8 else if i == 7 then 3 else if i == 6 then 4 else if i == 5 then 2 else 0
    case Down => if i == 8 then 1 else if i == 3 then 7 else if i == 4 then 6 else if i == 2 then 5 else 0
  }

  /** Two boxes share a whole face: the second lies on the given side of the first. */
  predicate Touches(a: Box, side: Side, b: Box) {
    match side
    case Right => b.x.lo == a.x.hi && b.y == a.y && b.z == a.z
    case Left => b.x.hi == a.x.lo && b.y == a.y && b.z == a.z
    case Front => b.x == a.x && b.y.lo == a.y.hi && b.z == a.z
    case Back => b.x == a.x && b.y.hi == a.y.lo && b.z == a.z
    case Up => b.x == a.x && b.y == a.y && b.z.lo == a.z.hi
    case Down => b.x == a.x && b.y == a.y && b.z.hi == a.z.lo
  }

  /** The links are right: octant j is linked on a side of octant i exactly if their boxes share
      that face, for every box that is not flat, and links lead back. */
  lemma LinksTouch(b: Box, i: nat, side: Side, j: nat)
    requires 1 <= i <= 8 && 1 <= j <= 8 && Solid(b)
    ensures Across(i, side) == j <==> Touches(SubBox(b, i), side, SubBox(b, j))
    ensures Across(i, side) == j <==> Across(j, side.Opposite()) == i
  {
    Midpoint(b.x);
    Midpoint(b.y);
    Midpoint(b.z);
  }

  lemma Midpoint(v: Interval)
    requires v.lo < v.hi
    ensures v.Low().lo < v.Low().hi == v.High().lo < v.High().hi
  {}

  // -------------------------------------------------------------- the numbering

  function Parent(k: nat): nat
    requires k > 0
  {
    (k - 1) / 8
  }

  function Geometry(k: nat): Box {
    if k == 0 then ROOT else SubBox(Geometry(Parent(k)), (k - 1) % 8 + 1)
  }

  function LevelOf(k: nat): nat {
    if k == 0 then 0 else LevelOf(Parent(k)) + 1
  }

  function Pow8(n: nat): (r: nat)
    ensures r >= 1
  {
    if n == 0 then 1 else 8 * Pow8(n - 1)
  }

  /** The number of the first cube of a level: the sum of the smaller powers of 8. */
  function LevelStart(l: nat): nat {
    if l == 0 then 0 else LevelStart(l - 1) + Pow8(l - 1)
  }

  lemma {:induction false} LevelStartStep(l: nat)
    ensures LevelStart(l + 1) == 8 * LevelStart(l) + 1
  {
    if l > 0 {
      LevelStartStep(l - 1);
    }
  }

  lemma {:induction false} GeometryProper(k: nat)
    ensures Geometry(k).Proper()
  {
    if k > 0 {
      GeometryProper(Parent(k));
      OneOctant(Geometry(Parent(k)), Point(0.0, 0.0, 0.0), (k - 1) % 8 + 1);
    }
  }

  predicate Solid(b: Box) { b.x.lo < b.x.hi && b.y.lo < b.y.hi && b.z.lo < b.z.hi }

  lemma {:induction false} GeometrySolid(k: nat)
    ensures Solid(Geometry(k))
  {
    if k > 0 {
      GeometrySolid(Parent(k));
    }
  }

  /** The side of a cube of a level: 1000, halved once per level. */
  function SideLength(l: nat): real {
    if l == 0 then 1000.0 else SideLength(l - 1) / 2.0
  }

  function Pow2(l: nat): (n: nat)
    ensures n >= 1
  {
    if l == 0 then 1 else 2 * Pow2(l - 1)
  }

  lemma {:induction false} SideIs(l: nat)
    ensures SideLength(l) * Pow2(l) as real == 1000.0
  {
    if l > 0 {
      SideIs(l - 1);
      Halving(SideLength(l - 1), Pow2(l - 1) as real);
    }
  }

  lemma Halving(s: real, n: real)
    ensures s / 2.0 * (2.0 * n) == s * n
  {}

  /** Cubes are cubes, and each level halves them: a cube of level l measures 1000 / 2^l along
      each axis. */
  lemma {:induction false} SideLaw(k: nat)
    ensures var b := Geometry(k);
      b.x.hi - b.x.lo == b.y.hi - b.y.lo == b.z.hi - b.z.lo == SideLength(LevelOf(k))
  {
    if k > 0 {
      SideLaw(Parent(k));
    }
  }

  function Cuboid(x: real, y: real, z: real, side: real): Box {
    Box(Interval(x, x + side), Interval(y, y + side), Interval(z, z + side))
  }

  /** The root and its eight sub-cubes in numbers. */
  lemma FirstCubes()
    ensures Geometry(0) == Cuboid(-500.0, -500.0, -500.0, 1000.0)
    ensures Geometry(1) == Cuboid(-500.0, -500.0, -500.0, 500.0)
    ensures Geometry(2) == Cuboid(0.0, 0.0, 0.0, 500.0)
    ensures Geometry(3) == Cuboid(-500.0, 0.0, 0.0, 500.0)
    ensures Geometry(4) == Cuboid(0.0, -500.0, 0.0, 500.0)
    ensures Geometry(5) == Cuboid(0.0, 0.0, -500.0, 500.0)
    ensures Geometry(6) == Cuboid(0.0, -500.0, -500.0, 500.0)
    ensures Geometry(7) == Cuboid(-500.0, 0.0, -500.0, 500.0)
    ensures Geometry(8) == Cuboid(-500.0, -500.0, 0.0, 500.0)
  {}

  /** A point of a cube is in the cube's parent, and in no other octant of it. */
  lemma GeometryStep(k: nat, p: Point)
    requires k > 0
    ensures Geometry(k).Has(p) <==> Geometry(Parent(k)).Has(p) && (k - 1) % 8 + 1 == Octant(Geometry(Parent(k)), p)
  {
    GeometryProper(Parent(k));
    OneOctant(Geometry(Parent(k)), p, (k - 1) % 8 + 1);
  }

  // ---------------------------------------------------------- levels partition space

  /** The cube of level l that a point of the root belongs to. */
  function Leaf(l: nat, p: Point): nat {
    if l == 0 then 0 else 8 * Leaf(l - 1, p) + Octant(Geometry(Leaf(l - 1, p)), p)
  }

  predicate InLevel(k: nat, l: nat) {
    LevelStart(l) <= k < LevelStart(l + 1)
  }

  lemma {:induction false} LeafInLevel(l: nat, p: Point)
    ensures InLevel(Leaf(l, p), l)
  {
    if l > 0 {
      LeafInLevel(l - 1, p);
      LevelStartStep(l - 1);
      LevelStartStep(l);
    }
  }

  lemma ParentLevel(k: nat, l: nat)
    requires k > 0 && InLevel(k, l)
    ensures l > 0 && InLevel(Parent(k), l - 1)
  {
    if l > 0 {
      LevelStartStep(l - 1);
      LevelStartStep(l);
    }
  }

  lemma {:induction false} LevelOfInLevel(k: nat, l: nat)
    requires InLevel(k, l)
    ensures LevelOf(k) == l
    decreases l
  {
    if k == 0 {
      LevelPositive(l);
    } else {
      ParentLevel(k, l);
      LevelOfInLevel(Parent(k), l - 1);
    }
  }

  lemma LevelPositive(l: nat)
    ensures LevelStart(l) == 0 <==> l == 0
  {}

  /** Exactly one cube of each level holds a given point of the root. */
  lemma {:induction false} LevelPartition(l: nat, k: nat, p: Point)
    requires InLevel(k, l) && ROOT.Has(p)
    ensures Geometry(k).Has(p) <==> k == Leaf(l, p)
    decreases l
  {
    if l == 0 {
      assert k == 0;
    } else {
      LevelPositive(l);
      ParentLevel(k, l);
      LevelPartition(l - 1, Parent(k), p);
      GeometryStep(k, p);
    }
  }

  // --------------------------------------------------------- weights are conserved

  /** Some weight that bodies carry. */
  type Weight<!B> = B -> real

  function Total<B>(bodies: seq<B>, f: Weight<B>): real {
    if bodies == [] then 0.0 else Total(bodies[..|bodies|-1], f) + f(bodies[|bodies|-1])
  }

  function Inside<B>(bodies: seq<B>, at: B -> Point, box: Box): (r: seq<B>) {
    if bodies == [] then []
    else
      var n := |bodies| - 1;
      var rest := Inside(bodies[..n], at, box);
      if box.Has(at(bodies[n])) then rest + [bodies[n]] else rest
  }

  /** The weight in cubes lo .. hi-1. */
  function WeightIn<B>(bodies: seq<B>, at: B -> Point, f: Weight<B>, lo: nat, hi: nat): real
    requires lo <= hi
  {
    if lo == hi then 0.0 else WeightIn(bodies, at, f, lo, hi - 1) + Total(Inside(bodies, at, Geometry(hi - 1)), f)
  }

  lemma {:induction false} WeightOfNone<B>(at: B -> Point, f: Weight<B>, lo: nat, hi: nat)
    requires lo <= hi
    ensures WeightIn([], at, f, lo, hi) == 0.0
  {
    if lo < hi {
      WeightOfNone(at, f, lo, hi - 1);
    }
  }

  /** A body adds its weight to a range of cubes of one level exactly if its own cube is there. */
  lemma {:induction false} OneMoreBody<B>(bodies: seq<B>, at: B -> Point, f: Weight<B>, lo: nat, hi: nat, l: nat)
    requires bodies != [] && LevelStart(l) <= lo <= hi <= LevelStart(l + 1) && ROOT.Has(at(bodies[|bodies|-1]))
    ensures var b := bodies[|bodies|-1];
      WeightIn(bodies, at, f, lo, hi) == WeightIn(bodies[..|bodies|-1], at, f, lo, hi) +
        if lo <= Leaf(l, at(b)) < hi then f(b) else 0.0
  {
    if lo < hi {
      OneMoreBody(bodies, at, f, lo, hi - 1, l);
      LevelPartition(l, hi - 1, at(bodies[|bodies|-1]));
    }
  }

  /** Whatever weight bodies carry, the cubes of each level share it out without loss or double
      counting: masses, and also how often each body occurs. */
  lemma {:induction false} LevelKeepsWeight<B>(bodies: seq<B>, at: B -> Point, f: Weight<B>, l: nat)
    requires forall i :: 0 <= i < |bodies| ==> ROOT.Has(at(bodies[i]))
    ensures LevelStart(l) <= LevelStart(l + 1)
    ensures WeightIn(bodies, at, f, LevelStart(l), LevelStart(l + 1)) == Total(bodies, f)
  {
    if bodies == [] {
      WeightOfNone(at, f, LevelStart(l), LevelStart(l + 1));
    } else {
      var n := |bodies| - 1;
      LevelKeepsWeight(bodies[..n], at, f, l);
      OneMoreBody(bodies, at, f, LevelStart(l), LevelStart(l + 1), l);
      LeafInLevel(l, at(bodies[n]));
    }
  }

  // ----------------------------------------------------------------- deepest cube

  /** The last of the first n cubes that holds a point, or the root. */
  function Home(p: Point, n: nat): (k: nat)
    requires n >= 1
    ensures k < n && (k > 0 ==> Geometry(k).Has(p)) && forall j :: k < j < n ==> !Geometry(j).Has(p)
  {
    if n == 1 then 0 else if Geometry(n - 1).Has(p) then n - 1 else Home(p, n - 1)
  }

  /** In a tree of complete levels that is the cube of the last level. */
  lemma HomeIsLeaf(p: Point, l: nat)
    requires ROOT.Has(p)
    ensures LevelStart(l + 1) >= 1 && Home(p, LevelStart(l + 1)) == Leaf(l, p)
  {
    LeafInLevel(l, p);
    LevelPartition(l, Leaf(l, p), p);
    var k := Home(p, LevelStart(l + 1));
    if k != Leaf(l, p) {
      LevelPartition(l, k, p);
    }
  }
}
