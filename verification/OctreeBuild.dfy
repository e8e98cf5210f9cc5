/** Building the octree: heap-allocated cubes filled level by level from a list of bodies. */
module OctreeBuild {
  import opened OctreeGeometry

  class Body {
    const location: Point
    const mass: real
    var parent: Cube?

    constructor (location: Point, mass: real)
      ensures this.location == location && this.mass == mass && parent == null
    {
      this.location, this.mass, parent := location, mass, null;
    }
  }

  const ORIGIN := Point(0.0, 0.0, 0.0)

  /** The number, level, box and parent of a cube are set when it is made.  `initLocation` adds up
      the locations of its bodies; `sides` holds those of the six neighbour links that are set. */
  class Cube {
    const id: nat
    const level: nat
    const boundary: Box
    const parent: Cube?
    var mass: real
    var initLocation: Point
    var centerOfMass: Point
    var cubeMembers: seq<Cube>
    var bodyMembers: seq<Body>
    var sides: map<Side, Cube>

    constructor (id: nat, level: nat, boundary: Box, parent: Cube?)
      ensures this.id == id && this.level == level && this.boundary == boundary && this.parent == parent
      ensures IsEmpty(this) && cubeMembers == [] && sides == map[]
    {
      this.id, this.level, this.boundary, this.parent := id, level, boundary, parent;
      mass, initLocation, centerOfMass, cubeMembers, bodyMembers, sides := 0.0, ORIGIN, ORIGIN, [], [], map[];
    }
  }

  function At(b: Body): Point { b.location }
  function Mass(b: Body): real { b.mass }

  function Plus(p: Point, q: Point): Point { Point(p.x + q.x, p.y + q.y, p.z + q.z) }

  function Over(p: Point, m: real): Point
    requires m != 0.0
  {
    Point(p.x / m, p.y / m, p.z / m)
  }

  /** The sum of the locations of some bodies. */
  function Locations(bodies: seq<Body>): Point {
    Point(Total(bodies, (b: Body) => b.location.x), Total(bodies, (b: Body) => b.location.y), Total(bodies, (b: Body) => b.location.z))
  }

  // ------------------------------------------------------------ what a tree holds

  /** The root takes every body, each other cube the bodies in its box. */
  ghost function Members(bodies: seq<Body>, k: nat): seq<Body> {
    if k == 0 then bodies else Inside(bodies, At, Geometry(k))
  }

  ghost predicate CubeAt(octree: seq<Cube>, k: nat)
    requires k < |octree|
  {
    var c := octree[k];
    && c.id == k && c.level == LevelOf(k) && c.boundary == Geometry(k)
    && c.parent == if k == 0 then null else octree[Parent(k)]
  }

  ghost predicate Shape(octree: seq<Cube>) {
    octree != [] && forall k {:trigger CubeAt(octree, k)} :: 0 <= k < |octree| ==> CubeAt(octree, k)
  }

  ghost predicate Holds(c: Cube, members: seq<Body>)
    reads c
  {
    c.bodyMembers == members && c.mass == Total(members, Mass) && c.initLocation == Locations(members)
  }

  ghost predicate IsEmpty(c: Cube)
    reads c
  {
    Holds(c, []) && c.centerOfMass == ORIGIN
  }

  /** The centre is divided by the mass.  A cube without mass keeps its centre at the origin,
      except the root, for which the code divides by zero. */
  ghost predicate Centred(c: Cube)
    reads c
  {
    && (c.mass != 0.0 ==> c.centerOfMass == Over(c.initLocation, c.mass))
    && (c.mass == 0.0 && c.id > 0 ==> c.centerOfMass == ORIGIN)
  }

  ghost predicate FilledAt(octree: seq<Cube>, bodies: seq<Body>, n: nat, k: nat)
    requires k < |octree|
    reads octree
  {
    if k < n then Holds(octree[k], Members(bodies, k)) && Centred(octree[k]) else IsEmpty(octree[k])
  }

  /** The first n cubes are filled, the others still empty. */
  ghost predicate Filled(octree: seq<Cube>, bodies: seq<Body>, n: nat)
    reads octree
  {
    forall k {:trigger FilledAt(octree, bodies, n, k)} :: 0 <= k < |octree| ==> FilledAt(octree, bodies, n, k)
  }

  function SubCount(n: nat, k: nat): nat {
    if 8 * k + 9 <= n then 8 else if 8 * k + 1 <= n then n - (8 * k + 1) else 0
  }

  /** The sub-cubes of cube k among the first n cubes. */
  ghost function SubCubes(octree: seq<Cube>, n: nat, k: nat): seq<Cube>
    requires n <= |octree|
  {
    seq(SubCount(n, k), i requires 0 <= i < SubCount(n, k) => octree[8 * k + 1 + i])
  }

  ghost predicate LinkedAt(octree: seq<Cube>, n: nat, k: nat)
    requires n <= |octree| && k < |octree|
    reads octree
  {
    octree[k].cubeMembers == SubCubes(octree, n, k)
  }

  /** Every cube lists its sub-cubes among the first n. */
  ghost predicate Linked(octree: seq<Cube>, n: nat)
    requires n <= |octree|
    reads octree
  {
    forall k {:trigger LinkedAt(octree, n, k)} :: 0 <= k < |octree| ==> LinkedAt(octree, n, k)
  }

  ghost predicate HomeAt(octree: seq<Cube>, b: Body, n: nat)
    requires 1 <= n <= |octree|
    reads b
  {
    b.parent == octree[Home(b.location, n)]
  }

  /** Every body's parent is the deepest of the first n cubes that holds it. */
  ghost predicate Homes(octree: seq<Cube>, bodies: seq<Body>, n: nat)
    requires 1 <= n <= |octree|
    reads bodies
  {
    forall b {:trigger HomeAt(octree, b, n)} :: b in bodies ==> HomeAt(octree, b, n)
  }

  /** The sub-cubes of cube q that are linked to the i-th one, by side. */
  function LinkedTo(octree: seq<Cube>, q: nat, i: nat): map<Side, Cube>
    requires 8 * q + 8 < |octree|
  {
    map side: Side | Across(i, side) > 0 :: octree[8 * q + Across(i, side)]
  }

  /** The siblings linked to cube k. */
  ghost function Siblings(octree: seq<Cube>, k: nat): map<Side, Cube> {
    if k == 0 || 8 * Parent(k) + 8 >= |octree| then map[] else LinkedTo(octree, Parent(k), (k - 1) % 8 + 1)
  }

  ghost predicate SidesAt(octree: seq<Cube>, m: nat, k: nat)
    requires k < |octree|
    reads octree
  {
    octree[k].sides == if k < m then Siblings(octree, k) else map[]
  }

  /** The first m cubes are linked to their siblings, the others not yet. */
  ghost predicate Sided(octree: seq<Cube>, m: nat)
    reads octree
  {
    forall k {:trigger SidesAt(octree, m, k)} :: 0 <= k < |octree| ==> SidesAt(octree, m, k)
  }

  /** A tree of which n cubes are filled and m linked to their siblings. */
  ghost predicate Growing(octree: seq<Cube>, bodies: seq<Body>, n: nat, m: nat)
    reads octree, bodies
  {
    && Shape(octree) && 1 <= n <= |octree| && m <= |octree|
    && Filled(octree, bodies, n) && Linked(octree, n) && Homes(octree, bodies, n) && Sided(octree, m)
  }

  /** A tree whose first n cubes are complete. */
  ghost predicate Built(octree: seq<Cube>, bodies: seq<Body>, n: nat)
    reads octree, bodies
  {
    Growing(octree, bodies, n, |octree|)
  }

  // ---------------------------------------------------------------- scattering

  lemma {:induction false} InsideMember(bodies: seq<Body>, box: Box, b: Body)
    ensures b in Inside(bodies, At, box) <==> b in bodies && box.Has(b.location)
  {
    if bodies != [] {
      var n := |bodies| - 1;
      assert bodies == bodies[..n] + [bodies[n]];
      InsideMember(bodies[..n], box, b);
    }
  }

  /** Selecting by a box and then by a box within it is selecting by the inner one. */
  lemma {:induction false} InsideInside(bodies: seq<Body>, k: nat)
    requires k > 0
    ensures Inside(Inside(bodies, At, Geometry(Parent(k))), At, Geometry(k)) == Inside(bodies, At, Geometry(k))
  {
    if bodies != [] {
      var n := |bodies| - 1;
      InsideInside(bodies[..n], k);
      GeometryStep(k, bodies[n].location);
    }
  }

  /** A cube's bodies are found among its parent's. */
  lemma MembersStep(bodies: seq<Body>, k: nat)
    requires k > 0
    ensures Inside(Members(bodies, Parent(k)), At, Geometry(k)) == Members(bodies, k)
    ensures forall b :: b in bodies && Geometry(k).Has(b.location) ==> b in Members(bodies, Parent(k))
    ensures forall b :: b in Members(bodies, Parent(k)) ==> b in bodies
  {
    if Parent(k) > 0 {
      InsideInside(bodies, k);
      forall b | b in Members(bodies, Parent(k)) ensures b in bodies {
        InsideMember(bodies, Geometry(Parent(k)), b);
      }
      forall b | b in bodies && Geometry(k).Has(b.location) ensures b in Members(bodies, Parent(k)) {
        InsideMember(bodies, Geometry(Parent(k)), b);
        GeometryStep(k, b.location);
      }
    }
  }

  lemma LocationsStep(members: seq<Body>, b: Body)
    ensures Locations(members + [b]) == Plus(Locations(members), b.location)
    ensures Total(members + [b], Mass) == Total(members, Mass) + b.mass
  {
    assert (members + [b])[..|members|] == members;
  }

  method ScatterInto(members: seq<Body>, sub: Cube)
    requires IsEmpty(sub)
    modifies sub`mass, sub`bodyMembers, sub`initLocation, sub`centerOfMass, set b | b in members
    ensures Holds(sub, Inside(members, At, sub.boundary)) && Centred(sub)
    ensures forall b :: b in members ==> b.parent == if sub.boundary.Has(b.location) then sub else old(b.parent)
  {
    for i := 0 to |members|
      invariant Holds(sub, Inside(members[..i], At, sub.boundary)) && sub.centerOfMass == ORIGIN
      invariant forall b :: b in members ==>
        b.parent == if b in members[..i] && sub.boundary.Has(b.location) then sub else old(b.parent)
    {
      var b := members[i];
      assert members[..i + 1][..i] == members[..i];
      if b.location.x >= sub.boundary.x.lo && b.location.x < sub.boundary.x.hi
         && b.location.y >= sub.boundary.y.lo && b.location.y < sub.boundary.y.hi
         && b.location.z >= sub.boundary.z.lo && b.location.z < sub.boundary.z.hi {
        LocationsStep(sub.bodyMembers, b);
        sub.bodyMembers := sub.bodyMembers + [b];
        sub.mass := sub.mass + b.mass;
        sub.initLocation := Plus(sub.initLocation, b.location);
        b.parent := sub;
      }
    }
    assert members[..|members|] == members;
    if sub.mass != 0.0 {
      sub.centerOfMass := Over(sub.initLocation, sub.mass);
    }
  }

  lemma DistinctCubes(octree: seq<Cube>, j: nat, k: nat)
    requires Shape(octree) && j < |octree| && k < |octree| && j != k
    ensures octree[j] != octree[k]
  {
    assert CubeAt(octree, j) && CubeAt(octree, k);
  }

  lemma HomeStep(octree: seq<Cube>, p: Point, n: nat)
    requires Shape(octree) && 1 <= n < |octree|
    ensures octree[Home(p, n + 1)] == if octree[n].boundary.Has(p) then octree[n] else octree[Home(p, n)]
  {
    assert CubeAt(octree, n);
  }

  lemma LinkStep(octree: seq<Cube>, n: nat, k: nat)
    requires 1 <= n < |octree|
    ensures SubCubes(octree, n + 1, k) == SubCubes(octree, n, k) + if k == Parent(n) then [octree[n]] else []
  {}

  /** The next cube is linked to its parent. */
  method LinkCube(octree: seq<Cube>, bodies: seq<Body>, n: nat)
    requires Shape(octree) && 1 <= n < |octree| && Filled(octree, bodies, n) && Linked(octree, n) && Sided(octree, |octree|)
    modifies set c | c in octree
    ensures Filled(octree, bodies, n) && Linked(octree, n + 1) && Sided(octree, |octree|)
  {
    var parent := octree[(n - 1) / 8];
    parent.cubeMembers := parent.cubeMembers + [octree[n]];
    ghost var m, all := n + 1, |octree|;
    forall k | 0 <= k < |octree| ensures FilledAt(octree, bodies, n, k) && SidesAt(octree, all, k) {
      assert old(FilledAt(octree, bodies, n, k)) && old(SidesAt(octree, all, k));
    }
    forall k | 0 <= k < |octree| ensures LinkedAt(octree, m, k) {
      assert old(LinkedAt(octree, n, k));
      LinkStep(octree, n, k);
      if k != Parent(n) {
        DistinctCubes(octree, k, Parent(n));
      }
    }
  }

  /** Scattering into cube n from its parent, for all bodies of the tree. */
  method ScatterCube(octree: seq<Cube>, bodies: seq<Body>, n: nat)
    requires Shape(octree) && 1 <= n < |octree|
    requires Holds(octree[Parent(n)], Members(bodies, Parent(n))) && IsEmpty(octree[n])
    modifies octree[n], set b | b in bodies
    ensures Holds(octree[n], Members(bodies, n)) && Centred(octree[n])
    ensures octree[n].cubeMembers == old(octree[n].cubeMembers) && octree[n].sides == old(octree[n].sides)
    ensures forall b :: b in bodies ==>
      b.parent == if octree[n].boundary.Has(b.location) then octree[n] else old(b.parent)
  {
    assert CubeAt(octree, n);
    MembersStep(bodies, n);
    assert forall b :: b in octree[Parent(n)].bodyMembers ==> b in bodies;
    ScatterInto(octree[(n - 1) / 8].bodyMembers, octree[n]);
  }

  /** The next cube takes its bodies from its parent. */
  method FillCube(octree: seq<Cube>, bodies: seq<Body>, n: nat)
    requires Shape(octree) && 1 <= n < |octree|
    requires Filled(octree, bodies, n) && Linked(octree, n + 1) && Homes(octree, bodies, n) && Sided(octree, |octree|)
    modifies octree[n], set b | b in bodies
    ensures Built(octree, bodies, n + 1)
  {
    assert FilledAt(octree, bodies, n, Parent(n)) && FilledAt(octree, bodies, n, n);
    ScatterCube(octree, bodies, n);
    ghost var m, all := n + 1, |octree|;
    forall k | 0 <= k < |octree| ensures FilledAt(octree, bodies, m, k) && LinkedAt(octree, m, k) && SidesAt(octree, all, k) {
      assert old(FilledAt(octree, bodies, n, k)) && old(LinkedAt(octree, m, k)) && old(SidesAt(octree, all, k));
      if k != n {
        DistinctCubes(octree, k, n);
      }
    }
    forall b | b in bodies ensures HomeAt(octree, b, m) {
      assert old(HomeAt(octree, b, n));
      HomeStep(octree, b.location, n);
    }
  }

  /** One more cube is complete. */
  method CompleteCube(octree: seq<Cube>, bodies: seq<Body>, n: nat)
    requires Built(octree, bodies, n) && n < |octree|
    modifies set c | c in octree, set b | b in bodies
    ensures Built(octree, bodies, n + 1)
  {
    LinkCube(octree, bodies, n);
    FillCube(octree, bodies, n);
  }

  /** The bodies of a cube are divided among its eight sub-cubes. */
  method DivideBodies(parent: Cube, bodies: seq<Body>, octree: seq<Cube>)
    requires parent.id < |octree| == 8 * parent.id + 9 && Built(octree, bodies, 8 * parent.id + 1)
    modifies set c | c in octree, set b | b in bodies
    ensures Built(octree, bodies, |octree|)
  {
    for i := 1 to 9
      invariant Built(octree, bodies, 8 * parent.id + i)
    {
      CompleteCube(octree, bodies, 8 * parent.id + i);
    }
  }

  // ------------------------------------------------------------------ new cubes

  lemma ChildOf(q: nat, i: nat)
    requires 1 <= i <= 8
    ensures Parent(8 * q + i) == q && (8 * q + i - 1) % 8 + 1 == i && Geometry(8 * q + i) == SubBox(Geometry(q), i) && LevelOf(8 * q + i) == LevelOf(q) + 1
  {}

  lemma ShapeGrows(octree: seq<Cube>, sub: Cube)
    requires Shape(octree) && CubeAt(octree + [sub], |octree|)
    ensures Shape(octree + [sub])
  {
    forall k | 0 <= k < |octree| + 1 ensures CubeAt(octree + [sub], k) {
      if k < |octree| {
        assert CubeAt(octree, k);
      }
    }
  }

  /** The siblings of a cube stay the same when others are appended. */
  lemma SiblingsStay(octree: seq<Cube>, sub: Cube, k: nat)
    requires k == 0 || 8 * Parent(k) + 8 < |octree|
    ensures Siblings(octree + [sub], k) == Siblings(octree, k)
  {}

  // What is known of a tree stays true when a new empty cube is appended.

  lemma FilledGrows(octree: seq<Cube>, bodies: seq<Body>, n: nat, sub: Cube)
    requires Filled(octree, bodies, n) && n <= |octree| && IsEmpty(sub)
    ensures Filled(octree + [sub], bodies, n)
  {
    forall k | 0 <= k < |octree| + 1 ensures FilledAt(octree + [sub], bodies, n, k) {
      if k < |octree| {
        assert FilledAt(octree, bodies, n, k);
      }
    }
  }

  lemma LinkedGrows(octree: seq<Cube>, n: nat, sub: Cube)
    requires n <= |octree| && Linked(octree, n) && sub.cubeMembers == []
    ensures Linked(octree + [sub], n)
  {
    forall k | 0 <= k < |octree| + 1 ensures LinkedAt(octree + [sub], n, k) {
      if k < |octree| {
        assert LinkedAt(octree, n, k);
      }
    }
  }

  lemma SidedGrows(octree: seq<Cube>, q: nat, sub: Cube)
    requires |octree| > 8 * q && Sided(octree, 8 * q + 1) && sub.sides == map[]
    ensures Sided(octree + [sub], 8 * q + 1)
  {
    var n := 8 * q + 1;
    forall k | 0 <= k < |octree| + 1 ensures SidesAt(octree + [sub], n, k) {
      if k < |octree| {
        assert SidesAt(octree, n, k);
        if k < n {
          SiblingsStay(octree, sub, k);
        }
      }
    }
  }

  lemma HomesStay(octree: seq<Cube>, bodies: seq<Body>, n: nat, sub: Cube)
    requires 1 <= n <= |octree| && Homes(octree, bodies, n)
    ensures Homes(octree + [sub], bodies, n)
  {
    forall b | b in bodies ensures HomeAt(octree + [sub], b, n) {
      assert HomeAt(octree, b, n);
    }
  }

  /** The i-th sub-cube of cube q is appended, still empty. */
  method AddCube(octree: seq<Cube>, ghost bodies: seq<Body>, q: nat, i: nat) returns (longer: seq<Cube>)
    requires 1 <= i <= 8 && q < |octree| == 8 * q + i && Growing(octree, bodies, 8 * q + 1, 8 * q + 1)
    ensures |longer| == |octree| + 1 && forall c :: c in longer ==> c in octree || fresh(c)
    ensures Growing(longer, bodies, 8 * q + 1, 8 * q + 1)
  {
    var p := octree[q];
    assert CubeAt(octree, q);
    ChildOf(q, i);
    var sub := new Cube(p.id * 8 + i, p.level + 1, SubBox(p.boundary, i), p);
    longer := octree + [sub];
    ShapeGrows(octree, sub);
    FilledGrows(octree, bodies, 8 * q + 1, sub);
    LinkedGrows(octree, 8 * q + 1, sub);
    SidedGrows(octree, q, sub);
    HomesStay(octree, bodies, 8 * q + 1, sub);
  }

  /** One more cube gets its links. */
  method SetSides(octree: seq<Cube>, q: nat, i: nat)
    requires Shape(octree) && |octree| == 8 * q + 9 && 1 <= i <= 8 && Sided(octree, 8 * q + i)
    modifies (set c | c in octree)`sides
    ensures Sided(octree, 8 * q + i + 1)
  {
    ghost var n, m := 8 * q + i, 8 * q + i + 1;
    ChildOf(q, i);
    octree[8 * q + i].sides := LinkedTo(octree, q, i);
    forall k | 0 <= k < |octree| ensures SidesAt(octree, m, k) {
      assert old(SidesAt(octree, n, k));
      if k != n {
        DistinctCubes(octree, k, n);
      }
    }
  }

  /** The eight sub-cubes of cube q get their links. */
  method LinkSiblings(octree: seq<Cube>, bodies: seq<Body>, q: nat)
    requires |octree| == 8 * q + 9 && Growing(octree, bodies, 8 * q + 1, 8 * q + 1)
    modifies (set c | c in octree)`sides
    ensures Built(octree, bodies, 8 * q + 1)
  {
    for i := 1 to 9
      invariant Sided(octree, 8 * q + i)
    {
      SetSides(octree, q, i);
    }
    ghost var n := 8 * q + 1;
    forall k | 0 <= k < |octree| ensures FilledAt(octree, bodies, n, k) && LinkedAt(octree, n, k) {
      assert old(FilledAt(octree, bodies, n, k)) && old(LinkedAt(octree, n, k));
    }
    forall b | b in bodies ensures HomeAt(octree, b, n) {
      assert old(HomeAt(octree, b, n));
    }
  }

  /** The eight sub-cubes of cube q are appended and linked. */
  method AddCubes(octree: seq<Cube>, bodies: seq<Body>, q: nat) returns (longer: seq<Cube>)
    requires q < |octree| == 8 * q + 1 && Built(octree, bodies, |octree|)
    modifies (set c | c in octree)`sides
    ensures |longer| == |octree| + 8 && forall c :: c in longer ==> c in octree || fresh(c)
    ensures Built(longer, bodies, |octree|)
  {
    longer := octree;
    for i := 1 to 9
      invariant |longer| == |octree| + i - 1
      invariant forall c :: c in longer ==> c in octree || fresh(c)
      invariant Growing(longer, bodies, 8 * q + 1, 8 * q + 1)
    {
      longer := AddCube(longer, bodies, q, i);
    }
    LinkSiblings(longer, bodies, q);
  }

  /** A cube is divided: its eight sub-cubes are appended, linked and take over its bodies. */
  method DivideCube(octree: seq<Cube>, bodies: seq<Body>, q: nat) returns (longer: seq<Cube>)
    requires q < |octree| == 8 * q + 1 && Built(octree, bodies, |octree|)
    modifies set c | c in octree, set b | b in bodies
    ensures |longer| == |octree| + 8 && forall c :: c in longer ==> c in octree || fresh(c)
    ensures Built(longer, bodies, |longer|)
  {
    longer := AddCubes(octree, bodies, q);
    assert CubeAt(longer, q);
    DivideBodies(longer[q], bodies, longer);
  }

  // --------------------------------------------------------------- index ranges

  /** The first number of a level, and the bound up to which its cubes are made. */
  method StartEnd(level: nat) returns (start: nat, end: nat)
    ensures start == LevelStart(level) && end == LevelEnd(level)
  {
    start := 0;
    var temp := level - 1;
    while temp >= 0
      invariant -1 <= temp < level && start + LevelStart(temp + 1) == LevelStart(level)
    {
      start := start + Pow8(temp);
      temp := temp - 1;
    }
    end := Pow8(level) + 9;
    if level == 1 {
      end := 9;
    }
  }

  function LevelEnd(level: nat): nat {
    if level == 1 then 9 else Pow8(level) + 9
  }

  /** The bound is where the next level starts at levels 1 and 2 only. */
  lemma LevelEndExact(level: nat)
    ensures LevelEnd(level) == LevelStart(level + 1) <==> level == 1 || level == 2
  {
    LevelConstants();
    if level >= 3 {
      LevelEndShort(level);
    }
  }

  lemma LevelConstants()
    ensures LevelStart(1) == 1 && LevelStart(2) == 9 && LevelStart(3) == 73 && LevelStart(4) == 585
    ensures LevelEnd(1) == 9 && LevelEnd(2) == 73 && LevelEnd(3) == 521 && LevelEnd(4) == 4105
  {
    assert Pow8(1) == 8 && Pow8(2) == 64 && Pow8(3) == 512 && Pow8(4) == 4096;
  }

  lemma {:induction false} LevelEndShort(level: nat)
    requires level >= 3
    ensures LevelEnd(level) < LevelStart(level + 1)
  {
    LevelConstants();
    if level > 3 {
      LevelEndShort(level - 1);
    }
  }

  // ------------------------------------------------------------------ the whole tree

  /** Cubes made for a given number of levels.  The fourth level is cut short. */
  function TreeSize(levels: int): nat
    requires levels <= 4
  {
    if levels <= 1 then 1 else if levels == 4 then 521 else LevelStart(levels)
  }

  method NewRoot(bodies: seq<Body>) returns (root: Cube)
    modifies set b | b in bodies
    ensures fresh(root) && Built([root], bodies, 1)
  {
    root := new Cube(0, 0, ROOT, null);
    for i := 0 to |bodies|
      invariant Holds(root, bodies[..i]) && root.cubeMembers == [] && root.sides == map[]
      invariant forall b :: b in bodies[..i] ==> b.parent == root
    {
      assert bodies[..i + 1] == bodies[..i] + [bodies[i]];
      LocationsStep(root.bodyMembers, bodies[i]);
      bodies[i].parent := root;
      root.bodyMembers := root.bodyMembers + [bodies[i]];
      root.mass := root.mass + bodies[i].mass;
      root.initLocation := Plus(root.initLocation, bodies[i].location);
    }
    assert bodies[..|bodies|] == bodies;
    var centre: Point := *;
    root.centerOfMass := if root.mass != 0.0 then Over(root.initLocation, root.mass) else centre;
    assert CubeAt([root], 0) && FilledAt([root], bodies, 1, 0) && LinkedAt([root], 1, 0) && SidesAt([root], 1, 0);
    forall b | b in bodies ensures HomeAt([root], b, 1) {}
  }

  /** The cubes from number start up to end, eight at a time.  Dividing cube p reads the cubes
      from number 8p+1 on; without success that would be past the end of the list. */
  method DivideLevel(octree: seq<Cube>, bodies: seq<Body>, start: nat, end: nat) returns (ok: bool, longer: seq<Cube>)
    requires Built(octree, bodies, |octree|) && start % 8 == 1 && start < end
    requires (start == |octree| && end % 8 == 1) || start >= |octree| + 8
    modifies set c | c in octree, set b | b in bodies
    ensures ok <==> start == |octree|
    ensures ok ==> |longer| == end && Built(longer, bodies, end) && forall c :: c in longer ==> c in octree || fresh(c)
  {
    longer := octree;
    var idx := start;
    while idx < end
      invariant idx % 8 == 1 && (start == |octree| ==> idx == |longer| <= end)
      invariant start != |octree| ==> idx == start && longer == octree
      invariant Built(longer, bodies, |longer|) && forall c :: c in longer ==> c in octree || fresh(c)
    {
      var parent := (idx - 1 + 7) / 8;
      idx := idx + 8;
      if 8 * parent + 1 >= |longer| + 8 {
        return false, longer;
      }
      longer := DivideCube(longer, bodies, parent);
    }
    ok := true;
  }

  /** The tree.  The code can build up to four levels; with more it reads past the end of the
      list of cubes, which is reported as failure here. */
  method CreateOctree(levelOctree: int, bodies: seq<Body>) returns (ok: bool, octree: seq<Cube>)
    modifies set b | b in bodies
    ensures ok <==> levelOctree <= 4
    ensures ok ==> |octree| == TreeSize(levelOctree) && Built(octree, bodies, |octree|)
  {
    LevelConstants();
    var root := NewRoot(bodies);
    octree := [root];
    var l := 1;
    while l < levelOctree
      invariant 1 <= l <= 4 && (l <= levelOctree || l == 1) && |octree| == TreeSize(l)
      invariant (forall c :: c in octree ==> fresh(c)) && Built(octree, bodies, |octree|)
    {
      var start, end := StartEnd(l);
      ok, octree := DivideLevel(octree, bodies, start, end);
      if !ok {
        return;
      }
      l := l + 1;
    }
    ok := true;
  }
}
