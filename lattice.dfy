// The lattice space of the initial-data generators: the domain predicates
// `in_domain_1d/2d/3d`, the inscribed radius, the generators that walk a
// rectangular, triangular, hexagonal or face-centred lattice and count (and
// optionally store) the points that fall inside the domain, and the selection
// of the generator by dimension. Coordinates are `real`; `sqrt(3)` and
// `sqrt(2/3)` are parameters.

module Lattice {
  import opened Wrappers

  /** A lattice point; the generators always store three coordinates. */
  datatype Point = Point(x: real, y: real, z: real)

  function Abs(v: real): real
  {
    if v < 0.0 then -v else v
  }

  function Sq(v: real): real
  {
    v * v
  }

  // ---------------------------------------------------------------------
  // Domain predicates. `domainType` 0 is a cube of half edge r, 1 a sphere
  // of radius r, 2 the whole bounding box. Any other value makes the
  // source fall off the end of a non-void function, so it is excluded.
  // ---------------------------------------------------------------------

  predicate InDomain1(x: real, x0: real, bboxMin: seq<real>, bboxMax: seq<real>,
                      r: real, domainType: int)
    requires |bboxMin| >= 1 && |bboxMax| >= 1
    requires 0 <= domainType <= 2
  {
    var withinDomain := !(x < bboxMin[0] || x > bboxMax[0]);
    if domainType == 0 then Abs(x - x0) <= r && withinDomain
    else if domainType == 1 then Sq(x - x0) < Sq(r) && withinDomain
    else withinDomain
  }

  predicate InDomain2(x: real, y: real, x0: real, y0: real,
                      bboxMin: seq<real>, bboxMax: seq<real>, r: real, domainType: int)
    requires |bboxMin| >= 2 && |bboxMax| >= 2
    requires 0 <= domainType <= 2
  {
    var withinDomain := !(x < bboxMin[0] || x > bboxMax[0]) && !(y < bboxMin[1] || y > bboxMax[1]);
    if domainType == 0 then Abs(x - x0) <= r && Abs(y - y0) <= r && withinDomain
    else if domainType == 1 then Sq(x - x0) + Sq(y - y0) < Sq(r) && withinDomain
    else withinDomain
  }

  predicate InDomain3(x: real, y: real, z: real, x0: real, y0: real, z0: real,
                      bboxMin: seq<real>, bboxMax: seq<real>, r: real, domainType: int)
    requires |bboxMin| >= 3 && |bboxMax| >= 3
    requires 0 <= domainType <= 2
  {
    var withinDomain := !(x < bboxMin[0] || x > bboxMax[0]) && !(y < bboxMin[1] || y > bboxMax[1])
                        && !(z < bboxMin[2] || z > bboxMax[2]);
    if domainType == 0 then Abs(x - x0) <= r && Abs(y - y0) <= r && Abs(z - z0) <= r && withinDomain
    else if domainType == 1 then
      Sq(x - x0) + Sq(y - y0) + Sq(z - z0) < Sq(r) && withinDomain
    else withinDomain
  }

  // A dimension-generic statement of the same three domains, over
  // coordinate sequences.

  predicate InBox(p: seq<real>, bboxMin: seq<real>, bboxMax: seq<real>)
    requires |p| <= |bboxMin| && |p| <= |bboxMax|
  {
    forall i :: 0 <= i < |p| ==> bboxMin[i] <= p[i] <= bboxMax[i]
  }

  predicate WithinCube(p: seq<real>, c: seq<real>, r: real)
    requires |p| == |c|
  {
    forall i :: 0 <= i < |p| ==> Abs(p[i] - c[i]) <= r
  }

  function SquaredDistance(p: seq<real>, c: seq<real>): real
    requires |p| == |c|
  {
    if |p| == 0 then 0.0
    else Sq(p[0] - c[0]) + SquaredDistance(p[1..], c[1..])
  }

  predicate InDomainReference(p: seq<real>, c: seq<real>, bboxMin: seq<real>, bboxMax: seq<real>,
                              r: real, domainType: int)
    requires |p| == |c| && |p| <= |bboxMin| && |p| <= |bboxMax|
  {
    && InBox(p, bboxMin, bboxMax)
    && (domainType == 0 ==> WithinCube(p, c, r))
    && (domainType == 1 ==> SquaredDistance(p, c) < Sq(r))
  }

  /** The domain a generator tests its points against. */
  datatype Region = Region(dims: nat, center: Point, bboxMin: seq<real>, bboxMax: seq<real>,
                           radius: real, domainType: int)

  predicate ValidRegion(g: Region)
  {
    1 <= g.dims <= 3 && |g.bboxMin| >= g.dims && |g.bboxMax| >= g.dims && 0 <= g.domainType <= 2
  }

  /** The first `dims` coordinates of `p`. */
  function Components(p: Point, dims: nat): (s: seq<real>)
    requires 1 <= dims <= 3
    ensures |s| == dims
  {
    if dims == 1 then [p.x] else if dims == 2 then [p.x, p.y] else [p.x, p.y, p.z]
  }

  /** The `in_domain_*` predicate of the region's dimension, applied to `p`. */
  predicate Inside(p: Point, g: Region)
    requires ValidRegion(g)
  {
    if g.dims == 1 then
      InDomain1(p.x, g.center.x, g.bboxMin, g.bboxMax, g.radius, g.domainType)
    else if g.dims == 2 then
      InDomain2(p.x, p.y, g.center.x, g.center.y, g.bboxMin, g.bboxMax, g.radius, g.domainType)
    else
      InDomain3(p.x, p.y, p.z, g.center.x, g.center.y, g.center.z,
                g.bboxMin, g.bboxMax, g.radius, g.domainType)
  }

  lemma SquaredDistanceThree(p: seq<real>, c: seq<real>)
    requires |p| == |c| == 3
    ensures SquaredDistance(p, c)
         == Sq(p[0] - c[0]) + Sq(p[1] - c[1]) + Sq(p[2] - c[2])
  {
    assert SquaredDistance(p[2..], c[2..]) == Sq(p[2] - c[2]) + SquaredDistance(p[3..], c[3..]);
    assert p[1..][1..] == p[2..] && c[1..][1..] == c[2..];
  }

  lemma InsideReference1(p: Point, g: Region)
    requires ValidRegion(g) && g.dims == 1
    ensures Inside(p, g)
        <==> InDomainReference([p.x], [g.center.x], g.bboxMin, g.bboxMax, g.radius, g.domainType)
  {
    var ps, cs := [p.x], [g.center.x];
    assert InBox(ps, g.bboxMin, g.bboxMax) <==> g.bboxMin[0] <= p.x <= g.bboxMax[0];
    assert WithinCube(ps, cs, g.radius) <==> Abs(p.x - g.center.x) <= g.radius;
    assert ps[1..] == [] && cs[1..] == [];
    assert SquaredDistance(ps, cs) == Sq(p.x - g.center.x);
  }

  lemma InsideReference2(p: Point, g: Region)
    requires ValidRegion(g) && g.dims == 2
    ensures Inside(p, g)
        <==> InDomainReference([p.x, p.y], [g.center.x, g.center.y], g.bboxMin, g.bboxMax, g.radius, g.domainType)
  {
    var ps, cs := [p.x, p.y], [g.center.x, g.center.y];
    assert InBox(ps, g.bboxMin, g.bboxMax)
       <==> g.bboxMin[0] <= p.x <= g.bboxMax[0] && g.bboxMin[1] <= p.y <= g.bboxMax[1];
    assert WithinCube(ps, cs, g.radius)
       <==> Abs(p.x - g.center.x) <= g.radius && Abs(p.y - g.center.y) <= g.radius;
    assert ps[1..] == [p.y] && cs[1..] == [g.center.y];
    assert ps[1..][1..] == [] && cs[1..][1..] == [];
    assert SquaredDistance(ps[1..], cs[1..]) == Sq(p.y - g.center.y);
  }

  lemma InsideReference3(p: Point, g: Region)
    requires ValidRegion(g) && g.dims == 3
    ensures Inside(p, g)
        <==> InDomainReference([p.x, p.y, p.z], [g.center.x, g.center.y, g.center.z],
                               g.bboxMin, g.bboxMax, g.radius, g.domainType)
  {
    var ps, cs := [p.x, p.y, p.z], [g.center.x, g.center.y, g.center.z];
    assert ps[0] == p.x && ps[1] == p.y && ps[2] == p.z;
    assert cs[0] == g.center.x && cs[1] == g.center.y && cs[2] == g.center.z;
    assert InBox(ps, g.bboxMin, g.bboxMax)
       <==> g.bboxMin[0] <= p.x <= g.bboxMax[0] && g.bboxMin[1] <= p.y <= g.bboxMax[1]
            && g.bboxMin[2] <= p.z <= g.bboxMax[2];
    assert WithinCube(ps, cs, g.radius)
       <==> Abs(p.x - g.center.x) <= g.radius && Abs(p.y - g.center.y) <= g.radius
            && Abs(p.z - g.center.z) <= g.radius;
    SquaredDistanceThree(ps, cs);
  }

  /**
   * Each `in_domain_*` predicate is the generic domain test: the point lies
   * in the bounding box, and for a cube every coordinate is within r of the
   * centre, for a sphere the squared distance is strictly below r squared.
   */
  lemma InsideReference(p: Point, g: Region)
    requires ValidRegion(g)
    ensures Inside(p, g)
        <==> InDomainReference(Components(p, g.dims), Components(g.center, g.dims),
                               g.bboxMin, g.bboxMax, g.radius, g.domainType)
  {
    if g.dims == 1 {
      InsideReference1(p, g);
    } else if g.dims == 2 {
      InsideReference2(p, g);
    } else {
      InsideReference3(p, g);
    }
  }

  /** Outside the bounding box no domain type accepts a point. */
  lemma OutsideBoxRejected(p: Point, g: Region)
    requires ValidRegion(g)
    requires !InBox(Components(p, g.dims), g.bboxMin, g.bboxMax)
    ensures !Inside(p, g)
  {
    InsideReference(p, g);
  }

  // ---------------------------------------------------------------------
  // The inscribed radius and the centre of the domain.
  // ---------------------------------------------------------------------

  /** The smallest extent among the first `n` dimensions, in loop order. */
  function MinExtent(bboxMin: seq<real>, bboxMax: seq<real>, n: nat): real
    requires 1 <= n <= |bboxMin| && n <= |bboxMax|
  {
    if n == 1 then bboxMax[0] - bboxMin[0]
    else
      var m := MinExtent(bboxMin, bboxMax, n - 1);
      if m > bboxMax[n - 1] - bboxMin[n - 1] then bboxMax[n - 1] - bboxMin[n - 1] else m
  }

  function InscribedRadiusOf(bboxMin: seq<real>, bboxMax: seq<real>, dims: nat, domainType: int): real
    requires 1 <= dims <= |bboxMin| && dims <= |bboxMax|
  {
    if domainType == 1 || domainType == 0 then 0.5 * MinExtent(bboxMin, bboxMax, dims) else 0.0
  }

  lemma {:induction false} MinExtentIsSmallest(bboxMin: seq<real>, bboxMax: seq<real>, n: nat)
    requires 1 <= n <= |bboxMin| && n <= |bboxMax|
    ensures forall j :: 0 <= j < n ==> MinExtent(bboxMin, bboxMax, n) <= bboxMax[j] - bboxMin[j]
    ensures exists j :: 0 <= j < n && MinExtent(bboxMin, bboxMax, n) == bboxMax[j] - bboxMin[j]
  {
    if n == 1 {
      assert MinExtent(bboxMin, bboxMax, n) == bboxMax[0] - bboxMin[0];
    } else {
      MinExtentIsSmallest(bboxMin, bboxMax, n - 1);
      var j :| 0 <= j < n - 1 && MinExtent(bboxMin, bboxMax, n - 1) == bboxMax[j] - bboxMin[j];
      if MinExtent(bboxMin, bboxMax, n - 1) > bboxMax[n - 1] - bboxMin[n - 1] {
        assert MinExtent(bboxMin, bboxMax, n) == bboxMax[n - 1] - bboxMin[n - 1];
      } else {
        assert MinExtent(bboxMin, bboxMax, n) == bboxMax[j] - bboxMin[j];
      }
    }
  }

  /**
   * For a cube or a sphere the radius is half the smallest extent: twice
   * it fits in every dimension and equals one of the extents. For the
   * whole-box domain it is 0.
   */
  lemma InscribedRadiusFits(bboxMin: seq<real>, bboxMax: seq<real>, dims: nat, domainType: int)
    requires 1 <= dims <= |bboxMin| && dims <= |bboxMax|
    ensures domainType != 0 && domainType != 1 ==> InscribedRadiusOf(bboxMin, bboxMax, dims, domainType) == 0.0
    ensures domainType == 0 || domainType == 1 ==>
              forall j :: 0 <= j < dims ==>
                2.0 * InscribedRadiusOf(bboxMin, bboxMax, dims, domainType) <= bboxMax[j] - bboxMin[j]
    ensures domainType == 0 || domainType == 1 ==>
              exists j :: 0 <= j < dims &&
                2.0 * InscribedRadiusOf(bboxMin, bboxMax, dims, domainType) == bboxMax[j] - bboxMin[j]
  {
    MinExtentIsSmallest(bboxMin, bboxMax, dims);
  }

  /** The radius of the inscribed sphere, as each generator computes it. */
  method InscribedRadius(bboxMin: seq<real>, bboxMax: seq<real>, dims: nat, domainType: int)
    returns (radius: real)
    requires 1 <= dims <= |bboxMin| && dims <= |bboxMax|
    ensures radius == InscribedRadiusOf(bboxMin, bboxMax, dims, domainType)
  {
    radius := 0.0;
    if domainType == 1 || domainType == 0 {
      radius := bboxMax[0] - bboxMin[0];
      var j := 1;
      while j < dims
        invariant 1 <= j <= dims
        invariant radius == MinExtent(bboxMin, bboxMax, j)
      {
        if radius > bboxMax[j] - bboxMin[j] {
          radius := bboxMax[j] - bboxMin[j];
        }
        j := j + 1;
      }
    }
    radius := 0.5 * radius;
  }

  /** The centre of the bounding box in the first `dims` dimensions. */
  function CenterOf(bboxMin: seq<real>, bboxMax: seq<real>, dims: nat): Point
    requires 1 <= dims <= |bboxMin| && dims <= |bboxMax|
  {
    Point((bboxMax[0] + bboxMin[0]) / 2.0,
          if dims >= 2 then (bboxMax[1] + bboxMin[1]) / 2.0 else 0.0,
          if dims >= 3 then (bboxMax[2] + bboxMin[2]) / 2.0 else 0.0)
  }

  function RegionOf(dims: nat, domainType: int, bboxMin: seq<real>, bboxMax: seq<real>): Region
    requires 1 <= dims <= |bboxMin| && dims <= |bboxMax|
  {
    Region(dims, CenterOf(bboxMin, bboxMax, dims), bboxMin, bboxMax,
           InscribedRadiusOf(bboxMin, bboxMax, dims, domainType), domainType)
  }

  // ---------------------------------------------------------------------
  // The points a generator visits, in loop order.
  // ---------------------------------------------------------------------

  /** How many more times a loop `for (v = from; v < to; v += step)` runs. */
  function StepsLeft(from: real, to: real, step: real): nat
    requires step > 0.0
  {
    if from < to then ((to - from) / step).Floor + 1 else 0
  }

  lemma ZeroFactor(t: real, s: real)
    requires s > 0.0 && t * s == 0.0
    ensures t == 0.0
  {
  }

  /** Removing one step from the distance removes one from the quotient. */
  lemma DivShift(a: real, s: real)
    requires s > 0.0
    ensures (a - s) / s == a / s - 1.0
  {
    var q, r := a / s, (a - s) / s;
    assert q * s == a && r * s == a - s;
    ZeroFactor(r - (q - 1.0), s);
  }

  lemma StepShrinks(from: real, to: real, step: real)
    requires step > 0.0 && from < to
    ensures StepsLeft(from + step, to, step) < StepsLeft(from, to, step)
  {
    DivShift(to - from, step);
    assert to - (from + step) == (to - from) - step;
  }

  /** The number of iterations of `for (v = from; v < to; v += step)`. */
  function Steps(from: real, to: real, step: real): nat
    requires step > 0.0
    decreases StepsLeft(from, to, step)
  {
    if from < to then
      StepShrinks(from, to, step);
      1 + Steps(from + step, to, step)
    else 0
  }

  /** The points of one row: x from `x0` while below `xmax`. */
  function Row(x0: real, xmax: real, dx: real, y: real, z: real): seq<Point>
    requires dx > 0.0
    decreases Steps(x0, xmax, dx)
  {
    if x0 < xmax then
      [Point(x0, y, z)] + Row(x0 + dx, xmax, dx, y, z)
    else []
  }

  /** Where a row starts: shifted by (yo - zl) half spacings on a staggered lattice. */
  function RowStart(stagger: bool, xbase: real, yo: real, zl: real, dx: real): real
  {
    if stagger then xbase + (yo - zl) * dx / 2.0 else xbase
  }

  /** The rows of one plane: y from `y0` while below `ymax`, `yo` alternating 0 and 1. */
  function Sheet(y0: real, ymax: real, dy: real, yo: real, stagger: bool,
                 xbase: real, xmax: real, dx: real, zl: real, z: real): seq<Point>
    requires dx > 0.0 && dy > 0.0
    decreases Steps(y0, ymax, dy)
  {
    if y0 < ymax then
      Row(RowStart(stagger, xbase, yo, zl, dx), xmax, dx, y0, z)
        + Sheet(y0 + dy, ymax, dy, 1.0 - yo, stagger, xbase, xmax, dx, zl, z)
    else []
  }

  /** The three-dimensional lattices. */
  datatype Layering = Rectangular | Hexagonal | FaceCentred

  /** Where the rows of a plane start in y, for layer counter `zl`. */
  function SheetStart(kind: Layering, ymin: real, zl: real, dy: real): real
  {
    if kind == Rectangular then ymin else ymin - zl * dy / 3.0
  }

  /** The next layer counter: hcp alternates 0 and 1, fcc cycles 0, 1, 2, 3. */
  function NextLayer(kind: Layering, zl: real): real
  {
    match kind
    case Rectangular => zl
    case Hexagonal => 1.0 - zl
    case FaceCentred => if zl < 3.0 then zl + 1.0 else 0.0
  }

  /** The planes of a three-dimensional lattice: z from `z0` while below `zmax`. */
  function Stack(kind: Layering, z0: real, zmax: real, dz: real, zl: real,
                 ymin: real, ymax: real, dy: real, xbase: real, xmax: real, dx: real): seq<Point>
    requires dx > 0.0 && dy > 0.0 && dz > 0.0
    decreases Steps(z0, zmax, dz)
  {
    if z0 < zmax then
      Sheet(SheetStart(kind, ymin, zl, dy), ymax, dy, 0.0, kind != Rectangular, xbase, xmax, dx, zl, z0)
        + Stack(kind, z0 + dz, zmax, dz, NextLayer(kind, zl), ymin, ymax, dy, xbase, xmax, dx)
    else []
  }

  /** The arguments every generator demands. */
  predicate LatticeInput(dims: nat, domainType: int, bboxMin: seq<real>, bboxMax: seq<real>,
                         sphSep: real, sqrt3: real, sqrtTwoThirds: real)
  {
    && 1 <= dims <= 3 && 0 <= domainType <= 2
    && |bboxMin| >= dims && |bboxMax| >= dims
    && sphSep > 0.0 && sqrt3 > 0.0 && sqrtTwoThirds > 0.0
  }

  lemma PositiveSteps(sphSep: real, sqrt3: real, sqrtTwoThirds: real)
    requires sphSep > 0.0 && sqrt3 > 0.0 && sqrtTwoThirds > 0.0
    ensures sphSep * sqrt3 / 2.0 > 0.0 && sphSep * sqrtTwoThirds > 0.0
  {
  }

  /** Every point a generator of dimension `dims` visits, in loop order. */
  function Candidates(dims: nat, latticeType: int, bboxMin: seq<real>, bboxMax: seq<real>,
                      sphSep: real, sqrt3: real, sqrtTwoThirds: real): seq<Point>
    requires LatticeInput(dims, 0, bboxMin, bboxMax, sphSep, sqrt3, sqrtTwoThirds)
  {
    PositiveSteps(sphSep, sqrt3, sqrtTwoThirds);
    var dx := sphSep;
    var dy := sphSep * sqrt3 / 2.0;
    var dz := sphSep * sqrtTwoThirds;
    if dims == 1 then
      Row(bboxMin[0], bboxMax[0], dx, 0.0, 0.0)
    else if dims == 2 then
      if latticeType == 0 then Sheet(bboxMin[1], bboxMax[1], dx, 0.0, false, bboxMin[0], bboxMax[0], dx, 0.0, 0.0)
      else Sheet(bboxMin[1], bboxMax[1], dy, 0.0, true, bboxMin[0], bboxMax[0], dx, 0.0, 0.0)
    else if latticeType == 0 then
      // z starts at the x minimum and x at the z minimum, as written
      Stack(Rectangular, bboxMin[0], bboxMax[2], dx, 0.0, bboxMin[1], bboxMax[1], dx, bboxMin[2], bboxMax[0], dx)
    else if latticeType == 1 then
      Stack(Hexagonal, bboxMin[2], bboxMax[2], dz, 0.0, bboxMin[1], bboxMax[1], dy, bboxMin[0], bboxMax[0], dx)
    else if latticeType == 2 then
      Stack(FaceCentred, bboxMin[2], bboxMax[2], dz, 0.0, bboxMin[1], bboxMax[1], dy, bboxMin[0], bboxMax[0], dx)
    else []
  }

  /** The visited points that lie in the domain, in loop order. */
  function Keep(ps: seq<Point>, g: Region): seq<Point>
    requires ValidRegion(g)
  {
    if ps == [] then []
    else (if Inside(ps[0], g) then [ps[0]] else []) + Keep(ps[1..], g)
  }

  /** The points a generator accepts, in the order it stores them. */
  function Accepted(dims: nat, latticeType: int, domainType: int, bboxMin: seq<real>, bboxMax: seq<real>,
                    sphSep: real, sqrt3: real, sqrtTwoThirds: real): seq<Point>
    requires LatticeInput(dims, domainType, bboxMin, bboxMax, sphSep, sqrt3, sqrtTwoThirds)
  {
    Keep(Candidates(dims, latticeType, bboxMin, bboxMax, sphSep, sqrt3, sqrtTwoThirds),
         RegionOf(dims, domainType, bboxMin, bboxMax))
  }

  lemma {:induction false} KeepAppend(a: seq<Point>, b: seq<Point>, g: Region)
    requires ValidRegion(g)
    ensures Keep(a + b, g) == Keep(a, g) + Keep(b, g)
  {
    if a == [] {
      assert a + b == b;
    } else {
      assert (a + b)[1..] == a[1..] + b;
      KeepAppend(a[1..], b, g);
    }
  }

  /** A point is kept exactly when it is visited and lies in the domain. */
  lemma {:induction false} KeepMembers(ps: seq<Point>, g: Region)
    requires ValidRegion(g)
    ensures forall p :: p in Keep(ps, g) <==> p in ps && Inside(p, g)
  {
    if ps != [] {
      KeepMembers(ps[1..], g);
      assert ps == [ps[0]] + ps[1..];
    }
  }

  // ---------------------------------------------------------------------
  // What the visited points look like.
  // ---------------------------------------------------------------------

  lemma {:induction false} RowMembers(x0: real, xmax: real, dx: real, y: real, z: real)
    requires dx > 0.0
    ensures forall p :: p in Row(x0, xmax, dx, y, z) ==> p.y == y && p.z == z && x0 <= p.x < xmax
    decreases Steps(x0, xmax, dx)
  {
    if x0 < xmax {
      RowMembers(x0 + dx, xmax, dx, y, z);
    }
  }

  /** Grid point `n` from `a` with spacing `d`, reached one spacing at a time. */
  function GridAt(a: real, d: real, n: nat): real
    decreases n
  {
    if n == 0 then a else GridAt(a + d, d, n - 1)
  }

  /** Grid point `n` is `a + n * d`. */
  lemma {:induction false} GridAtClosed(a: real, d: real, n: nat)
    ensures GridAt(a, d, n) == a + (n as real) * d
    decreases n
  {
    if n > 0 {
      GridAtClosed(a + d, d, n - 1);
      assert (a + d) + ((n - 1) as real) * d == a + (n as real) * d;
    }
  }

  /** With a positive spacing no grid point lies below the first. */
  lemma {:induction false} GridAtAbove(a: real, d: real, n: nat)
    requires d > 0.0
    ensures a <= GridAt(a, d, n)
    decreases n
  {
    if n > 0 {
      GridAtAbove(a + d, d, n - 1);
    }
  }

  /** Every grid point of the row below `xmax` is on the row. */
  lemma {:induction false} RowContains(x0: real, xmax: real, dx: real, y: real, z: real, i: nat)
    requires dx > 0.0 && GridAt(x0, dx, i) < xmax
    ensures Point(GridAt(x0, dx, i), y, z) in Row(x0, xmax, dx, y, z)
    decreases i
  {
    GridAtAbove(x0, dx, i);
    assert Row(x0, xmax, dx, y, z) == [Point(x0, y, z)] + Row(x0 + dx, xmax, dx, y, z);
    if i > 0 {
      RowContains(x0 + dx, xmax, dx, y, z, i - 1);
    }
  }

  lemma {:induction false} SheetMembers(y0: real, ymax: real, dy: real, yo: real, stagger: bool,
                                        xbase: real, xmax: real, dx: real, zl: real, z: real)
    requires dx > 0.0 && dy > 0.0
    ensures forall p :: p in Sheet(y0, ymax, dy, yo, stagger, xbase, xmax, dx, zl, z) ==>
              p.z == z && y0 <= p.y < ymax
    decreases Steps(y0, ymax, dy)
  {
    if y0 < ymax {
      RowMembers(RowStart(stagger, xbase, yo, zl, dx), xmax, dx, y0, z);
      SheetMembers(y0 + dy, ymax, dy, 1.0 - yo, stagger, xbase, xmax, dx, zl, z);
    }
  }

  /** On an unstaggered plane every grid point below the maxima is visited. */
  lemma {:induction false} SheetContains(y0: real, ymax: real, dy: real, yo: real,
                                         xbase: real, xmax: real, dx: real, zl: real, z: real, i: nat, j: nat)
    requires dx > 0.0 && dy > 0.0
    requires GridAt(xbase, dx, i) < xmax && GridAt(y0, dy, j) < ymax
    ensures Point(GridAt(xbase, dx, i), GridAt(y0, dy, j), z)
            in Sheet(y0, ymax, dy, yo, false, xbase, xmax, dx, zl, z)
    decreases j
  {
    GridAtAbove(y0, dy, j);
    var row := Row(xbase, xmax, dx, y0, z);
    var rest := Sheet(y0 + dy, ymax, dy, 1.0 - yo, false, xbase, xmax, dx, zl, z);
    assert Sheet(y0, ymax, dy, yo, false, xbase, xmax, dx, zl, z) == row + rest;
    if j == 0 {
      RowContains(xbase, xmax, dx, y0, z, i);
    } else {
      SheetContains(y0 + dy, ymax, dy, 1.0 - yo, xbase, xmax, dx, zl, z, i, j - 1);
    }
  }

  lemma {:induction false} StackMembers(kind: Layering, z0: real, zmax: real, dz: real, zl: real,
                                        ymin: real, ymax: real, dy: real, xbase: real, xmax: real, dx: real)
    requires dx > 0.0 && dy > 0.0 && dz > 0.0
    ensures forall p :: p in Stack(kind, z0, zmax, dz, zl, ymin, ymax, dy, xbase, xmax, dx) ==>
              z0 <= p.z < zmax
    decreases Steps(z0, zmax, dz)
  {
    if z0 < zmax {
      SheetMembers(SheetStart(kind, ymin, zl, dy), ymax, dy, 0.0, kind != Rectangular, xbase, xmax, dx, zl, z0);
      StackMembers(kind, z0 + dz, zmax, dz, NextLayer(kind, zl), ymin, ymax, dy, xbase, xmax, dx);
    }
  }

  /** A rectangular stack visits every grid point below the maxima. */
  lemma {:induction false} StackContains(z0: real, zmax: real, zl: real, ymin: real, ymax: real,
                                         xbase: real, xmax: real, d: real, i: nat, j: nat, k: nat)
    requires d > 0.0
    requires GridAt(xbase, d, i) < xmax && GridAt(ymin, d, j) < ymax && GridAt(z0, d, k) < zmax
    ensures Point(GridAt(xbase, d, i), GridAt(ymin, d, j), GridAt(z0, d, k))
            in Stack(Rectangular, z0, zmax, d, zl, ymin, ymax, d, xbase, xmax, d)
    decreases k
  {
    GridAtAbove(z0, d, k);
    var sheet := Sheet(ymin, ymax, d, 0.0, false, xbase, xmax, d, zl, z0);
    var rest := Stack(Rectangular, z0 + d, zmax, d, zl, ymin, ymax, d, xbase, xmax, d);
    assert Stack(Rectangular, z0, zmax, d, zl, ymin, ymax, d, xbase, xmax, d) == sheet + rest;
    if k == 0 {
      SheetContains(ymin, ymax, d, 0.0, xbase, xmax, d, zl, z0, i, j);
    } else {
      StackContains(z0 + d, zmax, zl, ymin, ymax, xbase, xmax, d, i, j, k - 1);
    }
  }

  /**
   * A generator accepts exactly the visited points that the generic domain
   * test admits.
   */
  lemma AcceptedExactly(dims: nat, latticeType: int, domainType: int, bboxMin: seq<real>, bboxMax: seq<real>,
                        sphSep: real, sqrt3: real, sqrtTwoThirds: real)
    requires LatticeInput(dims, domainType, bboxMin, bboxMax, sphSep, sqrt3, sqrtTwoThirds)
    ensures forall p :: p in Accepted(dims, latticeType, domainType, bboxMin, bboxMax, sphSep, sqrt3, sqrtTwoThirds)
              <==> p in Candidates(dims, latticeType, bboxMin, bboxMax, sphSep, sqrt3, sqrtTwoThirds)
                   && InDomainReference(Components(p, dims), Components(CenterOf(bboxMin, bboxMax, dims), dims),
                                        bboxMin, bboxMax, InscribedRadiusOf(bboxMin, bboxMax, dims, domainType),
                                        domainType)
  {
    var g := RegionOf(dims, domainType, bboxMin, bboxMax);
    KeepMembers(Candidates(dims, latticeType, bboxMin, bboxMax, sphSep, sqrt3, sqrtTwoThirds), g);
    forall p: Point {
      InsideReference(p, g);
    }
  }

  /** The 1-D generator stores y = z = 0 and the 2-D generator z = 0. */
  lemma AcceptedFlat(dims: nat, latticeType: int, domainType: int, bboxMin: seq<real>, bboxMax: seq<real>,
                     sphSep: real, sqrt3: real, sqrtTwoThirds: real)
    requires LatticeInput(dims, domainType, bboxMin, bboxMax, sphSep, sqrt3, sqrtTwoThirds)
    requires dims <= 2
    ensures forall p :: p in Accepted(dims, latticeType, domainType, bboxMin, bboxMax, sphSep, sqrt3, sqrtTwoThirds)
              ==> p.z == 0.0 && (dims == 1 ==> p.y == 0.0)
  {
    PositiveSteps(sphSep, sqrt3, sqrtTwoThirds);
    KeepMembers(Candidates(dims, latticeType, bboxMin, bboxMax, sphSep, sqrt3, sqrtTwoThirds),
                RegionOf(dims, domainType, bboxMin, bboxMax));
    if dims == 1 {
      RowMembers(bboxMin[0], bboxMax[0], sphSep, 0.0, 0.0);
    } else if latticeType == 0 {
      SheetMembers(bboxMin[1], bboxMax[1], sphSep, 0.0, false, bboxMin[0], bboxMax[0], sphSep, 0.0, 0.0);
    } else {
      SheetMembers(bboxMin[1], bboxMax[1], sphSep * sqrt3 / 2.0, 0.0, true, bboxMin[0], bboxMax[0], sphSep, 0.0, 0.0);
    }
  }

  // ---------------------------------------------------------------------
  // The 3-D rectangular lattice: as written its z loop starts at the x
  // minimum and its x loop at the z minimum.
  // ---------------------------------------------------------------------

  /** As written, no rectangular 3-D point lies below the x minimum in z. */
  lemma RectangularAsWrittenFloor(latticeType: int, bboxMin: seq<real>, bboxMax: seq<real>,
                                  sphSep: real, sqrt3: real, sqrtTwoThirds: real)
    requires LatticeInput(3, 0, bboxMin, bboxMax, sphSep, sqrt3, sqrtTwoThirds) && latticeType == 0
    ensures forall p :: p in Candidates(3, latticeType, bboxMin, bboxMax, sphSep, sqrt3, sqrtTwoThirds)
              ==> p.z >= bboxMin[0]
  {
    StackMembers(Rectangular, bboxMin[0], bboxMax[2], sphSep, 0.0, bboxMin[1], bboxMax[1], sphSep,
                 bboxMin[2], bboxMax[0], sphSep);
  }

  /** The rectangular 3-D lattice with each loop starting at its own minimum. */
  function IntendedRectangular(bboxMin: seq<real>, bboxMax: seq<real>, sphSep: real): seq<Point>
    requires |bboxMin| >= 3 && |bboxMax| >= 3 && sphSep > 0.0
  {
    Stack(Rectangular, bboxMin[2], bboxMax[2], sphSep, 0.0, bboxMin[1], bboxMax[1], sphSep,
          bboxMin[0], bboxMax[0], sphSep)
  }

  /** The intended lattice visits every grid point of spacing `sphSep` anchored at the box minimum. */
  lemma IntendedRectangularCoversGrid(bboxMin: seq<real>, bboxMax: seq<real>, sphSep: real, i: nat, j: nat, k: nat)
    requires |bboxMin| >= 3 && |bboxMax| >= 3 && sphSep > 0.0
    requires bboxMin[0] + (i as real) * sphSep < bboxMax[0]
    requires bboxMin[1] + (j as real) * sphSep < bboxMax[1]
    requires bboxMin[2] + (k as real) * sphSep < bboxMax[2]
    ensures Point(bboxMin[0] + (i as real) * sphSep, bboxMin[1] + (j as real) * sphSep,
                  bboxMin[2] + (k as real) * sphSep) in IntendedRectangular(bboxMin, bboxMax, sphSep)
  {
    GridAtClosed(bboxMin[0], sphSep, i);
    GridAtClosed(bboxMin[1], sphSep, j);
    GridAtClosed(bboxMin[2], sphSep, k);
    StackContains(bboxMin[2], bboxMax[2], 0.0, bboxMin[1], bboxMax[1], bboxMin[0], bboxMax[0], sphSep, i, j, k);
  }

  /**
   * In the box [0,1] x [0,1] x [-1,1] with spacing 1 and the whole-box
   * domain, the corner (0, 0, -1) is in the domain and on the intended
   * lattice, but the generator as written never visits it.
   */
  lemma RectangularAsWrittenMissesCorner()
    ensures var bboxMin, bboxMax := [0.0, 0.0, -1.0], [1.0, 1.0, 1.0];
            var corner := Point(0.0, 0.0, -1.0);
            && Inside(corner, RegionOf(3, 2, bboxMin, bboxMax))
            && corner in Keep(IntendedRectangular(bboxMin, bboxMax, 1.0), RegionOf(3, 2, bboxMin, bboxMax))
            && corner !in Accepted(3, 0, 2, bboxMin, bboxMax, 1.0, 1.0, 1.0)
  {
    var bboxMin, bboxMax := [0.0, 0.0, -1.0], [1.0, 1.0, 1.0];
    var corner := Point(0.0, 0.0, -1.0);
    var g := RegionOf(3, 2, bboxMin, bboxMax);
    IntendedRectangularCoversGrid(bboxMin, bboxMax, 1.0, 0, 0, 0);
    KeepMembers(IntendedRectangular(bboxMin, bboxMax, 1.0), g);
    RectangularAsWrittenFloor(0, bboxMin, bboxMax, 1.0, 1.0, 1.0);
    KeepMembers(Candidates(3, 0, bboxMin, bboxMax, 1.0, 1.0, 1.0), g);
  }

  // ---------------------------------------------------------------------
  // Storing the accepted points: the k-th accepted point goes to index
  // posid + k of the three coordinate arrays.
  // ---------------------------------------------------------------------

  /** The arrays the writing generators store into: distinct and long enough. */
  predicate Writable(x: array<real>, y: array<real>, z: array<real>, posid: int, n: int)
  {
    && x != y && y != z && x != z
    && 0 <= posid && posid + n <= x.Length && posid + n <= y.Length && posid + n <= z.Length
  }

  /** Point k of `pts` is at index posid + k of the coordinate sequences. */
  ghost predicate Stored(xs: seq<real>, ys: seq<real>, zs: seq<real>, posid: int, pts: seq<Point>)
  {
    && 0 <= posid && posid + |pts| <= |xs| && posid + |pts| <= |ys| && posid + |pts| <= |zs|
    && forall k :: 0 <= k < |pts| ==>
         xs[posid + k] == pts[k].x && ys[posid + k] == pts[k].y && zs[posid + k] == pts[k].z
  }

  /** `a` differs from `o` at most in the `n` slots from `posid` on, and nowhere when only counting. */
  ghost predicate Kept(a: seq<real>, o: seq<real>, countOnly: bool, posid: int, n: int)
  {
    |a| == |o| && forall i :: 0 <= i < |a| && (countOnly || i < posid || posid + n <= i) ==> a[i] == o[i]
  }

  /**
   * Coordinates `xs`, `ys`, `zs` are what storing `pts` from `posid` on
   * leaves in arrays that held `ox`, `oy`, `oz`: unless only counting, the
   * points are there, and every other entry is as it was.
   */
  ghost predicate Filled(xs: seq<real>, ys: seq<real>, zs: seq<real>, ox: seq<real>, oy: seq<real>, oz: seq<real>,
                         countOnly: bool, posid: int, pts: seq<Point>)
  {
    && Kept(xs, ox, countOnly, posid, |pts|) && Kept(ys, oy, countOnly, posid, |pts|)
    && Kept(zs, oz, countOnly, posid, |pts|)
    && (!countOnly ==> Stored(xs, ys, zs, posid, pts))
  }

  /** Nothing stored yet. */
  lemma FilledNone(xs: seq<real>, ys: seq<real>, zs: seq<real>, countOnly: bool, posid: int)
    requires !countOnly ==> 0 <= posid <= |xs| && posid <= |ys| && posid <= |zs|
    ensures Filled(xs, ys, zs, xs, ys, zs, countOnly, posid, [])
  {
  }

  /** Writing point `p` into the next free slot stores one more point. */
  lemma FilledWrite(xs: seq<real>, ys: seq<real>, zs: seq<real>, ox: seq<real>, oy: seq<real>, oz: seq<real>,
                    posid: int, done: seq<Point>, p: Point)
    requires Filled(xs, ys, zs, ox, oy, oz, false, posid, done)
    requires posid + |done| < |xs| && posid + |done| < |ys| && posid + |done| < |zs|
    ensures Filled(xs[posid + |done| := p.x], ys[posid + |done| := p.y], zs[posid + |done| := p.z],
                   ox, oy, oz, false, posid, done + [p])
  {
    var pts := done + [p];
    assert forall k :: 0 <= k < |done| ==> pts[k] == done[k];
  }

  /** When only counting, the arrays stay as they were whatever is counted. */
  lemma FilledCounting(xs: seq<real>, ys: seq<real>, zs: seq<real>, ox: seq<real>, oy: seq<real>, oz: seq<real>,
                       posid: int, done: seq<Point>, more: seq<Point>)
    requires Filled(xs, ys, zs, ox, oy, oz, true, posid, done)
    ensures Filled(xs, ys, zs, ox, oy, oz, true, posid, more)
  {
  }

  /** A block stored right after `done` extends it. */
  lemma FilledJoin(xb: seq<real>, yb: seq<real>, zb: seq<real>, xa: seq<real>, ya: seq<real>, za: seq<real>,
                   ox: seq<real>, oy: seq<real>, oz: seq<real>,
                   countOnly: bool, posid: int, done: seq<Point>, more: seq<Point>)
    requires Filled(xb, yb, zb, ox, oy, oz, countOnly, posid, done)
    requires Filled(xa, ya, za, xb, yb, zb, countOnly, posid + |done|, more)
    ensures Filled(xa, ya, za, ox, oy, oz, countOnly, posid, done + more)
  {
    var pts := done + more;
    assert forall k :: 0 <= k < |done| ==> pts[k] == done[k];
    assert forall k :: |done| <= k < |pts| ==> pts[k] == more[k - |done|];
  }

  // ---------------------------------------------------------------------
  // The generator loops.
  // ---------------------------------------------------------------------

  /** One step of a row: the point at `xp` is kept or dropped. */
  lemma RowAdvance(done: seq<Point>, xp: real, xmax: real, dx: real, yv: real, zv: real,
                   all: seq<Point>, g: Region)
    requires dx > 0.0 && ValidRegion(g) && xp < xmax
    requires done + Keep(Row(xp, xmax, dx, yv, zv), g) == all
    ensures Inside(Point(xp, yv, zv), g) ==> (done + [Point(xp, yv, zv)]) + Keep(Row(xp + dx, xmax, dx, yv, zv), g) == all
    ensures !Inside(Point(xp, yv, zv), g) ==> done + Keep(Row(xp + dx, xmax, dx, yv, zv), g) == all
  {
    var p := Point(xp, yv, zv);
    var rest := Row(xp + dx, xmax, dx, yv, zv);
    assert ([p] + rest)[1..] == rest;
  }

  /** One step of a plane: the row at `yp` is accounted for. */
  lemma SheetAdvance(done: seq<Point>, yp: real, ymax: real, dy: real, yo: real, stagger: bool,
                     xbase: real, xmax: real, dx: real, zl: real, zv: real, all: seq<Point>, g: Region)
    requires dx > 0.0 && dy > 0.0 && ValidRegion(g) && yp < ymax
    requires done + Keep(Sheet(yp, ymax, dy, yo, stagger, xbase, xmax, dx, zl, zv), g) == all
    ensures (done + Keep(Row(RowStart(stagger, xbase, yo, zl, dx), xmax, dx, yp, zv), g))
              + Keep(Sheet(yp + dy, ymax, dy, 1.0 - yo, stagger, xbase, xmax, dx, zl, zv), g) == all
    ensures |done| + |Keep(Row(RowStart(stagger, xbase, yo, zl, dx), xmax, dx, yp, zv), g)| <= |all|
  {
    var row := Row(RowStart(stagger, xbase, yo, zl, dx), xmax, dx, yp, zv);
    var rest := Sheet(yp + dy, ymax, dy, 1.0 - yo, stagger, xbase, xmax, dx, zl, zv);
    KeepAppend(row, rest, g);
  }

  /** One step of a stack: the plane at `zp` is accounted for. */
  lemma StackAdvance(done: seq<Point>, kind: Layering, zp: real, zmax: real, dz: real, zl: real,
                     ymin: real, ymax: real, dy: real, xbase: real, xmax: real, dx: real,
                     all: seq<Point>, g: Region)
    requires dx > 0.0 && dy > 0.0 && dz > 0.0 && ValidRegion(g) && zp < zmax
    requires done + Keep(Stack(kind, zp, zmax, dz, zl, ymin, ymax, dy, xbase, xmax, dx), g) == all
    ensures (done + Keep(Sheet(SheetStart(kind, ymin, zl, dy), ymax, dy, 0.0, kind != Rectangular,
                               xbase, xmax, dx, zl, zp), g))
              + Keep(Stack(kind, zp + dz, zmax, dz, NextLayer(kind, zl), ymin, ymax, dy, xbase, xmax, dx), g) == all
    ensures |done| + |Keep(Sheet(SheetStart(kind, ymin, zl, dy), ymax, dy, 0.0, kind != Rectangular,
                                 xbase, xmax, dx, zl, zp), g)| <= |all|
  {
    var sheet := Sheet(SheetStart(kind, ymin, zl, dy), ymax, dy, 0.0, kind != Rectangular, xbase, xmax, dx, zl, zp);
    var rest := Stack(kind, zp + dz, zmax, dz, NextLayer(kind, zl), ymin, ymax, dy, xbase, xmax, dx);
    KeepAppend(sheet, rest, g);
  }

  /**
   * The innermost loop: x from `x0` while below `xmax`. Like every scan
   * below it continues a running count: `before` are the points already
   * stored from `posid` on, `count0` of them, and the accepted points of
   * the row are appended after them.
   */
  method ScanRow(x0: real, xmax: real, dx: real, yv: real, zv: real, g: Region,
                 posid: int, count0: nat, countOnly: bool, x: array<real>, y: array<real>, z: array<real>,
                 ghost ox: seq<real>, ghost oy: seq<real>, ghost oz: seq<real>, ghost before: seq<Point>)
    returns (count: nat)
    requires dx > 0.0 && ValidRegion(g) && count0 == |before|
    requires !countOnly ==> Writable(x, y, z, posid, count0 + |Keep(Row(x0, xmax, dx, yv, zv), g)|)
    requires Filled(x[..], y[..], z[..], ox, oy, oz, countOnly, posid, before)
    modifies x, y, z
    ensures count == count0 + |Keep(Row(x0, xmax, dx, yv, zv), g)|
    ensures Filled(x[..], y[..], z[..], ox, oy, oz, countOnly, posid, before + Keep(Row(x0, xmax, dx, yv, zv), g))
  {
    ghost var all := before + Keep(Row(x0, xmax, dx, yv, zv), g);
    ghost var done := before;
    var xp := x0;
    count := count0;
    while xp < xmax
      invariant done + Keep(Row(xp, xmax, dx, yv, zv), g) == all
      invariant count == |done|
      invariant Filled(x[..], y[..], z[..], ox, oy, oz, countOnly, posid, done)
      decreases Steps(xp, xmax, dx)
    {
      var p := Point(xp, yv, zv);
      RowAdvance(done, xp, xmax, dx, yv, zv, all, g);
      if Inside(p, g) {
        if !countOnly {
          ghost var xb, yb, zb := x[..], y[..], z[..];
          FilledWrite(xb, yb, zb, ox, oy, oz, posid, done, p);
          x[posid + count] := xp;
          y[posid + count] := yv;
          z[posid + count] := zv;
          assert x[..] == xb[posid + count := xp] && y[..] == yb[posid + count := yv] && z[..] == zb[posid + count := zv];
        } else {
          FilledCounting(x[..], y[..], z[..], ox, oy, oz, posid, done, done + [p]);
        }
        count := count + 1;
        done := done + [p];
      }
      xp := xp + dx;
    }
  }

  /** The loop over the rows of a plane, `yo` alternating 0 and 1. */
  method ScanSheet(y0: real, ymax: real, dy: real, yo0: real, stagger: bool,
                   xbase: real, xmax: real, dx: real, zl: real, zv: real, g: Region,
                   posid: int, count0: nat, countOnly: bool, x: array<real>, y: array<real>, z: array<real>,
                   ghost ox: seq<real>, ghost oy: seq<real>, ghost oz: seq<real>, ghost before: seq<Point>)
    returns (count: nat)
    requires dx > 0.0 && dy > 0.0 && ValidRegion(g) && count0 == |before|
    requires !countOnly ==>
               Writable(x, y, z, posid, count0 + |Keep(Sheet(y0, ymax, dy, yo0, stagger, xbase, xmax, dx, zl, zv), g)|)
    requires Filled(x[..], y[..], z[..], ox, oy, oz, countOnly, posid, before)
    modifies x, y, z
    ensures count == count0 + |Keep(Sheet(y0, ymax, dy, yo0, stagger, xbase, xmax, dx, zl, zv), g)|
    ensures Filled(x[..], y[..], z[..], ox, oy, oz, countOnly, posid,
                   before + Keep(Sheet(y0, ymax, dy, yo0, stagger, xbase, xmax, dx, zl, zv), g))
  {
    ghost var all := before + Keep(Sheet(y0, ymax, dy, yo0, stagger, xbase, xmax, dx, zl, zv), g);
    ghost var done := before;
    var yp, yo := y0, yo0;
    count := count0;
    while yp < ymax
      invariant done + Keep(Sheet(yp, ymax, dy, yo, stagger, xbase, xmax, dx, zl, zv), g) == all
      invariant count == |done|
      invariant Filled(x[..], y[..], z[..], ox, oy, oz, countOnly, posid, done)
      decreases Steps(yp, ymax, dy)
    {
      var xs := RowStart(stagger, xbase, yo, zl, dx);
      SheetAdvance(done, yp, ymax, dy, yo, stagger, xbase, xmax, dx, zl, zv, all, g);
      count := ScanRow(xs, xmax, dx, yp, zv, g, posid, count, countOnly, x, y, z, ox, oy, oz, done);
      done := done + Keep(Row(xs, xmax, dx, yp, zv), g);
      yp, yo := yp + dy, 1.0 - yo;
    }
  }

  /** The loop over the planes of a 3-D lattice, with its layer counter. */
  method ScanStack(kind: Layering, z0: real, zmax: real, dz: real,
                   ymin: real, ymax: real, dy: real, xbase: real, xmax: real, dx: real, g: Region,
                   posid: int, count0: nat, countOnly: bool, x: array<real>, y: array<real>, z: array<real>,
                   ghost ox: seq<real>, ghost oy: seq<real>, ghost oz: seq<real>, ghost before: seq<Point>)
    returns (count: nat)
    requires dx > 0.0 && dy > 0.0 && dz > 0.0 && ValidRegion(g) && count0 == |before|
    requires !countOnly ==>
               Writable(x, y, z, posid,
                        count0 + |Keep(Stack(kind, z0, zmax, dz, 0.0, ymin, ymax, dy, xbase, xmax, dx), g)|)
    requires Filled(x[..], y[..], z[..], ox, oy, oz, countOnly, posid, before)
    modifies x, y, z
    ensures count == count0 + |Keep(Stack(kind, z0, zmax, dz, 0.0, ymin, ymax, dy, xbase, xmax, dx), g)|
    ensures Filled(x[..], y[..], z[..], ox, oy, oz, countOnly, posid,
                   before + Keep(Stack(kind, z0, zmax, dz, 0.0, ymin, ymax, dy, xbase, xmax, dx), g))
  {
    ghost var all := before + Keep(Stack(kind, z0, zmax, dz, 0.0, ymin, ymax, dy, xbase, xmax, dx), g);
    ghost var done := before;
    var zp, zl := z0, 0.0;
    count := count0;
    while zp < zmax
      invariant done + Keep(Stack(kind, zp, zmax, dz, zl, ymin, ymax, dy, xbase, xmax, dx), g) == all
      invariant count == |done|
      invariant Filled(x[..], y[..], z[..], ox, oy, oz, countOnly, posid, done)
      decreases Steps(zp, zmax, dz)
    {
      var ys := SheetStart(kind, ymin, zl, dy);
      StackAdvance(done, kind, zp, zmax, dz, zl, ymin, ymax, dy, xbase, xmax, dx, all, g);
      count := ScanSheet(ys, ymax, dy, 0.0, kind != Rectangular, xbase, xmax, dx, zl, zp, g,
                         posid, count, countOnly, x, y, z, ox, oy, oz, done);
      done := done + Keep(Sheet(ys, ymax, dy, 0.0, kind != Rectangular, xbase, xmax, dx, zl, zp), g);
      zp, zl := zp + dz, NextLayer(kind, zl);
    }
  }

  /**
   * `generate_lattice_1d`: counts the points of the row that lie in the
   * domain and, unless `countOnly`, stores them from `posid` on. The count
   * is the same in both modes. The lattice type is ignored.
   */
  method GenerateLattice1(latticeType: int, domainType: int, bboxMin: seq<real>, bboxMax: seq<real>,
                          sphSep: real, sqrt3: real, sqrtTwoThirds: real,
                          posid: int, countOnly: bool, x: array<real>, y: array<real>, z: array<real>)
    returns (tparticles: int)
    requires LatticeInput(1, domainType, bboxMin, bboxMax, sphSep, sqrt3, sqrtTwoThirds)
    requires !countOnly ==>
               Writable(x, y, z, posid,
                        |Accepted(1, latticeType, domainType, bboxMin, bboxMax, sphSep, sqrt3, sqrtTwoThirds)|)
    modifies x, y, z
    ensures tparticles == |Accepted(1, latticeType, domainType, bboxMin, bboxMax, sphSep, sqrt3, sqrtTwoThirds)|
    ensures Filled(x[..], y[..], z[..], old(x[..]), old(y[..]), old(z[..]), countOnly, posid,
                   Accepted(1, latticeType, domainType, bboxMin, bboxMax, sphSep, sqrt3, sqrtTwoThirds))
  {
    var radius := InscribedRadius(bboxMin, bboxMax, 1, domainType);
    var xc := (bboxMax[0] + bboxMin[0]) / 2.0;
    var g := Region(1, Point(xc, 0.0, 0.0), bboxMin, bboxMax, radius, domainType);
    assert g == RegionOf(1, domainType, bboxMin, bboxMax);
    FilledNone(x[..], y[..], z[..], countOnly, posid);
    var count := ScanRow(bboxMin[0], bboxMax[0], sphSep, 0.0, 0.0, g, posid, 0, countOnly, x, y, z,
                         x[..], y[..], z[..], []);
    ghost var accepted := Accepted(1, latticeType, domainType, bboxMin, bboxMax, sphSep, sqrt3, sqrtTwoThirds);
    assert [] + accepted == accepted;
    tparticles := count;
  }

  /**
   * `generate_lattice_2d`: a rectangular lattice of spacing `sphSep` for
   * lattice type 0, otherwise a triangular one whose rows are sqrt(3)/2
   * spacings apart and every other row shifted by half a spacing.
   */
  method GenerateLattice2(latticeType: int, domainType: int, bboxMin: seq<real>, bboxMax: seq<real>,
                          sphSep: real, sqrt3: real, sqrtTwoThirds: real,
                          posid: int, countOnly: bool, x: array<real>, y: array<real>, z: array<real>)
    returns (tparticles: int)
    requires LatticeInput(2, domainType, bboxMin, bboxMax, sphSep, sqrt3, sqrtTwoThirds)
    requires !countOnly ==>
               Writable(x, y, z, posid,
                        |Accepted(2, latticeType, domainType, bboxMin, bboxMax, sphSep, sqrt3, sqrtTwoThirds)|)
    modifies x, y, z
    ensures tparticles == |Accepted(2, latticeType, domainType, bboxMin, bboxMax, sphSep, sqrt3, sqrtTwoThirds)|
    ensures Filled(x[..], y[..], z[..], old(x[..]), old(y[..]), old(z[..]), countOnly, posid,
                   Accepted(2, latticeType, domainType, bboxMin, bboxMax, sphSep, sqrt3, sqrtTwoThirds))
  {
    var radius := InscribedRadius(bboxMin, bboxMax, 2, domainType);
    var xc := (bboxMax[0] + bboxMin[0]) / 2.0;
    var yc := (bboxMax[1] + bboxMin[1]) / 2.0;
    var g := Region(2, Point(xc, yc, 0.0), bboxMin, bboxMax, radius, domainType);
    assert g == RegionOf(2, domainType, bboxMin, bboxMax);
    PositiveSteps(sphSep, sqrt3, sqrtTwoThirds);
    var dx := sphSep;
    var dy := sphSep * sqrt3 / 2.0;
    FilledNone(x[..], y[..], z[..], countOnly, posid);
    var count;
    if latticeType == 0 {
      count := ScanSheet(bboxMin[1], bboxMax[1], dx, 0.0, false, bboxMin[0], bboxMax[0], dx, 0.0, 0.0,
                         g, posid, 0, countOnly, x, y, z, x[..], y[..], z[..], []);
    } else {
      count := ScanSheet(bboxMin[1], bboxMax[1], dy, 0.0, true, bboxMin[0], bboxMax[0], dx, 0.0, 0.0,
                         g, posid, 0, countOnly, x, y, z, x[..], y[..], z[..], []);
    }
    ghost var accepted := Accepted(2, latticeType, domainType, bboxMin, bboxMax, sphSep, sqrt3, sqrtTwoThirds);
    assert [] + accepted == accepted;
    tparticles := count;
  }

  /**
   * `generate_lattice_3d`: rectangular (type 0, loop starts as written),
   * hexagonal close packed (type 1) or face-centred cubic (type 2); any
   * other lattice type visits no point.
   */
  method GenerateLattice3(latticeType: int, domainType: int, bboxMin: seq<real>, bboxMax: seq<real>,
                          sphSep: real, sqrt3: real, sqrtTwoThirds: real,
                          posid: int, countOnly: bool, x: array<real>, y: array<real>, z: array<real>)
    returns (tparticles: int)
    requires LatticeInput(3, domainType, bboxMin, bboxMax, sphSep, sqrt3, sqrtTwoThirds)
    requires !countOnly ==>
               Writable(x, y, z, posid,
                        |Accepted(3, latticeType, domainType, bboxMin, bboxMax, sphSep, sqrt3, sqrtTwoThirds)|)
    modifies x, y, z
    ensures tparticles == |Accepted(3, latticeType, domainType, bboxMin, bboxMax, sphSep, sqrt3, sqrtTwoThirds)|
    ensures Filled(x[..], y[..], z[..], old(x[..]), old(y[..]), old(z[..]), countOnly, posid,
                   Accepted(3, latticeType, domainType, bboxMin, bboxMax, sphSep, sqrt3, sqrtTwoThirds))
  {
    var radius := InscribedRadius(bboxMin, bboxMax, 3, domainType);
    var xc := (bboxMax[0] + bboxMin[0]) / 2.0;
    var yc := (bboxMax[1] + bboxMin[1]) / 2.0;
    var zc := (bboxMax[2] + bboxMin[2]) / 2.0;
    var g := Region(3, Point(xc, yc, zc), bboxMin, bboxMax, radius, domainType);
    assert g == RegionOf(3, domainType, bboxMin, bboxMax);
    var xmin, xmax := bboxMin[0], bboxMax[0];
    var ymin, ymax := bboxMin[1], bboxMax[1];
    var zmin, zmax := bboxMin[2], bboxMax[2];
    PositiveSteps(sphSep, sqrt3, sqrtTwoThirds);
    var dx := sphSep;
    var dy := sphSep * sqrt3 / 2.0;
    var dz := sphSep * sqrtTwoThirds;
    FilledNone(x[..], y[..], z[..], countOnly, posid);
    var count := 0;
    if latticeType == 0 {
      count := ScanStack(Rectangular, xmin, zmax, dx, ymin, ymax, dx, zmin, xmax, dx, g, posid, 0, countOnly, x, y, z,
                         x[..], y[..], z[..], []);
    } else if latticeType == 1 {
      count := ScanStack(Hexagonal, zmin, zmax, dz, ymin, ymax, dy, xmin, xmax, dx, g, posid, 0, countOnly, x, y, z,
                         x[..], y[..], z[..], []);
    } else if latticeType == 2 {
      count := ScanStack(FaceCentred, zmin, zmax, dz, ymin, ymax, dy, xmin, xmax, dx, g, posid, 0, countOnly, x, y, z,
                         x[..], y[..], z[..], []);
    }
    ghost var accepted := Accepted(3, latticeType, domainType, bboxMin, bboxMax, sphSep, sqrt3, sqrtTwoThirds);
    assert [] + accepted == accepted;
    tparticles := count;
  }

  // ---------------------------------------------------------------------
  // Selecting the generator by dimension.
  // ---------------------------------------------------------------------

  datatype Generator = Lattice1D | Lattice2D | Lattice3D

  function Dimension(gen: Generator): nat
  {
    match gen
    case Lattice1D => 1
    case Lattice2D => 2
    case Lattice3D => 3
  }

  /** The generator `select_lat_dimension` installs; none outside 1..3. */
  function SelectLatDimension(gdimension: int): (r: Option<Generator>)
    ensures r.Some? <==> 1 <= gdimension <= 3
    ensures r.Some? ==> Dimension(r.value) == gdimension
  {
    if gdimension == 1 then Some(Lattice1D)
    else if gdimension == 2 then Some(Lattice2D)
    else if gdimension == 3 then Some(Lattice3D)
    else None
  }

  /** Every generator is the one selected for its own dimension. */
  lemma SelectRoundTrip(gen: Generator)
    ensures SelectLatDimension(Dimension(gen)) == Some(gen)
  {
  }

  /**
   * `call_generate_lattice`: runs the generator selected for `gdimension`;
   * with no generator installed the call has no defined behaviour.
   */
  method CallGenerateLattice(gdimension: int, latticeType: int, domainType: int,
                             bboxMin: seq<real>, bboxMax: seq<real>,
                             sphSep: real, sqrt3: real, sqrtTwoThirds: real,
                             posid: int, countOnly: bool, x: array<real>, y: array<real>, z: array<real>)
    returns (tparticles: int)
    requires SelectLatDimension(gdimension).Some?
    requires LatticeInput(gdimension, domainType, bboxMin, bboxMax, sphSep, sqrt3, sqrtTwoThirds)
    requires !countOnly ==>
               Writable(x, y, z, posid,
                        |Accepted(gdimension, latticeType, domainType, bboxMin, bboxMax, sphSep, sqrt3, sqrtTwoThirds)|)
    modifies x, y, z
    ensures tparticles
         == |Accepted(gdimension, latticeType, domainType, bboxMin, bboxMax, sphSep, sqrt3, sqrtTwoThirds)|
    ensures Filled(x[..], y[..], z[..], old(x[..]), old(y[..]), old(z[..]), countOnly, posid,
                   Accepted(gdimension, latticeType, domainType, bboxMin, bboxMax, sphSep, sqrt3, sqrtTwoThirds))
  {
    match SelectLatDimension(gdimension)
    case Some(Lattice1D) =>
      tparticles := GenerateLattice1(latticeType, domainType, bboxMin, bboxMax, sphSep, sqrt3, sqrtTwoThirds,
                                     posid, countOnly, x, y, z);
    case Some(Lattice2D) =>
      tparticles := GenerateLattice2(latticeType, domainType, bboxMin, bboxMax, sphSep, sqrt3, sqrtTwoThirds,
                                     posid, countOnly, x, y, z);
    case Some(Lattice3D) =>
      tparticles := GenerateLattice3(latticeType, domainType, bboxMin, bboxMax, sphSep, sqrt3, sqrtTwoThirds,
                                     posid, countOnly, x, y, z);
  }
}
