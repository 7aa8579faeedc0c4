/**
 * The points each wireframe writer appends, in order. Coordinates that come
 * from cos and sin stay symbolic (they go through the MathLib parameter);
 * coordinates the writers set exactly (half-extents, the held coordinate of
 * a circle, the cone's auxiliary points, the strut heights) are stated as such.
 */
module WireframePoints {
  import opened Geometry

  // ---------------------------------------------------------------------------
  // Circle
  // ---------------------------------------------------------------------------

  /** The angle of sample i: i * (1 / n) * (2 * PI), as the circle and ellipse writers compute it. */
  function SampleAngle(m: MathLib, n: nat, i: nat): real
    requires i < n
  {
    (i as real * (1.0 / n as real)) * (m.pi * 2.0)
  }

  /** Sample i sits i / n of the way around a full turn of 2 * PI. */
  lemma SampleAngleFraction(m: MathLib, n: nat, i: nat)
    requires i < n
    ensures SampleAngle(m, n, i) * n as real == i as real * (m.pi * 2.0)
  {
    assert (1.0 / n as real) * n as real == 1.0;
  }

  /** The coordinate a circle about `axis` does not vary equals that of `shift`. */
  predicate HoldsShift(p: Vec3, axis: int, shift: Vec3) {
    && (axis == 0 ==> p.x == shift.x)
    && (axis == 1 ==> p.y == shift.y)
    && (axis == 2 ==> p.z == shift.z)
  }

  /** Sample i of the circle about `axis`: it keeps the shift's coordinate on that axis. */
  function CirclePoint(m: MathLib, n: nat, radius: real, axis: int, shift: Vec3, i: nat): (r: Vec3)
    requires i < n && ValidAxis(axis)
    ensures HoldsShift(r, axis, shift)
  {
    var theta := SampleAngle(m, n, i);
    if axis == 0 then Vec3(shift.x, radius * m.cos(theta) + shift.y, radius * m.sin(theta) + shift.z)
    else if axis == 1 then Vec3(radius * m.cos(theta) + shift.x, shift.y, radius * m.sin(theta) + shift.z)
    else Vec3(radius * m.cos(theta) + shift.x, radius * m.sin(theta) + shift.y, shift.z)
  }

  /**
   * The points the circle writer has appended after its first `count` samples:
   * one per sample for a valid axis, none at all for any other axis.
   */
  function CircleSamples(m: MathLib, n: nat, radius: real, axis: int, shift: Vec3, count: nat): (r: seq<Vec3>)
    requires count <= n
    ensures |r| == if ValidAxis(axis) then count else 0
    ensures forall p :: p in r ==> HoldsShift(p, axis, shift)
  {
    if ValidAxis(axis) then seq(count, i requires 0 <= i < count => CirclePoint(m, n, radius, axis, shift, i)) else []
  }

  /** One more sample appends one more point (for a valid axis). */
  lemma CircleSamplesStep(m: MathLib, n: nat, radius: real, axis: int, shift: Vec3, i: nat)
    requires i < n
    ensures CircleSamples(m, n, radius, axis, shift, i + 1) ==
      CircleSamples(m, n, radius, axis, shift, i) + (if ValidAxis(axis) then [CirclePoint(m, n, radius, axis, shift, i)] else [])
  {
    if ValidAxis(axis) {
      var next := CircleSamples(m, n, radius, axis, shift, i + 1);
      assert next == next[..i] + [next[i]];
      assert next[..i] == CircleSamples(m, n, radius, axis, shift, i);
    }
  }

  function CirclePoints(m: MathLib, n: nat, radius: real, axis: int, shift: Vec3): seq<Vec3> {
    CircleSamples(m, n, radius, axis, shift, n)
  }

  /** With cos^2 + sin^2 = 1, every circle point is at distance `radius` from `shift`. */
  lemma CirclePointsOnCircle(m: MathLib, n: nat, radius: real, axis: int, shift: Vec3)
    requires UnitCircleIdentity(m)
    ensures forall p :: p in CirclePoints(m, n, radius, axis, shift) ==> SquaredDistance(p, shift) == radius * radius
  {
    var pts := CirclePoints(m, n, radius, axis, shift);
    forall k | 0 <= k < |pts| ensures SquaredDistance(pts[k], shift) == radius * radius {
      var theta := SampleAngle(m, n, k);
      ScaledUnit(radius, m.cos(theta), m.sin(theta));
    }
  }

  // ---------------------------------------------------------------------------
  // Ellipse
  // ---------------------------------------------------------------------------

  /**
   * The height offset of ellipse sample i. The writer negates its height right
   * after pushing sample n / 2, a test that only an even n can pass.
   */
  function EllipseHeight(n: nat, height: real, i: nat): (r: real)
    ensures r == height || r == -height
    ensures i <= n / 2 ==> r == height
  {
    if n % 2 == 0 && i > n / 2 then -height else height
  }

  /** `i == vertexCount / 2` on JavaScript numbers holds exactly at the middle sample of an even count. */
  lemma HalfwayTest(n: nat, i: nat)
    ensures (i as real == n as real / 2.0) <==> (n % 2 == 0 && i == n / 2)
  {
    if i as real == n as real / 2.0 {
      assert n as real == 2.0 * i as real;
      assert n == 2 * i;
    }
    if n % 2 == 0 && i == n / 2 {
      assert n == 2 * i;
    }
  }

  /**
   * The writer's update of its height after pushing sample i: negated exactly
   * when `i == vertexCount / 2`, which moves from one sample's offset to the next.
   */
  lemma EllipseHeightStep(n: nat, height: real, i: nat)
    ensures EllipseHeight(n, height, i + 1) ==
      if i as real == n as real / 2.0 then -EllipseHeight(n, height, i) else EllipseHeight(n, height, i)
  {
    HalfwayTest(n, i);
  }

  /**
   * Sample i of the ellipse about `axis`, raised or lowered by its height
   * offset: axis 0 lies in the plane x = 0, axis 2 in z = 0, and axis 1 in the
   * horizontal plane at the offset.
   */
  function EllipsePoint(m: MathLib, n: nat, radius: real, height: real, axis: int, i: nat): (r: Vec3)
    requires i < n && ValidAxis(axis)
    ensures axis == 0 ==> r.x == 0.0
    ensures axis == 1 ==> r.y == EllipseHeight(n, height, i)
    ensures axis == 2 ==> r.z == 0.0
  {
    var theta := SampleAngle(m, n, i);
    var h := EllipseHeight(n, height, i);
    if axis == 0 then Vec3(0.0, radius * m.sin(theta) + h, radius * m.cos(theta))
    else if axis == 1 then Vec3(radius * m.cos(theta), h, radius * m.sin(theta))
    else Vec3(radius * m.cos(theta), radius * m.sin(theta) + h, 0.0)
  }

  /** The points the ellipse writer has appended after its first `count` samples. */
  function EllipseSamples(m: MathLib, n: nat, radius: real, height: real, axis: int, count: nat): (r: seq<Vec3>)
    requires count <= n
    ensures |r| == if ValidAxis(axis) then count else 0
    ensures forall p :: p in r ==> (axis == 0 ==> p.x == 0.0) && (axis == 2 ==> p.z == 0.0)
  {
    if ValidAxis(axis) then seq(count, i requires 0 <= i < count => EllipsePoint(m, n, radius, height, axis, i)) else []
  }

  /** One more sample appends one more point (for a valid axis). */
  lemma EllipseSamplesStep(m: MathLib, n: nat, radius: real, height: real, axis: int, i: nat)
    requires i < n
    ensures EllipseSamples(m, n, radius, height, axis, i + 1) ==
      EllipseSamples(m, n, radius, height, axis, i) + (if ValidAxis(axis) then [EllipsePoint(m, n, radius, height, axis, i)] else [])
  {
    if ValidAxis(axis) {
      var next := EllipseSamples(m, n, radius, height, axis, i + 1);
      assert next == next[..i] + [next[i]];
      assert next[..i] == EllipseSamples(m, n, radius, height, axis, i);
    }
  }

  function EllipsePoints(m: MathLib, n: nat, radius: real, height: real, axis: int): seq<Vec3> {
    EllipseSamples(m, n, radius, height, axis, n)
  }

  lemma ScaledUnit(radius: real, c: real, s: real)
    requires c * c + s * s == 1.0
    ensures (radius * c) * (radius * c) + (radius * s) * (radius * s) == radius * radius
  {
    assert (radius * c) * (radius * c) + (radius * s) * (radius * s) == radius * radius * (c * c + s * s);
  }

  lemma EllipsePointOnArc(m: MathLib, n: nat, radius: real, height: real, axis: int, i: nat)
    requires UnitCircleIdentity(m) && ValidAxis(axis) && i < n
    ensures SquaredDistance(EllipsePoint(m, n, radius, height, axis, i), Vec3(0.0, EllipseHeight(n, height, i), 0.0)) == radius * radius
  {
    var theta := SampleAngle(m, n, i);
    ScaledUnit(radius, m.cos(theta), m.sin(theta));
  }

  /**
   * The ellipse is two half-loops: for an even n, samples 0 .. n / 2 are
   * raised by `height` and the later ones lowered by it; for an odd n the
   * flip never happens and every sample is raised.
   */
  lemma EllipseHeightHalves(n: nat, height: real)
    ensures forall i: nat :: i < n && (n % 2 == 1 || i <= n / 2) ==> EllipseHeight(n, height, i) == height
    ensures forall i: nat :: n % 2 == 0 && n / 2 < i < n ==> EllipseHeight(n, height, i) == -height
  {
  }

  /** Each ellipse sample lies on the circle of `radius` about its own raised or lowered centre. */
  lemma EllipseHalves(m: MathLib, n: nat, radius: real, height: real, axis: int)
    requires UnitCircleIdentity(m) && ValidAxis(axis)
    ensures forall i: nat :: i < n ==>
      SquaredDistance(EllipsePoints(m, n, radius, height, axis)[i], Vec3(0.0, EllipseHeight(n, height, i), 0.0)) == radius * radius
  {
    var pts := EllipsePoints(m, n, radius, height, axis);
    forall i: nat | i < n
      ensures SquaredDistance(pts[i], Vec3(0.0, EllipseHeight(n, height, i), 0.0)) == radius * radius
    {
      assert pts[i] == EllipsePoint(m, n, radius, height, axis, i);
      EllipsePointOnArc(m, n, radius, height, axis, i);
    }
  }

  // ---------------------------------------------------------------------------
  // Cuboid
  // ---------------------------------------------------------------------------

  /** The 24 points of the cuboid writer, four per face: up, down, left, right, front, back. */
  function CuboidPoints(width: real, height: real, depth: real): seq<Vec3> {
    var w, h, d := width / 2.0, height / 2.0, depth / 2.0;
    [Vec3(-w, h, -d), Vec3(w, h, -d), Vec3(w, h, d), Vec3(-w, h, d)] +
    [Vec3(-w, -h, -d), Vec3(w, -h, -d), Vec3(w, -h, d), Vec3(-w, -h, d)] +
    [Vec3(-w, h, -d), Vec3(-w, h, d), Vec3(-w, -h, d), Vec3(-w, -h, -d)] +
    [Vec3(w, h, -d), Vec3(w, h, d), Vec3(w, -h, d), Vec3(w, -h, -d)] +
    [Vec3(-w, h, d), Vec3(w, h, d), Vec3(w, -h, d), Vec3(-w, -h, d)] +
    [Vec3(-w, h, -d), Vec3(w, h, -d), Vec3(w, -h, -d), Vec3(-w, -h, -d)]
  }

  /** A point of the cuboid face f: 0 up, 1 down, 2 left, 3 right, 4 front, 5 back. */
  predicate OnFace(p: Vec3, f: int, width: real, height: real, depth: real) {
    if f == 0 then p.y == height / 2.0
    else if f == 1 then p.y == -height / 2.0
    else if f == 2 then p.x == -width / 2.0
    else if f == 3 then p.x == width / 2.0
    else if f == 4 then p.z == depth / 2.0
    else p.z == -depth / 2.0
  }

  predicate IsCorner(p: Vec3, width: real, height: real, depth: real) {
    && (p.x == width / 2.0 || p.x == -width / 2.0)
    && (p.y == height / 2.0 || p.y == -height / 2.0)
    && (p.z == depth / 2.0 || p.z == -depth / 2.0)
  }

  /**
   * The cuboid writer appends 24 corners of the box centred on the origin,
   * four per face, every group of four lying in its face's plane; the top
   * face comes first, in the order (-w, h, -d), (w, h, -d), (w, h, d), (-w, h, d)
   * of half-extents.
   */
  lemma CuboidCorners(width: real, height: real, depth: real)
    ensures |CuboidPoints(width, height, depth)| == 24
    ensures CuboidPoints(width, height, depth)[..4] ==
      [ Vec3(-width / 2.0, height / 2.0, -depth / 2.0), Vec3(width / 2.0, height / 2.0, -depth / 2.0),
        Vec3(width / 2.0, height / 2.0, depth / 2.0), Vec3(-width / 2.0, height / 2.0, depth / 2.0) ]
    ensures forall k :: 0 <= k < 24 ==>
      IsCorner(CuboidPoints(width, height, depth)[k], width, height, depth) &&
      OnFace(CuboidPoints(width, height, depth)[k], k / 4, width, height, depth)
  {
  }

  // ---------------------------------------------------------------------------
  // Sphere
  // ---------------------------------------------------------------------------

  function SpherePoints(m: MathLib, n: nat, radius: real): seq<Vec3> {
    CirclePoints(m, n, radius, 0, Origin) + CirclePoints(m, n, radius, 1, Origin) + CirclePoints(m, n, radius, 2, Origin)
  }

  /**
   * The sphere is three circles of n points about the origin, each in its own
   * coordinate plane: Y-Z first, then X-Z, then X-Y.
   */
  lemma SphereCircles(m: MathLib, n: nat, radius: real)
    ensures |SpherePoints(m, n, radius)| == 3 * n
    ensures forall p :: p in SpherePoints(m, n, radius)[..n] ==> p.x == 0.0
    ensures forall p :: p in SpherePoints(m, n, radius)[n .. 2 * n] ==> p.y == 0.0
    ensures forall p :: p in SpherePoints(m, n, radius)[2 * n ..] ==> p.z == 0.0
    ensures UnitCircleIdentity(m) ==>
      forall p :: p in SpherePoints(m, n, radius) ==> SquaredDistance(p, Origin) == radius * radius
  {
    var c0, c1, c2 := CirclePoints(m, n, radius, 0, Origin), CirclePoints(m, n, radius, 1, Origin), CirclePoints(m, n, radius, 2, Origin);
    var pts := SpherePoints(m, n, radius);
    assert pts[..n] == c0 && pts[n .. 2 * n] == c1 && pts[2 * n ..] == c2;
    if UnitCircleIdentity(m) {
      CirclePointsOnCircle(m, n, radius, 0, Origin);
      CirclePointsOnCircle(m, n, radius, 1, Origin);
      CirclePointsOnCircle(m, n, radius, 2, Origin);
    }
  }

  // ---------------------------------------------------------------------------
  // Cone
  // ---------------------------------------------------------------------------

  /** The apex, then the four points of the base rim on the X and Z axes. */
  function ConeAuxPoints(radius: real, height: real): seq<Vec3> {
    [Origin, Vec3(-radius, -height, 0.0), Vec3(radius, -height, 0.0), Vec3(0.0, -height, radius), Vec3(0.0, -height, -radius)]
  }

  function ConePoints(m: MathLib, n: nat, radius: real, height: real): seq<Vec3> {
    CirclePoints(m, n, radius, 1, Vec3(0.0, -height, 0.0)) + ConeAuxPoints(radius, height)
  }

  /**
   * The cone is its base rim of n points at y = -height, then the apex at the
   * origin, then four points at distance `radius` from the base centre.
   */
  lemma ConeParts(m: MathLib, n: nat, radius: real, height: real)
    ensures |ConePoints(m, n, radius, height)| == n + 5
    ensures forall p :: p in ConePoints(m, n, radius, height)[..n] ==> p.y == -height
    ensures ConePoints(m, n, radius, height)[n] == Origin
    ensures forall p :: p in ConePoints(m, n, radius, height)[n + 1 ..] ==>
      p.y == -height && SquaredDistance(p, Vec3(0.0, -height, 0.0)) == radius * radius
  {
    var pts := ConePoints(m, n, radius, height);
    assert pts[..n] == CirclePoints(m, n, radius, 1, Vec3(0.0, -height, 0.0));
    assert pts[n + 1 ..] == ConeAuxPoints(radius, height)[1..];
  }

  // ---------------------------------------------------------------------------
  // Unbound cylinder
  // ---------------------------------------------------------------------------

  /** How far down the unbound cylinder's struts are drawn. */
  const StrutLength: real := 5.0

  /** The top of strut i, on the ring at y = 0, 45 * i degrees around it. */
  function StrutTop(m: MathLib, radius: real, i: nat): (r: Vec3)
    ensures r.y == 0.0
  {
    var radian := m.degreeToRadian((45 * i) as real);
    Vec3(radius * m.cos(radian), 0.0, radius * m.sin(radian))
  }

  /** The bottom of strut i: straight below its top, StrutLength down. */
  function StrutBottom(m: MathLib, radius: real, i: nat): (r: Vec3)
    ensures r.x == StrutTop(m, radius, i).x && r.z == StrutTop(m, radius, i).z
    ensures r.y == StrutTop(m, radius, i).y - StrutLength
  {
    var radian := m.degreeToRadian((45 * i) as real);
    Vec3(radius * m.cos(radian), -StrutLength, radius * m.sin(radian))
  }

  /** The top and bottom points of the first `count` struts, strut by strut. */
  function StrutPoints(m: MathLib, radius: real, count: nat): (r: seq<Vec3>)
    ensures |r| == 2 * count
  {
    seq(2 * count, k requires 0 <= k < 2 * count => if k % 2 == 0 then StrutTop(m, radius, k / 2) else StrutBottom(m, radius, k / 2))
  }

  /** One more strut appends its top point and then its bottom point. */
  lemma StrutPointsStep(m: MathLib, radius: real, i: nat)
    ensures StrutPoints(m, radius, i + 1) == StrutPoints(m, radius, i) + [StrutTop(m, radius, i), StrutBottom(m, radius, i)]
  {
    var next := StrutPoints(m, radius, i + 1);
    assert (2 * i) / 2 == i && (2 * i) % 2 == 0;
    assert (2 * i + 1) / 2 == i && (2 * i + 1) % 2 == 1;
    assert next == next[..2 * i] + [next[2 * i], next[2 * i + 1]];
    assert next[..2 * i] == StrutPoints(m, radius, i);
  }

  function UnboundCylinderPoints(m: MathLib, n: nat, radius: real): seq<Vec3> {
    CirclePoints(m, n, radius, 1, Origin) + StrutPoints(m, radius, 8)
  }

  /**
   * The cylinder is a ring of n points at y = 0, then eight struts: the pair
   * 2i, 2i + 1 is a top point at y = 0 and the point StrutLength below it.
   */
  lemma UnboundCylinderParts(m: MathLib, n: nat, radius: real)
    ensures |UnboundCylinderPoints(m, n, radius)| == n + 16
    ensures forall p :: p in UnboundCylinderPoints(m, n, radius)[..n] ==> p.y == 0.0
    ensures forall i :: 0 <= i < 8 ==>
      var top, bottom := StrutPoints(m, radius, 8)[2 * i], StrutPoints(m, radius, 8)[2 * i + 1];
      top.x == bottom.x && top.z == bottom.z && top.y == 0.0 && bottom.y == -StrutLength
    ensures UnboundCylinderPoints(m, n, radius)[n..] == StrutPoints(m, radius, 8)
  {
    var pts := UnboundCylinderPoints(m, n, radius);
    assert pts[..n] == CirclePoints(m, n, radius, 1, Origin);
    forall i | 0 <= i < 8
      ensures StrutPoints(m, radius, 8)[2 * i] == StrutTop(m, radius, i)
      ensures StrutPoints(m, radius, 8)[2 * i + 1] == StrutBottom(m, radius, i)
    {
      assert (2 * i) / 2 == i && (2 * i) % 2 == 0;
      assert (2 * i + 1) / 2 == i && (2 * i + 1) % 2 == 1;
    }
  }

  // ---------------------------------------------------------------------------
  // Capsule
  // ---------------------------------------------------------------------------

  function CapsulePoints(m: MathLib, n: nat, radius: real, height: real): seq<Vec3> {
    CirclePoints(m, n, radius, 1, Vec3(0.0, height / 2.0, 0.0)) +
    CirclePoints(m, n, radius, 1, Vec3(0.0, -height / 2.0, 0.0)) +
    EllipsePoints(m, n, radius, height / 2.0, 2) +
    EllipsePoints(m, n, radius, height / 2.0, 0)
  }

  /**
   * The capsule is a circle at y = height / 2, a circle at y = -height / 2,
   * an ellipse in the X-Y plane and an ellipse in the Y-Z plane, n points each.
   */
  lemma CapsuleParts(m: MathLib, n: nat, radius: real, height: real)
    ensures |CapsulePoints(m, n, radius, height)| == 4 * n
    ensures forall p :: p in CapsulePoints(m, n, radius, height)[..n] ==> p.y == height / 2.0
    ensures forall p :: p in CapsulePoints(m, n, radius, height)[n .. 2 * n] ==> p.y == -height / 2.0
    ensures CapsulePoints(m, n, radius, height)[2 * n .. 3 * n] == EllipsePoints(m, n, radius, height / 2.0, 2)
    ensures forall p :: p in CapsulePoints(m, n, radius, height)[2 * n .. 3 * n] ==> p.z == 0.0
    ensures CapsulePoints(m, n, radius, height)[3 * n ..] == EllipsePoints(m, n, radius, height / 2.0, 0)
    ensures forall p :: p in CapsulePoints(m, n, radius, height)[3 * n ..] ==> p.x == 0.0
  {
    var c0, c1 := CirclePoints(m, n, radius, 1, Vec3(0.0, height / 2.0, 0.0)), CirclePoints(m, n, radius, 1, Vec3(0.0, -height / 2.0, 0.0));
    var e2, e0 := EllipsePoints(m, n, radius, height / 2.0, 2), EllipsePoints(m, n, radius, height / 2.0, 0);
    var pts := CapsulePoints(m, n, radius, height);
    assert pts[..n] == c0 && pts[n .. 2 * n] == c1 && pts[2 * n .. 3 * n] == e2 && pts[3 * n ..] == e0;
  }
}
