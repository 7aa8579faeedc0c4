/**
 * The wireframe writers. Each one appends its points to the shared `positions`
 * list and stores its index values into `indices` from slot `indicesOffset`
 * on, every value being `positionOffset` plus the local number of one of its
 * points, so that several shapes can be packed into one mesh.
 *
 * `n` is the global circle resolution (circleVertexCount). Each writer is
 * specified by the point sequence of WireframePoints it appends and the index
 * sequence of WireframeIndices it stores; slots outside that range keep their
 * contents and the points already in `positions` are untouched.
 */
module WireframePrimitive {
  import opened Geometry
  import opened Buffers
  import opened WireframeSizes
  import opened WireframeIndices
  import opened WireframePoints

  /** One face of the cuboid: a closed loop through the four points base .. base + 3. */
  method WriteFaceCycle(indices: array<int>, indicesOffset: nat, base: int)
    modifies indices
    ensures indices[..] == Overlay(old(indices[..]), indicesOffset, FaceCycle(base))
  {
    ghost var a := indices[..];
    ghost var face := FaceCycle(base);
    assert face[..2] == [base, base + 1] && face[2..4] == [base + 1, base + 2];
    assert face[4..6] == [base + 2, base + 3] && face[6..] == [base + 3, base];
    var slot := indicesOffset;
    StorePair(indices, slot, base, base + 1);
    assert indices[..] == Overlay(a, slot, face[..2]);
    StorePair(indices, slot + 2, base + 1, base + 2);
    OverlayConcat(a, slot, face[..2], face[2..4]);
    assert face[..2] + face[2..4] == face[..4];
    assert indices[..] == Overlay(a, slot, face[..4]);
    StorePair(indices, slot + 4, base + 2, base + 3);
    OverlayConcat(a, slot, face[..4], face[4..6]);
    assert face[..4] + face[4..6] == face[..6];
    StorePair(indices, slot + 6, base + 3, base);
    OverlayConcat(a, slot, face[..6], face[6..]);
    assert face[..6] + face[6..] == face;
  }

  /** Four consecutive `positions.push` calls. */
  method PushFour(positions: PointList, p0: Vec3, p1: Vec3, p2: Vec3, p3: Vec3)
    modifies positions
    ensures positions.points == old(positions.points) + [p0, p1, p2, p3]
  {
    positions.Push(p0);
    positions.Push(p1);
    positions.Push(p2);
    positions.Push(p3);
  }

  method CreateCuboidWireframe(width: real, height: real, depth: real,
                               positions: PointList, positionOffset: nat,
                               indices: array<int>, indicesOffset: nat)
    modifies positions, indices
    ensures positions.points == old(positions.points) + CuboidPoints(width, height, depth)
    ensures indices[..] == Overlay(old(indices[..]), indicesOffset, CuboidIndices(positionOffset))
  {
    var halfWidth := width / 2.0;
    var halfHeight := height / 2.0;
    var halfDepth := depth / 2.0;
    ghost var before := positions.points;
    // Up
    PushFour(positions,
             Vec3(-halfWidth, halfHeight, -halfDepth), Vec3(halfWidth, halfHeight, -halfDepth),
             Vec3(halfWidth, halfHeight, halfDepth), Vec3(-halfWidth, halfHeight, halfDepth));
    // Down
    PushFour(positions,
             Vec3(-halfWidth, -halfHeight, -halfDepth), Vec3(halfWidth, -halfHeight, -halfDepth),
             Vec3(halfWidth, -halfHeight, halfDepth), Vec3(-halfWidth, -halfHeight, halfDepth));
    // Left
    PushFour(positions,
             Vec3(-halfWidth, halfHeight, -halfDepth), Vec3(-halfWidth, halfHeight, halfDepth),
             Vec3(-halfWidth, -halfHeight, halfDepth), Vec3(-halfWidth, -halfHeight, -halfDepth));
    // Right
    PushFour(positions,
             Vec3(halfWidth, halfHeight, -halfDepth), Vec3(halfWidth, halfHeight, halfDepth),
             Vec3(halfWidth, -halfHeight, halfDepth), Vec3(halfWidth, -halfHeight, -halfDepth));
    // Front
    PushFour(positions,
             Vec3(-halfWidth, halfHeight, halfDepth), Vec3(halfWidth, halfHeight, halfDepth),
             Vec3(halfWidth, -halfHeight, halfDepth), Vec3(-halfWidth, -halfHeight, halfDepth));
    // Back
    PushFour(positions,
             Vec3(-halfWidth, halfHeight, -halfDepth), Vec3(halfWidth, halfHeight, -halfDepth),
             Vec3(halfWidth, -halfHeight, -halfDepth), Vec3(-halfWidth, -halfHeight, -halfDepth));
    assert positions.points == before + CuboidPoints(width, height, depth);

    WriteCuboidIndices(indices, indicesOffset, positionOffset);
  }

  /** The six face loops of the cuboid, four points apart. */
  method WriteCuboidIndices(indices: array<int>, indicesOffset: nat, positionOffset: nat)
    modifies indices
    ensures indices[..] == Overlay(old(indices[..]), indicesOffset, CuboidIndices(positionOffset))
  {
    ghost var a := indices[..];
    ghost var f0, f1, f2 := FaceCycle(positionOffset), FaceCycle(positionOffset + 4), FaceCycle(positionOffset + 8);
    ghost var f3, f4, f5 := FaceCycle(positionOffset + 12), FaceCycle(positionOffset + 16), FaceCycle(positionOffset + 20);
    WriteFaceCycle(indices, indicesOffset, positionOffset);            // Up
    WriteFaceCycle(indices, indicesOffset + 8, positionOffset + 4);    // Down
    OverlayConcat(a, indicesOffset, f0, f1);
    WriteFaceCycle(indices, indicesOffset + 16, positionOffset + 8);   // Left
    OverlayConcat(a, indicesOffset, f0 + f1, f2);
    WriteFaceCycle(indices, indicesOffset + 24, positionOffset + 12);  // Right
    OverlayConcat(a, indicesOffset, f0 + f1 + f2, f3);
    WriteFaceCycle(indices, indicesOffset + 32, positionOffset + 16);  // Front
    OverlayConcat(a, indicesOffset, f0 + f1 + f2 + f3, f4);
    WriteFaceCycle(indices, indicesOffset + 40, positionOffset + 20);  // Back
    OverlayConcat(a, indicesOffset, f0 + f1 + f2 + f3 + f4, f5);
  }

  method CreateSphereWireframe(m: MathLib, n: nat, radius: real,
                               positions: PointList, positionOffset: nat,
                               indices: array<int>, indicesOffset: nat)
    modifies positions, indices
    ensures positions.points == old(positions.points) + SpherePoints(m, n, radius)
    ensures indices[..] == Overlay(old(indices[..]), indicesOffset, SphereIndices(n, positionOffset))
  {
    ghost var a := indices[..];
    ghost var c0, c1, c2 := CircleIndices(n, positionOffset), CircleIndices(n, positionOffset + n), CircleIndices(n, positionOffset + 2 * n);
    var shift := Origin;
    // X
    CreateCircleWireframe(m, n, radius, 0, shift, positions, positionOffset, indices, indicesOffset);
    // Y
    CreateCircleWireframe(m, n, radius, 1, shift, positions, positionOffset + n,
                          indices, indicesOffset + CircleIndexCount(n));
    OverlayConcat(a, indicesOffset, c0, c1);
    // Z
    CreateCircleWireframe(m, n, radius, 2, shift, positions, positionOffset + n * 2,
                          indices, indicesOffset + CircleIndexCount(n) * 2);
    OverlayConcat(a, indicesOffset, c0 + c1, c2);
  }

  /** The cone's four segments from the apex `indexBegin` to each of the four points after it. */
  method WriteApexFan(indices: array<int>, slot: nat, indexBegin: int)
    modifies indices
    ensures indices[..] == Overlay(old(indices[..]), slot, ApexFan(indexBegin))
  {
    ghost var b := indices[..];
    ghost var fan := ApexFan(indexBegin);
    assert fan[..2] == [indexBegin, indexBegin + 1] && fan[2..4] == [indexBegin, indexBegin + 2];
    assert fan[4..6] == [indexBegin, indexBegin + 3] && fan[6..] == [indexBegin, indexBegin + 4];
    StorePair(indices, slot, indexBegin, indexBegin + 1);
    assert indices[..] == Overlay(b, slot, fan[..2]);
    StorePair(indices, slot + 2, indexBegin, indexBegin + 2);
    OverlayConcat(b, slot, fan[..2], fan[2..4]);
    assert fan[..2] + fan[2..4] == fan[..4];
    assert indices[..] == Overlay(b, slot, fan[..4]);
    StorePair(indices, slot + 4, indexBegin, indexBegin + 3);
    OverlayConcat(b, slot, fan[..4], fan[4..6]);
    assert fan[..4] + fan[4..6] == fan[..6];
    StorePair(indices, slot + 6, indexBegin, indexBegin + 4);
    OverlayConcat(b, slot, fan[..6], fan[6..]);
    assert fan[..6] + fan[6..] == fan;
  }

  method CreateConeWireframe(m: MathLib, n: nat, radius: real, height: real,
                             positions: PointList, positionOffset: nat,
                             indices: array<int>, indicesOffset: nat)
    modifies positions, indices
    ensures positions.points == old(positions.points) + ConePoints(m, n, radius, height)
    ensures indices[..] == Overlay(old(indices[..]), indicesOffset, ConeIndices(n, positionOffset))
  {
    ghost var a := indices[..];
    var shift := Origin;

    // Y
    shift := shift.(y := -height);
    CreateCircleWireframe(m, n, radius, 1, shift, positions, positionOffset, indices, indicesOffset);

    ghost var ring := positions.points;
    positions.Push(Vec3(0.0, 0.0, 0.0));
    positions.Push(Vec3(-radius, -height, 0.0));
    positions.Push(Vec3(radius, -height, 0.0));
    positions.Push(Vec3(0.0, -height, radius));
    positions.Push(Vec3(0.0, -height, -radius));
    assert positions.points == ring + ConeAuxPoints(radius, height);
    var indexBegin := positionOffset + n;
    WriteApexFan(indices, indicesOffset + CircleIndexCount(n), indexBegin);
    OverlayConcat(a, indicesOffset, CircleIndices(n, positionOffset), ApexFan(indexBegin));
  }

  /**
   * Stores strut i of the cylinder, the segment between points
   * indexBegin + 2i and indexBegin + 2i + 1, after the struts written so far.
   */
  method WriteStrut(indices: array<int>, slot: nat, indexBegin: int, i: nat, ghost a: seq<int>)
    requires indices[..] == Overlay(a, slot, Range(indexBegin, 2 * i))
    modifies indices
    ensures indices[..] == Overlay(a, slot, Range(indexBegin, 2 * i + 2))
  {
    StorePair(indices, slot + i * 2, indexBegin + 2 * i, indexBegin + 2 * i + 1);
    OverlayConcat(a, slot, Range(indexBegin, 2 * i), [indexBegin + 2 * i, indexBegin + 2 * i + 1]);
    assert Range(indexBegin, 2 * i + 2) == Range(indexBegin, 2 * i) + [indexBegin + 2 * i, indexBegin + 2 * i + 1];
  }

  method CreateUnboundCylinderWireframe(m: MathLib, n: nat, radius: real,
                                        positions: PointList, positionOffset: nat,
                                        indices: array<int>, indicesOffset: nat)
    modifies positions, indices
    ensures positions.points == old(positions.points) + UnboundCylinderPoints(m, n, radius)
    ensures indices[..] == Overlay(old(indices[..]), indicesOffset, UnboundCylinderIndices(n, positionOffset))
  {
    ghost var a := indices[..];
    var height := StrutLength;
    var shift := Origin;

    // Y
    CreateCircleWireframe(m, n, radius, 1, shift, positions, positionOffset, indices, indicesOffset);

    ghost var ringPoints := positions.points;
    ghost var ringIndices := indices[..];
    var indexBegin := positionOffset + n;
    var slot := indicesOffset + CircleIndexCount(n);
    for i := 0 to 8
      invariant positions.points == ringPoints + StrutPoints(m, radius, i)
      invariant indices[..] == Overlay(ringIndices, slot, Range(indexBegin, 2 * i))
    {
      var radian := m.degreeToRadian((45 * i) as real);
      assert StrutTop(m, radius, i) == Vec3(radius * m.cos(radian), 0.0, radius * m.sin(radian));
      assert StrutBottom(m, radius, i) == Vec3(radius * m.cos(radian), -height, radius * m.sin(radian));
      positions.Push(Vec3(radius * m.cos(radian), 0.0, radius * m.sin(radian)));
      assert positions.points == ringPoints + StrutPoints(m, radius, i) + [StrutTop(m, radius, i)];
      positions.Push(Vec3(radius * m.cos(radian), -height, radius * m.sin(radian)));
      StrutPointsStep(m, radius, i);
      assert positions.points == ringPoints + StrutPoints(m, radius, i) + [StrutTop(m, radius, i), StrutBottom(m, radius, i)];

      WriteStrut(indices, slot, indexBegin, i, ringIndices);
    }
    OverlayConcat(a, indicesOffset, CircleIndices(n, positionOffset), Range(indexBegin, 16));
  }

  method CreateCapsuleWireframe(m: MathLib, n: nat, radius: real, height: real,
                                positions: PointList, positionOffset: nat,
                                indices: array<int>, indicesOffset: nat)
    modifies positions, indices
    ensures positions.points == old(positions.points) + CapsulePoints(m, n, radius, height)
    ensures indices[..] == Overlay(old(indices[..]), indicesOffset, CapsuleIndices(n, positionOffset))
  {
    ghost var a := indices[..];
    ghost var c0, c1 := CircleIndices(n, positionOffset), CircleIndices(n, positionOffset + n);
    ghost var e2, e0 := CircleIndices(n, positionOffset + 2 * n), CircleIndices(n, positionOffset + 3 * n);
    var circleIndicesCount := CircleIndexCount(n);
    var vertexCount := n;
    var shift := Origin;
    var halfHeight := height / 2.0;

    ghost var p := positions.points;
    ghost var top, bottom := CirclePoints(m, n, radius, 1, Vec3(0.0, height / 2.0, 0.0)), CirclePoints(m, n, radius, 1, Vec3(0.0, -height / 2.0, 0.0));
    ghost var side2, side0 := EllipsePoints(m, n, radius, height / 2.0, 2), EllipsePoints(m, n, radius, height / 2.0, 0);

    // Y-Top
    shift := shift.(y := halfHeight);
    assert shift == Vec3(0.0, height / 2.0, 0.0);
    CreateCircleWireframe(m, n, radius, 1, shift, positions, positionOffset, indices, indicesOffset);
    assert positions.points == p + top;

    // Y-Bottom
    shift := shift.(y := -halfHeight);
    assert shift == Vec3(0.0, -height / 2.0, 0.0);
    CreateCircleWireframe(m, n, radius, 1, shift, positions, positionOffset + vertexCount,
                          indices, indicesOffset + circleIndicesCount);
    AppendAssoc(p, top, bottom);

    // X-Elliptic
    CreateEllipticWireframe(m, n, radius, halfHeight, 2, positions, positionOffset + vertexCount * 2,
                            indices, indicesOffset + circleIndicesCount * 2);
    AppendAssoc(p, top + bottom, side2);

    // Z-Elliptic
    CreateEllipticWireframe(m, n, radius, halfHeight, 0, positions, positionOffset + vertexCount * 3,
                            indices, indicesOffset + circleIndicesCount * 2 + EllipticIndexCount(n));
    AppendAssoc(p, top + bottom + side2, side0);
    OverlayFour(a, indicesOffset, c0, c1, e2, e0);
  }

  /**
   * Stores segment i of a closed loop through n samples starting at
   * positionOffset, extending the loop's slots written so far by two.
   */
  method WriteLoopSegment(n: nat, i: nat, positionOffset: nat, indices: array<int>, indicesOffset: nat, ghost a: seq<int>)
    requires i < n
    requires indices[..] == Overlay(a, indicesOffset, CircleIndices(n, positionOffset)[..2 * i])
    modifies indices
    ensures indices[..] == Overlay(a, indicesOffset, CircleIndices(n, positionOffset)[..2 * i + 2])
  {
    ghost var c := CircleIndices(n, positionOffset);
    CircleSegment(n, positionOffset, i);
    var globalIndex := i + positionOffset;
    if i < n - 1 {
      StorePair(indices, indicesOffset + 2 * i, globalIndex, globalIndex + 1);
    } else {
      StorePair(indices, indicesOffset + 2 * i, globalIndex, positionOffset);
    }
    assert c[..2 * i + 2] == c[..2 * i] + c[2 * i .. 2 * i + 2];
    OverlayConcat(a, indicesOffset, c[..2 * i], c[2 * i .. 2 * i + 2]);
  }

  /** The `switch (axis)` of one circle sample: one point for axis 0, 1 or 2, nothing otherwise. */
  method PushCircleSample(m: MathLib, n: nat, radius: real, axis: int, shift: Vec3, i: nat, thetaDelta: real,
                          positions: PointList)
    requires i < n && thetaDelta == SampleAngle(m, n, i)
    modifies positions
    ensures positions.points == old(positions.points) + (if ValidAxis(axis) then [CirclePoint(m, n, radius, axis, shift, i)] else [])
  {
    match axis {
      case 0 =>
        assert CirclePoint(m, n, radius, axis, shift, i) == Vec3(shift.x, radius * m.cos(thetaDelta) + shift.y, radius * m.sin(thetaDelta) + shift.z);
        positions.Push(Vec3(shift.x, radius * m.cos(thetaDelta) + shift.y, radius * m.sin(thetaDelta) + shift.z));
      case 1 =>
        assert CirclePoint(m, n, radius, axis, shift, i) == Vec3(radius * m.cos(thetaDelta) + shift.x, shift.y, radius * m.sin(thetaDelta) + shift.z);
        positions.Push(Vec3(radius * m.cos(thetaDelta) + shift.x, shift.y, radius * m.sin(thetaDelta) + shift.z));
      case 2 =>
        assert CirclePoint(m, n, radius, axis, shift, i) == Vec3(radius * m.cos(thetaDelta) + shift.x, radius * m.sin(thetaDelta) + shift.y, shift.z);
        positions.Push(Vec3(radius * m.cos(thetaDelta) + shift.x, radius * m.sin(thetaDelta) + shift.y, shift.z));
      case _ =>
    }
  }

  /** The `switch (axis)` of one ellipse sample, raised or lowered by the current `offset`. */
  method PushEllipseSample(m: MathLib, n: nat, radius: real, ghost height: real, axis: int, i: nat, thetaDelta: real,
                           offset: real, positions: PointList)
    requires i < n && thetaDelta == SampleAngle(m, n, i) && offset == EllipseHeight(n, height, i)
    modifies positions
    ensures positions.points == old(positions.points) + (if ValidAxis(axis) then [EllipsePoint(m, n, radius, height, axis, i)] else [])
  {
    match axis {
      case 0 =>
        assert EllipsePoint(m, n, radius, height, axis, i) == Vec3(0.0, radius * m.sin(thetaDelta) + offset, radius * m.cos(thetaDelta));
        positions.Push(Vec3(0.0, radius * m.sin(thetaDelta) + offset, radius * m.cos(thetaDelta)));
      case 1 =>
        assert EllipsePoint(m, n, radius, height, axis, i) == Vec3(radius * m.cos(thetaDelta), offset, radius * m.sin(thetaDelta));
        positions.Push(Vec3(radius * m.cos(thetaDelta), offset, radius * m.sin(thetaDelta)));
      case 2 =>
        assert EllipsePoint(m, n, radius, height, axis, i) == Vec3(radius * m.cos(thetaDelta), radius * m.sin(thetaDelta) + offset, 0.0);
        positions.Push(Vec3(radius * m.cos(thetaDelta), radius * m.sin(thetaDelta) + offset, 0.0));
      case _ =>
    }
  }

  method CreateCircleWireframe(m: MathLib, n: nat, radius: real, axis: int, shift: Vec3,
                               positions: PointList, positionOffset: nat,
                               indices: array<int>, indicesOffset: nat)
    modifies positions, indices
    ensures positions.points == old(positions.points) + CirclePoints(m, n, radius, axis, shift)
    ensures indices[..] == Overlay(old(indices[..]), indicesOffset, CircleIndices(n, positionOffset))
  {
    ghost var a := indices[..];
    var twoPi := m.pi * 2.0;
    for i := 0 to n
      invariant positions.points == old(positions.points) + CircleSamples(m, n, radius, axis, shift, i)
      invariant indices[..] == Overlay(a, indicesOffset, CircleIndices(n, positionOffset)[..2 * i])
    {
      var countReciprocal := 1.0 / n as real;
      var v := i as real * countReciprocal;
      var thetaDelta := v * twoPi;

      PushCircleSample(m, n, radius, axis, shift, i, thetaDelta, positions);
      CircleSamplesStep(m, n, radius, axis, shift, i);

      WriteLoopSegment(n, i, positionOffset, indices, indicesOffset, a);
    }
    assert CircleIndices(n, positionOffset)[..2 * n] == CircleIndices(n, positionOffset);
  }

  method CreateEllipticWireframe(m: MathLib, n: nat, radius: real, height: real, axis: int,
                                 positions: PointList, positionOffset: nat,
                                 indices: array<int>, indicesOffset: nat)
    modifies positions, indices
    ensures positions.points == old(positions.points) + EllipsePoints(m, n, radius, height, axis)
    ensures indices[..] == Overlay(old(indices[..]), indicesOffset, CircleIndices(n, positionOffset))
  {
    ghost var a := indices[..];
    var twoPi := m.pi * 2.0;
    var offset := height;
    for i := 0 to n
      invariant positions.points == old(positions.points) + EllipseSamples(m, n, radius, height, axis, i)
      invariant indices[..] == Overlay(a, indicesOffset, CircleIndices(n, positionOffset)[..2 * i])
      invariant offset == EllipseHeight(n, height, i)
    {
      var countReciprocal := 1.0 / n as real;
      var v := i as real * countReciprocal;
      var thetaDelta := v * twoPi;

      PushEllipseSample(m, n, radius, height, axis, i, thetaDelta, offset, positions);
      EllipseSamplesStep(m, n, radius, height, axis, i);

      EllipseHeightStep(n, height, i);
      if i as real == n as real / 2.0 {
        offset := -offset;
      }

      WriteLoopSegment(n, i, positionOffset, indices, indicesOffset, a);
    }
    assert CircleIndices(n, positionOffset)[..2 * n] == CircleIndices(n, positionOffset);
  }

  /**
   * Called with positionOffset equal to the length of `positions`, a writer
   * names only the points that same call appends: its index values lie in
   * positionOffset .. positionOffset + (number of points appended) - 1.
   */
  lemma IndicesNameAppendedPoints(m: MathLib, n: nat, width: real, height: real, depth: real, radius: real,
                                  axis: int, shift: Vec3, o: int)
    requires ValidAxis(axis)
    ensures IndicesWithin(CircleIndices(n, o), o, o + |CirclePoints(m, n, radius, axis, shift)|)
    ensures IndicesWithin(CircleIndices(n, o), o, o + |EllipsePoints(m, n, radius, height, axis)|)
    ensures IndicesWithin(CuboidIndices(o), o, o + |CuboidPoints(width, height, depth)|)
    ensures IndicesWithin(SphereIndices(n, o), o, o + |SpherePoints(m, n, radius)|)
    ensures IndicesWithin(ConeIndices(n, o), o, o + |ConePoints(m, n, radius, height)|)
    ensures IndicesWithin(UnboundCylinderIndices(n, o), o, o + |UnboundCylinderPoints(m, n, radius)|)
    ensures IndicesWithin(CapsuleIndices(n, o), o, o + |CapsulePoints(m, n, radius, height)|)
  {
    IndicesReferToOwnPoints(n, o);
    CuboidCorners(width, height, depth);
    SphereCircles(m, n, radius);
    ConeParts(m, n, radius, height);
    UnboundCylinderParts(m, n, radius);
    CapsuleParts(m, n, radius, height);
  }
}
