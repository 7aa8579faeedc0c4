# Wireframe primitive writer, modelled in Dafny

`WireframePrimitive` (packages/auxiliary-lines) writes the line-list geometry
of the auxiliary wireframes: cuboid, sphere, cone, unbound cylinder, capsule,
circle and ellipse. Every writer takes a shared, growing `positions` array and
a pre-sized typed index array. It appends its points to `positions` and
stores its index values from slot `indicesOffset` on. Each value is
`positionOffset` plus the local number of one of the writer's own points, so
several shapes can be packed into one mesh. Static size getters tell a caller
how many index slots each writer fills.

The program is one class in one file. The project is organised around that
class's size getters and writers, with specification modules for the two
buffers and for the point and index sequences the writers produce:

- `geometry.dfy` (`Geometry`): the point type `Vec3` and the `MathLib`
  parameter, which holds `Math.PI`, `Math.cos`, `Math.sin` and
  `MathUtil.degreeToRadian` as uninterpreted values.
- `buffers.dfy` (`Buffers`): the two caller-owned buffers.
  - `PointList` is the `positions` array; its `Push` appends.
  - `Store` is one typed-array store, and `Put` is its effect on the array's contents.
  - `Overlay` is the effect of a run of stores through a post-incremented offset.
- `wireframe_sizes.dfy` (`WireframeSizes`): the class's size getters.
- `wireframe_indices.dfy` (`WireframeIndices`): the index sequence each writer
  stores, as a function of the resolution `n` and of `positionOffset`. This
  module also holds the proofs of what those sequences mean as line segments:
  - closed loops;
  - face cycles;
  - the apex fan and the struts;
  - packing and translation.
- `wireframe_points.dfy` (`WireframePoints`): the point sequence each writer
  appends, with the exact coordinates stated:
  - half-extents;
  - held circle coordinates;
  - the cone's auxiliary points;
  - strut heights.
- `wireframe_primitive.dfy` (`WireframePrimitive`): the class's writers as imperative
  methods over a `PointList` and an `array<int>`. Each one ensures two things:
  - `positions` becomes its old contents followed by the writer's point sequence;
  - the index array becomes its old contents overlaid, from `indicesOffset`
    on, by the writer's index sequence. Every other slot is unchanged.

The global resolution `circleVertexCount` is a mutable static in the source. It
becomes the parameter `n` of every member that depends on it. Lemmas about the
loop structure require `n >= 1`; the writers accept any `n`.

One detail of the code that the model follows literally:

- The ellipse writer negates its height after pushing sample `n / 2`.
  - The halfway sample itself is still raised; only the later samples are lowered.
  - The test `i == vertexCount / 2` compares JavaScript numbers. An odd `n`
    therefore never flips, and every sample of its ellipse is raised.
  - `HalfwayTest` proves this reading of the comparison, and `EllipseHeightHalves` states both cases.

The cylinder's loop (lines 289-296 of WireframePrimitive.ts) stores strut i at
`indicesOffset + 2i` and `indicesOffset + 2i + 1` without advancing the offset;
`WriteStrut` writes exactly those two slots.

## Model

| member | source | states |
|---|---|---|
| WireframeSizes.SizeGettersAgree | packages/auxiliary-lines/src/WireframePrimitive.ts:13-57 | circle and ellipse counts are 2n; sphere is 3 circle counts (6n); cone is 2n + 8; cylinder is 2n + 16; capsule is 2 (circle + ellipse) = 8n; cuboid is 48 = 6 faces of 8 |
| WireframeSizes.CuboidIndexCount | packages/auxiliary-lines/src/WireframePrimitive.ts:13-15 | 48 slots: six faces of four segments |
| WireframeSizes.SphereIndexCount | packages/auxiliary-lines/src/WireframePrimitive.ts:20-22 | an even count of 3n segments: three loops of n |
| WireframeSizes.ConeIndexCount | packages/auxiliary-lines/src/WireframePrimitive.ts:27-29 | an even count of n + 4 segments: the base loop and the apex fan |
| WireframeSizes.UnboundCylinderIndexCount | packages/auxiliary-lines/src/WireframePrimitive.ts:34-36 | an even count of n + 8 segments: the base loop and eight struts |
| WireframeSizes.CapsuleIndexCount | packages/auxiliary-lines/src/WireframePrimitive.ts:41-43 | an even count of 4n segments: two circles and two ellipses |
| WireframeSizes.CircleIndexCount | packages/auxiliary-lines/src/WireframePrimitive.ts:48-50 | an even count of n segments: one per sample |
| WireframeSizes.EllipticIndexCount | packages/auxiliary-lines/src/WireframePrimitive.ts:55-57 | an even count of n segments: one per sample |
| Buffers.PointList.Push | packages/auxiliary-lines/src/WireframePrimitive.ts:84 | `positions.push` appends one point and leaves the earlier points as they were |
| Buffers.Put | packages/auxiliary-lines/src/WireframePrimitive.ts:294 | a typed-array store changes exactly the addressed slot when it is in range, and nothing when it is past the end; the length never changes |
| Buffers.Store | packages/auxiliary-lines/src/WireframePrimitive.ts:294 | the method's store has exactly the effect `Put` describes on the array contents |
| Buffers.Overlay | packages/auxiliary-lines/src/WireframePrimitive.ts:120-177 | a run of stores through the post-incremented `indicesOffset` keeps the array's length; OverlayAt gives each slot |
| Buffers.OverlayAt | packages/auxiliary-lines/src/WireframePrimitive.ts:120-177 | after a run of post-incremented stores from `off`, a slot in off .. off + count - 1 holds its written value and every other slot keeps its old contents (the frame of every writer) |
| Buffers.OverlayConcat | packages/auxiliary-lines/src/WireframePrimitive.ts:189-359 | writing slice u and then slice v right after it is the same as writing u + v; this is how sub-shapes at consecutive offsets add up |
| Buffers.StorePair | packages/auxiliary-lines/src/WireframePrimitive.ts:408-409 | two consecutive stores write the two-value slice of one line segment |
| WireframeIndices.CircleSegment | packages/auxiliary-lines/src/WireframePrimitive.ts:406-413 | segment i of the loop is (o + i, o + i + 1), and the last one is (o + n - 1, o) |
| WireframeIndices.CircleIsClosedCycle | packages/auxiliary-lines/src/WireframePrimitive.ts:406-413 | the segment starts are o .. o + n - 1 and the ends are o + 1 .. o + n - 1 followed by o; each sample is exactly once a start and exactly once an end |
| WireframeIndices.CircleWalk | packages/auxiliary-lines/src/WireframePrimitive.ts:406-413 | following segments from the first sample always stays among the loop's own n samples |
| WireframeIndices.CircleWalkFirstLap | packages/auxiliary-lines/src/WireframePrimitive.ts:406-413 | after j < n segments the walk is at sample o + j |
| WireframeIndices.CircleWalkPeriodic | packages/auxiliary-lines/src/WireframePrimitive.ts:406-413 | after n more segments the walk is back where it was |
| WireframeIndices.CircleIsSingleLoop | packages/auxiliary-lines/src/WireframePrimitive.ts:406-413 | the segments form one loop: the walk visits every sample in order, returns to the first sample only after exactly n segments, and then repeats |
| WireframeIndices.CuboidFaceCycles | packages/auxiliary-lines/src/WireframePrimitive.ts:119-177 | 48 slots; face f fills slots 8f .. 8f + 7 with the closed 4-cycle through o + 4f .. o + 4f + 3 |
| WireframeIndices.WriterIndexCounts | packages/auxiliary-lines/src/WireframePrimitive.ts:13-57 | every writer's index sequence has exactly the length its size getter announces |
| WireframeIndices.SpherePacking | packages/auxiliary-lines/src/WireframePrimitive.ts:196-221 | the sphere is circles about axes 0, 1 and 2 in consecutive 2n-slot ranges; circle k names only points o + kn .. o + (k + 1)n - 1 |
| WireframeIndices.CapsulePacking | packages/auxiliary-lines/src/WireframePrimitive.ts:317-358 | the capsule is top circle, bottom circle, ellipse 2 and ellipse 0 in consecutive 2n-slot ranges, each naming only its own n points |
| WireframeIndices.ConeApexFan | packages/auxiliary-lines/src/WireframePrimitive.ts:253-262 | after the base circle, the cone's four segments all start at the apex o + n and end at o + n + 1 .. o + n + 4 |
| WireframeIndices.UnboundCylinderStruts | packages/auxiliary-lines/src/WireframePrimitive.ts:287-296 | after the base circle, strut i joins o + n + 2i to o + n + 2i + 1 for i = 0 .. 7 |
| WireframeIndices.CircleIndicesWithin | packages/auxiliary-lines/src/WireframePrimitive.ts:406-413 | every value of a loop names one of its own samples o .. o + n - 1 |
| WireframeIndices.IndicesReferToOwnPoints | packages/auxiliary-lines/src/WireframePrimitive.ts:70-468 | every writer's values lie in o .. o + (its point count) - 1: 24 for the cuboid, 3n sphere, n + 5 cone, n + 16 cylinder, 4n capsule |
| WireframeIndices.IndicesTranslate | packages/auxiliary-lines/src/WireframePrimitive.ts:70-468 | each writer's values depend on positionOffset only by translation: writing at o + d adds d to every value written at o |
| WireframePoints.SampleAngleFraction | packages/auxiliary-lines/src/WireframePrimitive.ts:385-386 | the angle of sample i is i / n of a full turn of 2 PI |
| WireframePoints.CirclePoint | packages/auxiliary-lines/src/WireframePrimitive.ts:388-403 | sample i of a circle about axis 0, 1 or 2 keeps the shift's coordinate on that axis |
| WireframePoints.CircleSamples | packages/auxiliary-lines/src/WireframePrimitive.ts:384-404 | for axis 0, 1 or 2 the circle appends one point per sample, and none for any other axis; every point holds the shift's coordinate on the axis |
| WireframePoints.CirclePointsOnCircle | packages/auxiliary-lines/src/WireframePrimitive.ts:384-404 | given cos² + sin² = 1, every circle point lies at distance `radius` from the shift |
| WireframePoints.HalfwayTest | packages/auxiliary-lines/src/WireframePrimitive.ts:455 | `i == vertexCount / 2` on numbers holds exactly when n is even and i = n / 2 |
| WireframePoints.EllipseHeight | packages/auxiliary-lines/src/WireframePrimitive.ts:455-457 | a sample's height offset is +height or -height, and +height for every sample up to n / 2 |
| WireframePoints.EllipseHeightStep | packages/auxiliary-lines/src/WireframePrimitive.ts:455-457 | negating the height when `i == vertexCount / 2` moves it from sample i's offset to sample i + 1's |
| WireframePoints.EllipseHeightHalves | packages/auxiliary-lines/src/WireframePrimitive.ts:439-457 | +height for samples 0 .. n / 2 (every sample when n is odd) and -height for the later samples when n is even |
| WireframePoints.EllipsePoint | packages/auxiliary-lines/src/WireframePrimitive.ts:443-453 | axis 0 samples have x = 0, axis 2 samples z = 0, and axis 1 samples y equal to the current height offset |
| WireframePoints.EllipseSamples | packages/auxiliary-lines/src/WireframePrimitive.ts:443-453 | one point per sample for axis 0, 1 or 2 and none otherwise; axis 0 points have x = 0 and axis 2 points have z = 0 |
| WireframePoints.EllipsePointOnArc | packages/auxiliary-lines/src/WireframePrimitive.ts:443-453 | given cos² + sin² = 1, sample i lies at distance `radius` from (0, its height offset, 0) |
| WireframePoints.EllipseHalves | packages/auxiliary-lines/src/WireframePrimitive.ts:443-457 | given cos² + sin² = 1, every point of the ellipse is at distance `radius` from (0, its half's height offset, 0) |
| WireframePoints.CuboidCorners | packages/auxiliary-lines/src/WireframePrimitive.ts:79-117 | 24 points, the first four being (-w/2, h/2, -d/2), (w/2, h/2, -d/2), (w/2, h/2, d/2), (-w/2, h/2, d/2); every point is a box corner and lies on face k / 4 |
| WireframePoints.SphereCircles | packages/auxiliary-lines/src/WireframePrimitive.ts:196-221 | 3n points in the Y-Z, X-Z and X-Y planes in that order; with cos² + sin² = 1 all are at distance `radius` from the origin |
| WireframePoints.ConeParts | packages/auxiliary-lines/src/WireframePrimitive.ts:245-252 | n + 5 points: the rim at y = -height, then the apex at the origin, then four points at y = -height, each at distance `radius` from the base centre |
| WireframePoints.StrutTop | packages/auxiliary-lines/src/WireframePrimitive.ts:290-291 | the top of each strut lies on the ring at y = 0 |
| WireframePoints.StrutBottom | packages/auxiliary-lines/src/WireframePrimitive.ts:290-292 | the bottom of each strut is straight below its top, 5 lower |
| WireframePoints.StrutPoints | packages/auxiliary-lines/src/WireframePrimitive.ts:289-292 | two points per strut |
| WireframePoints.UnboundCylinderParts | packages/auxiliary-lines/src/WireframePrimitive.ts:281-296 | n + 16 points: the ring at y = 0, then eight struts, each a top point at y = 0 and a bottom point 5 below it with the same x and z |
| WireframePoints.CapsuleParts | packages/auxiliary-lines/src/WireframePrimitive.ts:317-358 | 4n points: a circle at y = h/2, a circle at y = -h/2, the ellipse about axis 2 (z = 0), then the ellipse about axis 0 (x = 0) |
| WireframePrimitive.WriteFaceCycle | packages/auxiliary-lines/src/WireframePrimitive.ts:119-127 | the eight stores of one face write FaceCycle(base) from the given slot, and change no other slot |
| WireframePrimitive.WriteCuboidIndices | packages/auxiliary-lines/src/WireframePrimitive.ts:119-177 | the 48 stores write the six face cycles from `indicesOffset` on, and change no other slot |
| WireframePrimitive.PushFour | packages/auxiliary-lines/src/WireframePrimitive.ts:84-87 | four pushes append their four points in order and keep the earlier points |
| WireframePrimitive.CreateCuboidWireframe | packages/auxiliary-lines/src/WireframePrimitive.ts:70-178 | appends exactly CuboidPoints and overlays exactly CuboidIndices at `indicesOffset` |
| WireframePrimitive.CreateSphereWireframe | packages/auxiliary-lines/src/WireframePrimitive.ts:189-222 | appends the three circles and overlays SphereIndices; sub-circle k is written at positionOffset + kn and indicesOffset + k · circleIndexCount |
| WireframePrimitive.WriteApexFan | packages/auxiliary-lines/src/WireframePrimitive.ts:255-262 | the eight stores write the apex fan from the given slot, and change no other slot |
| WireframePrimitive.CreateConeWireframe | packages/auxiliary-lines/src/WireframePrimitive.ts:234-263 | appends the rim and the five auxiliary points, and overlays the rim loop followed by the apex fan |
| WireframePrimitive.WriteStrut | packages/auxiliary-lines/src/WireframePrimitive.ts:294-295 | extends the struts written so far by strut i |
| WireframePrimitive.CreateUnboundCylinderWireframe | packages/auxiliary-lines/src/WireframePrimitive.ts:274-297 | appends the ring and the 16 strut points, and overlays the ring loop followed by the eight struts; the loop keeps both buffers equal to the first i struts |
| WireframePrimitive.CreateCapsuleWireframe | packages/auxiliary-lines/src/WireframePrimitive.ts:309-359 | appends and overlays the top circle, bottom circle, ellipse 2 and ellipse 0 at consecutive offsets |
| WireframePrimitive.WriteLoopSegment | packages/auxiliary-lines/src/WireframePrimitive.ts:406-413 | extends the loop's slots written so far by segment i, including the closing segment |
| WireframePrimitive.PushCircleSample | packages/auxiliary-lines/src/WireframePrimitive.ts:388-404 | the `switch (axis)` appends sample i's point for axis 0, 1 or 2 and nothing otherwise |
| WireframePrimitive.PushEllipseSample | packages/auxiliary-lines/src/WireframePrimitive.ts:443-453 | the `switch (axis)` appends ellipse sample i, offset by the current height, for axis 0, 1 or 2 and nothing otherwise |
| WireframePrimitive.CreateCircleWireframe | packages/auxiliary-lines/src/WireframePrimitive.ts:371-415 | appends CirclePoints and overlays the closed loop CircleIndices; the loop keeps both buffers equal to the first i samples |
| WireframePrimitive.CreateEllipticWireframe | packages/auxiliary-lines/src/WireframePrimitive.ts:427-468 | appends EllipsePoints and overlays the same closed loop as the circle; the loop also keeps the current height equal to EllipseHeight(i) across the flip |
| WireframePrimitive.IndicesNameAppendedPoints | packages/auxiliary-lines/src/WireframePrimitive.ts:70-468 | with a valid axis, every writer's values lie in positionOffset .. positionOffset + (points that call appends) - 1. Called with positionOffset equal to the length of `positions`, a writer therefore names only its own new points |

## Left out

- The numeric values of `Math.cos`, `Math.sin`, `Math.PI` and `MathUtil.degreeToRadian` are left out. They are parameters in `MathLib`. Distance facts assume cos² + sin² = 1 as a hypothesis.
- Numbers are modelled as exact reals, not IEEE doubles. Rounding of coordinates is left out.
- `Uint16Array`/`Uint32Array` truncation of large index values is left out. Index values are unbounded integers.
- The `Vector3` class and `MathUtil` from `oasis-engine` are foreign code and not part of this model. `Vector3` is replaced by the value type `Vec3`.
- The shared `shift` vector is mutated between calls in the source. Here it is a value: the circle writer only reads its components, so no aliasing can be observed.
- CreateCircleWireframe and CreateEllipticWireframe compute `1 / vertexCount` inside the loop body rather than once before it. This avoids dividing by zero when n = 0 and the loop does not run.
- `positionOffset`, `indicesOffset` and `axis` are JavaScript numbers in the source, but `nat` and `int` here. A negative or fractional typed-array slot is dropped in the source like one past the end, and a fractional axis matches no case. The model does not cover these calls; the writers' callers never make them.
- packages/gizmo/src/enums/GizmoState.ts is not part of this model. It holds enum constants with no behaviour.
- Mesh assembly, rendering and gizmo interaction are not part of this model.
