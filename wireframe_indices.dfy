/**
 * The index values each wireframe writer stores, slot by slot, as a function
 * of the circle resolution `n` and the caller's `positionOffset` (`o`), and
 * what those values mean as line segments.
 *
 * Consecutive slots (2i, 2i + 1) form segment i; every value is `o` plus the
 * local number of a point the same writer appends.
 */
module WireframeIndices {
  import opened WireframeSizes

  /** lo, lo + 1, ..., lo + count - 1 */
  function Range(lo: int, count: nat): (r: seq<int>)
    ensures |r| == count
  {
    seq(count, i => lo + i)
  }

  /** The first point of every segment: the even slots. */
  function Starts(s: seq<int>): (r: seq<int>)
    ensures |r| == |s| / 2
  {
    seq(|s| / 2, i requires 0 <= i < |s| / 2 => s[2 * i])
  }

  /** The second point of every segment: the odd slots. */
  function Ends(s: seq<int>): (r: seq<int>)
    ensures |r| == |s| / 2
  {
    seq(|s| / 2, i requires 0 <= i < |s| / 2 => s[2 * i + 1])
  }

  /** Every value of `s` names one of the points lo .. hi - 1. */
  predicate IndicesWithin(s: seq<int>, lo: int, hi: int) {
    forall k :: 0 <= k < |s| ==> lo <= s[k] < hi
  }

  /** `s` with `d` added to every value. */
  function Translated(s: seq<int>, d: int): (r: seq<int>)
    ensures |r| == |s|
  {
    seq(|s|, k requires 0 <= k < |s| => s[k] + d)
  }

  // ---------------------------------------------------------------------------
  // Circle and ellipse: one closed loop through the n samples
  // ---------------------------------------------------------------------------

  /** Where the segment leaving sample i goes: the next sample, or back to the first after the last. */
  function CircleSegmentEnd(n: nat, o: int, i: int): int {
    if i < n - 1 then o + i + 1 else o
  }

  /** The 2n values the circle writer (and the ellipse writer) stores. */
  function CircleIndices(n: nat, o: int): (r: seq<int>)
    ensures |r| == 2 * n
  {
    seq(2 * n, k => if k % 2 == 0 then o + k / 2 else CircleSegmentEnd(n, o, k / 2))
  }

  /**
   * Segment i of the loop: slots 2i and 2i + 1 join sample i to sample i + 1,
   * and the last segment joins sample n - 1 back to the first sample.
   */
  lemma CircleSegment(n: nat, o: int, i: nat)
    requires i < n
    ensures CircleIndices(n, o)[2 * i .. 2 * i + 2] == [o + i, if i < n - 1 then o + i + 1 else o]
  {
    var c := CircleIndices(n, o);
    assert (2 * i) / 2 == i && (2 * i) % 2 == 0;
    assert (2 * i + 1) / 2 == i && (2 * i + 1) % 2 == 1;
    assert c[2 * i .. 2 * i + 2] == [c[2 * i], c[2 * i + 1]];
  }

  lemma {:induction false} RangeMultiplicity(lo: int, count: nat, v: int)
    ensures multiset(Range(lo, count))[v] == if lo <= v < lo + count then 1 else 0
  {
    if count > 0 {
      assert Range(lo, count) == Range(lo, count - 1) + [lo + count - 1];
      RangeMultiplicity(lo, count - 1, v);
    }
  }

  /**
   * The circle's segments start at the samples in order and end at the next
   * sample, the last one ending at the first; so every sample is the start of
   * exactly one segment and the end of exactly one segment.
   */
  lemma CircleIsClosedCycle(n: nat, o: int)
    requires n >= 1
    ensures Starts(CircleIndices(n, o)) == Range(o, n)
    ensures Ends(CircleIndices(n, o)) == Range(o + 1, n - 1) + [o]
    ensures forall v :: multiset(Starts(CircleIndices(n, o)))[v] == if o <= v < o + n then 1 else 0
    ensures forall v :: multiset(Ends(CircleIndices(n, o)))[v] == if o <= v < o + n then 1 else 0
  {
    var c := CircleIndices(n, o);
    assert Starts(c) == Range(o, n) by {
      forall i | 0 <= i < n ensures Starts(c)[i] == o + i {
        assert (2 * i) / 2 == i && (2 * i) % 2 == 0;
      }
    }
    assert Ends(c) == Range(o + 1, n - 1) + [o] by {
      forall i | 0 <= i < n ensures Ends(c)[i] == (Range(o + 1, n - 1) + [o])[i] {
        assert (2 * i + 1) / 2 == i && (2 * i + 1) % 2 == 1;
      }
    }
    forall v ensures multiset(Starts(c))[v] == if o <= v < o + n then 1 else 0 {
      RangeMultiplicity(o, n, v);
    }
    forall v ensures multiset(Ends(c))[v] == if o <= v < o + n then 1 else 0 {
      RangeMultiplicity(o + 1, n - 1, v);
    }
  }

  /**
   * The sample reached from the first one after following k segments; the
   * segment leaving sample o + i is segment i (CircleIsClosedCycle).
   */
  function CircleWalk(n: nat, o: int, k: nat): (v: int)
    requires n >= 1
    ensures o <= v < o + n
  {
    if k == 0 then o else CircleIndices(n, o)[2 * (CircleWalk(n, o, k - 1) - o) + 1]
  }

  /** Within one lap the walk is at the j-th sample. */
  lemma {:induction false} CircleWalkFirstLap(n: nat, o: int, j: nat)
    requires j < n
    ensures CircleWalk(n, o, j) == o + j
  {
    if j > 0 {
      CircleWalkFirstLap(n, o, j - 1);
      assert (2 * (j - 1) + 1) / 2 == j - 1 && (2 * (j - 1) + 1) % 2 == 1;
    }
  }

  /** After a full lap the walk repeats itself. */
  lemma {:induction false} CircleWalkPeriodic(n: nat, o: int, k: nat)
    requires n >= 1
    ensures CircleWalk(n, o, k + n) == CircleWalk(n, o, k)
  {
    if k == 0 {
      CircleWalkFirstLap(n, o, n - 1);
      assert (2 * (n - 1) + 1) / 2 == n - 1 && (2 * (n - 1) + 1) % 2 == 1;
    } else {
      CircleWalkPeriodic(n, o, k - 1);
      assert CircleWalk(n, o, k + n) == CircleIndices(n, o)[2 * (CircleWalk(n, o, k - 1 + n) - o) + 1];
    }
  }

  /**
   * Following the circle's segments from the first sample visits every sample
   * in order, first comes back after exactly n segments, and then repeats:
   * the segments form one closed loop, not several.
   */
  lemma CircleIsSingleLoop(n: nat, o: int)
    requires n >= 1
    ensures forall j: nat :: j < n ==> CircleWalk(n, o, j) == o + j
    ensures forall k: nat :: 0 < k < n ==> CircleWalk(n, o, k) != o
    ensures CircleWalk(n, o, n) == o
    ensures forall k: nat :: CircleWalk(n, o, k + n) == CircleWalk(n, o, k)
  {
    forall j: nat | j < n ensures CircleWalk(n, o, j) == o + j {
      CircleWalkFirstLap(n, o, j);
    }
    CircleWalkPeriodic(n, o, 0);
    forall k: nat ensures CircleWalk(n, o, k + n) == CircleWalk(n, o, k) {
      CircleWalkPeriodic(n, o, k);
    }
  }

  // ---------------------------------------------------------------------------
  // Cuboid: six independent 4-cycles
  // ---------------------------------------------------------------------------

  /** The eight values one cuboid face stores: a closed loop through b .. b + 3. */
  function FaceCycle(b: int): seq<int> {
    [b, b + 1, b + 1, b + 2, b + 2, b + 3, b + 3, b]
  }

  /** The 48 values the cuboid writer stores: faces up, down, left, right, front, back. */
  function CuboidIndices(o: int): seq<int> {
    FaceCycle(o) + FaceCycle(o + 4) + FaceCycle(o + 8) + FaceCycle(o + 12) + FaceCycle(o + 16) + FaceCycle(o + 20)
  }

  /** Slots size * k .. size * (k + 1) - 1 of `s`. */
  function Block(s: seq<int>, k: nat, size: nat): (r: seq<int>)
    requires size * (k + 1) <= |s|
    ensures |r| == size
  {
    s[size * k .. size * (k + 1)]
  }

  /** Face f of the cuboid occupies slots 8f .. 8f + 7 and is a closed 4-cycle through its own four points. */
  lemma CuboidFaceCycles(o: int)
    ensures |CuboidIndices(o)| == 48
    ensures forall f :: 0 <= f < 6 ==> Block(CuboidIndices(o), f, 8) == CircleIndices(4, o + 4 * f)
  {
    forall f | 0 <= f < 6 ensures Block(CuboidIndices(o), f, 8) == CircleIndices(4, o + 4 * f) {
      var b := o + 4 * f;
      assert CircleIndices(4, b) == FaceCycle(b);
      var c := CuboidIndices(o);
      if f == 0 {
        assert c[0..8] == FaceCycle(o);
      } else if f == 1 {
        assert c[8..16] == FaceCycle(o + 4);
      } else if f == 2 {
        assert c[16..24] == FaceCycle(o + 8);
      } else if f == 3 {
        assert c[24..32] == FaceCycle(o + 12);
      } else if f == 4 {
        assert c[32..40] == FaceCycle(o + 16);
      } else {
        assert c[40..48] == FaceCycle(o + 20);
      }
    }
  }

  // ---------------------------------------------------------------------------
  // Shapes made of circles and ellipses, and the cone and cylinder extras
  // ---------------------------------------------------------------------------

  /** Circles about axes 0, 1 and 2, packed one after the other. */
  function SphereIndices(n: nat, o: int): seq<int> {
    CircleIndices(n, o) + CircleIndices(n, o + n) + CircleIndices(n, o + 2 * n)
  }

  /** Top circle, bottom circle, ellipse about axis 2, ellipse about axis 0. */
  function CapsuleIndices(n: nat, o: int): seq<int> {
    CircleIndices(n, o) + CircleIndices(n, o + n) + CircleIndices(n, o + 2 * n) + CircleIndices(n, o + 3 * n)
  }

  /** Four segments from the apex b to each of the points b + 1 .. b + 4. */
  function ApexFan(b: int): seq<int> {
    [b, b + 1, b, b + 2, b, b + 3, b, b + 4]
  }

  function ConeIndices(n: nat, o: int): seq<int> {
    CircleIndices(n, o) + ApexFan(o + n)
  }

  /** The base circle, then eight struts, strut i joining points b + 2i and b + 2i + 1. */
  function UnboundCylinderIndices(n: nat, o: int): seq<int> {
    CircleIndices(n, o) + Range(o + n, 16)
  }

  /** Every writer fills exactly as many slots as its size getter announces. */
  lemma WriterIndexCounts(n: nat, o: int)
    ensures |CircleIndices(n, o)| == CircleIndexCount(n) == EllipticIndexCount(n)
    ensures |CuboidIndices(o)| == CuboidIndexCount()
    ensures |SphereIndices(n, o)| == SphereIndexCount(n)
    ensures |ConeIndices(n, o)| == ConeIndexCount(n)
    ensures |UnboundCylinderIndices(n, o)| == UnboundCylinderIndexCount(n)
    ensures |CapsuleIndices(n, o)| == CapsuleIndexCount(n)
  {
  }

  /**
   * The sphere's three circles sit in consecutive slot ranges of 2n slots,
   * circle k naming only its own points o + k * n .. o + (k + 1) * n - 1.
   */
  lemma SpherePacking(n: nat, o: int)
    ensures |SphereIndices(n, o)| == 3 * CircleIndexCount(n)
    ensures SphereIndices(n, o)[..2 * n] == CircleIndices(n, o)
    ensures SphereIndices(n, o)[2 * n .. 4 * n] == CircleIndices(n, o + n)
    ensures SphereIndices(n, o)[4 * n ..] == CircleIndices(n, o + 2 * n)
    ensures IndicesWithin(SphereIndices(n, o)[..2 * n], o, o + n)
    ensures IndicesWithin(SphereIndices(n, o)[2 * n .. 4 * n], o + n, o + 2 * n)
    ensures IndicesWithin(SphereIndices(n, o)[4 * n ..], o + 2 * n, o + 3 * n)
  {
    var s := SphereIndices(n, o);
    assert s[..2 * n] == CircleIndices(n, o);
    assert s[2 * n .. 4 * n] == CircleIndices(n, o + n);
    assert s[4 * n ..] == CircleIndices(n, o + 2 * n);
    CircleIndicesWithin(n, o);
    CircleIndicesWithin(n, o + n);
    CircleIndicesWithin(n, o + 2 * n);
  }

  /**
   * The capsule's two circles and two ellipses sit in consecutive slot ranges
   * of 2n slots, sub-shape k naming only its own points.
   */
  lemma CapsulePacking(n: nat, o: int)
    ensures |CapsuleIndices(n, o)| == 2 * (CircleIndexCount(n) + EllipticIndexCount(n))
    ensures CapsuleIndices(n, o)[..2 * n] == CircleIndices(n, o)
    ensures CapsuleIndices(n, o)[2 * n .. 4 * n] == CircleIndices(n, o + n)
    ensures CapsuleIndices(n, o)[4 * n .. 6 * n] == CircleIndices(n, o + 2 * n)
    ensures CapsuleIndices(n, o)[6 * n ..] == CircleIndices(n, o + 3 * n)
    ensures IndicesWithin(CapsuleIndices(n, o)[..2 * n], o, o + n)
    ensures IndicesWithin(CapsuleIndices(n, o)[2 * n .. 4 * n], o + n, o + 2 * n)
    ensures IndicesWithin(CapsuleIndices(n, o)[4 * n .. 6 * n], o + 2 * n, o + 3 * n)
    ensures IndicesWithin(CapsuleIndices(n, o)[6 * n ..], o + 3 * n, o + 4 * n)
  {
    var s := CapsuleIndices(n, o);
    assert s[..2 * n] == CircleIndices(n, o);
    assert s[2 * n .. 4 * n] == CircleIndices(n, o + n);
    assert s[4 * n .. 6 * n] == CircleIndices(n, o + 2 * n);
    assert s[6 * n ..] == CircleIndices(n, o + 3 * n);
    CircleIndicesWithin(n, o);
    CircleIndicesWithin(n, o + n);
    CircleIndicesWithin(n, o + 2 * n);
    CircleIndicesWithin(n, o + 3 * n);
  }

  /** After its base circle the cone draws four segments, each from the apex o + n to one of its four auxiliary points. */
  lemma ConeApexFan(n: nat, o: int)
    ensures ConeIndices(n, o)[..2 * n] == CircleIndices(n, o)
    ensures Starts(ConeIndices(n, o))[n..] == [o + n, o + n, o + n, o + n]
    ensures Ends(ConeIndices(n, o))[n..] == [o + n + 1, o + n + 2, o + n + 3, o + n + 4]
  {
    var s := ConeIndices(n, o);
    assert s[2 * n ..] == ApexFan(o + n);
  }

  /** After its base circle the cylinder draws eight struts, strut i joining o + n + 2i to o + n + 2i + 1. */
  lemma UnboundCylinderStruts(n: nat, o: int)
    ensures UnboundCylinderIndices(n, o)[..2 * n] == CircleIndices(n, o)
    ensures Starts(UnboundCylinderIndices(n, o))[n..] == seq(8, i => o + n + 2 * i)
    ensures Ends(UnboundCylinderIndices(n, o))[n..] == seq(8, i => o + n + 2 * i + 1)
  {
    var s := UnboundCylinderIndices(n, o);
    assert s[2 * n ..] == Range(o + n, 16);
  }

  lemma CircleIndicesWithin(n: nat, o: int)
    ensures IndicesWithin(CircleIndices(n, o), o, o + n)
  {
  }

  lemma {:induction false} WithinConcat(s: seq<int>, t: seq<int>, lo: int, mid: int, hi: int)
    requires IndicesWithin(s, lo, mid) && IndicesWithin(t, mid, hi) && lo <= mid <= hi
    ensures IndicesWithin(s + t, lo, hi)
  {
    forall k | 0 <= k < |s + t| ensures lo <= (s + t)[k] < hi {
      if k >= |s| {
        assert (s + t)[k] == t[k - |s|];
      }
    }
  }

  /**
   * Every value a writer stores names one of the points that writer appends,
   * o .. o + (its point count) - 1; a writer never names a point of another shape.
   */
  lemma IndicesReferToOwnPoints(n: nat, o: int)
    ensures IndicesWithin(CircleIndices(n, o), o, o + n)
    ensures IndicesWithin(CuboidIndices(o), o, o + 24)
    ensures IndicesWithin(SphereIndices(n, o), o, o + 3 * n)
    ensures IndicesWithin(ConeIndices(n, o), o, o + n + 5)
    ensures IndicesWithin(UnboundCylinderIndices(n, o), o, o + n + 16)
    ensures IndicesWithin(CapsuleIndices(n, o), o, o + 4 * n)
  {
    CircleIndicesWithin(n, o);
    CircleIndicesWithin(n, o + n);
    CircleIndicesWithin(n, o + 2 * n);
    CircleIndicesWithin(n, o + 3 * n);
    WithinConcat(CircleIndices(n, o), CircleIndices(n, o + n), o, o + n, o + 2 * n);
    WithinConcat(CircleIndices(n, o) + CircleIndices(n, o + n), CircleIndices(n, o + 2 * n), o, o + 2 * n, o + 3 * n);
    WithinConcat(CircleIndices(n, o) + CircleIndices(n, o + n) + CircleIndices(n, o + 2 * n),
                 CircleIndices(n, o + 3 * n), o, o + 3 * n, o + 4 * n);
    WithinConcat(CircleIndices(n, o), ApexFan(o + n), o, o + n, o + n + 5);
    WithinConcat(CircleIndices(n, o), Range(o + n, 16), o, o + n, o + n + 16);
    var c := CuboidIndices(o);
    forall k | 0 <= k < 48 ensures o <= c[k] < o + 24 {
      CuboidFaceCycles(o);
      var f := k / 8;
      assert c[k] == Block(c, f, 8)[k - 8 * f];
      CircleIndicesWithin(4, o + 4 * f);
    }
  }

  /**
   * A writer's index values depend on positionOffset only by translation: the
   * same shape written at two offsets differs by the offset difference alone.
   */
  lemma IndicesTranslate(n: nat, o: int, d: int)
    ensures CircleIndices(n, o + d) == Translated(CircleIndices(n, o), d)
    ensures CuboidIndices(o + d) == Translated(CuboidIndices(o), d)
    ensures SphereIndices(n, o + d) == Translated(SphereIndices(n, o), d)
    ensures ConeIndices(n, o + d) == Translated(ConeIndices(n, o), d)
    ensures UnboundCylinderIndices(n, o + d) == Translated(UnboundCylinderIndices(n, o), d)
    ensures CapsuleIndices(n, o + d) == Translated(CapsuleIndices(n, o), d)
  {
    CircleIndicesTranslate(n, o, d);
    CuboidIndicesTranslate(o, d);
    PackedCirclesTranslate(n, o, d);
    var c := CircleIndices(n, o);
    TranslatedConcat(c, ApexFan(o + n), d);
    assert Translated(ApexFan(o + n), d) == ApexFan(o + d + n);
    TranslatedConcat(c, Range(o + n, 16), d);
    assert Translated(Range(o + n, 16), d) == Range(o + d + n, 16);
  }

  lemma PackedCirclesTranslate(n: nat, o: int, d: int)
    ensures SphereIndices(n, o + d) == Translated(SphereIndices(n, o), d)
    ensures CapsuleIndices(n, o + d) == Translated(CapsuleIndices(n, o), d)
  {
    var c0, c1, c2, c3 := CircleIndices(n, o), CircleIndices(n, o + n), CircleIndices(n, o + 2 * n), CircleIndices(n, o + 3 * n);
    CircleIndicesTranslate(n, o, d);
    CircleIndicesTranslate(n, o + n, d);
    CircleIndicesTranslate(n, o + 2 * n, d);
    CircleIndicesTranslate(n, o + 3 * n, d);
    TranslatedConcat(c0, c1, d);
    TranslatedConcat(c0 + c1, c2, d);
    TranslatedConcat(c0 + c1 + c2, c3, d);
    assert o + d + n == o + n + d && o + d + 2 * n == o + 2 * n + d && o + d + 3 * n == o + 3 * n + d;
  }

  lemma CuboidIndicesTranslate(o: int, d: int)
    ensures CuboidIndices(o + d) == Translated(CuboidIndices(o), d)
  {
    var f0, f1, f2, f3, f4, f5 := FaceCycle(o), FaceCycle(o + 4), FaceCycle(o + 8), FaceCycle(o + 12), FaceCycle(o + 16), FaceCycle(o + 20);
    assert Translated(f0, d) == FaceCycle(o + d);
    assert Translated(f1, d) == FaceCycle(o + d + 4);
    assert Translated(f2, d) == FaceCycle(o + d + 8);
    assert Translated(f3, d) == FaceCycle(o + d + 12);
    assert Translated(f4, d) == FaceCycle(o + d + 16);
    assert Translated(f5, d) == FaceCycle(o + d + 20);
    TranslatedConcat(f0, f1, d);
    TranslatedConcat(f0 + f1, f2, d);
    TranslatedConcat(f0 + f1 + f2, f3, d);
    TranslatedConcat(f0 + f1 + f2 + f3, f4, d);
    TranslatedConcat(f0 + f1 + f2 + f3 + f4, f5, d);
  }

  lemma CircleIndicesTranslate(n: nat, o: int, d: int)
    ensures CircleIndices(n, o + d) == Translated(CircleIndices(n, o), d)
  {
  }

  lemma TranslatedConcat(s: seq<int>, t: seq<int>, d: int)
    ensures Translated(s + t, d) == Translated(s, d) + Translated(t, d)
  {
  }
}
