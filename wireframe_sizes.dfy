/**
 * The static size getters of the wireframe writer: how many index slots each
 * writer fills. `n` is the global circle resolution (circleVertexCount).
 * Every count is even: two slots per line segment.
 */
module WireframeSizes {

  /** Six faces of four segments each. */
  function CuboidIndexCount(): (r: nat)
    ensures r % 2 == 0 && r / 2 == 6 * 4
  {
    48
  }

  /** Three loops of n segments each. */
  function SphereIndexCount(n: nat): (r: nat)
    ensures r % 2 == 0 && r / 2 == 3 * n
  {
    CircleIndexCount(n) * 3
  }

  /** The base loop of n segments and the four segments of the apex fan. */
  function ConeIndexCount(n: nat): (r: nat)
    ensures r % 2 == 0 && r / 2 == n + 4
  {
    CircleIndexCount(n) + 8
  }

  /** The base loop of n segments and eight struts. */
  function UnboundCylinderIndexCount(n: nat): (r: nat)
    ensures r % 2 == 0 && r / 2 == n + 8
  {
    CircleIndexCount(n) + 16
  }

  /** Two circles and two ellipses of n segments each. */
  function CapsuleIndexCount(n: nat): (r: nat)
    ensures r % 2 == 0 && r / 2 == 4 * n
  {
    (CircleIndexCount(n) + EllipticIndexCount(n)) * 2
  }

  /** One segment per sample. */
  function CircleIndexCount(n: nat): (r: nat)
    ensures r % 2 == 0 && r / 2 == n
  {
    n * 2
  }

  /** One segment per sample. */
  function EllipticIndexCount(n: nat): (r: nat)
    ensures r % 2 == 0 && r / 2 == n
  {
    n * 2
  }

  /** The getters, expressed in the resolution alone: one pair of slots per sampled vertex. */
  lemma SizeGettersAgree(n: nat)
    ensures CircleIndexCount(n) == EllipticIndexCount(n) == 2 * n
    ensures SphereIndexCount(n) == 3 * CircleIndexCount(n) == 6 * n
    ensures ConeIndexCount(n) == 2 * n + 8
    ensures UnboundCylinderIndexCount(n) == 2 * n + 16
    ensures CapsuleIndexCount(n) == 2 * (CircleIndexCount(n) + EllipticIndexCount(n)) == 8 * n
    ensures CuboidIndexCount() == 6 * 8
  {
  }
}
