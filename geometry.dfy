/**
 * Points in space and the numeric primitives that the wireframe writers borrow
 * from the engine.
 */
module Geometry {

  /** A point in space: the engine's Vector3, reduced to its three coordinates. */
  datatype Vec3 = Vec3(x: real, y: real, z: real)

  /** `new Vector3()`: every coordinate zero. */
  const Origin: Vec3 := Vec3(0.0, 0.0, 0.0)

  /**
   * The floating-point primitives the writers call: Math.PI, Math.cos, Math.sin
   * and MathUtil.degreeToRadian. They belong to the runtime and to a foreign
   * library, so the model takes them as parameters and never interprets them.
   */
  datatype MathLib = MathLib(pi: real, cos: real -> real, sin: real -> real, degreeToRadian: real -> real)

  /** The only property of cos and sin that any lemma here relies on. */
  ghost predicate UnitCircleIdentity(m: MathLib) {
    forall t :: m.cos(t) * m.cos(t) + m.sin(t) * m.sin(t) == 1.0
  }

  /**
   * The axis selectors the circle and ellipse writers understand: the sampled
   * curve lies in the Y-Z plane (0), the X-Z plane (1) or the X-Y plane (2).
   */
  predicate ValidAxis(axis: int) {
    axis == 0 || axis == 1 || axis == 2
  }

  function SquaredDistance(p: Vec3, q: Vec3): real {
    (p.x - q.x) * (p.x - q.x) + (p.y - q.y) * (p.y - q.y) + (p.z - q.z) * (p.z - q.z)
  }
}
