/**
 * Exact-real stand-ins for Maya's point, vector and matrix types.
 * Float precision (MFloatPoint versus MPoint) is not modelled.
 */
module Vectors {

  /** A point or a direction in 3-space. */
  datatype Vec = Vec(x: real, y: real, z: real)

  const Zero: Vec := Vec(0.0, 0.0, 0.0)

  function Add(a: Vec, b: Vec): Vec {
    Vec(a.x + b.x, a.y + b.y, a.z + b.z)
  }

  function Sub(a: Vec, b: Vec): Vec {
    Vec(a.x - b.x, a.y - b.y, a.z - b.z)
  }

  function Scale(v: Vec, k: real): Vec {
    Vec(v.x * k, v.y * k, v.z * k)
  }

  function Neg(v: Vec): Vec {
    Scale(v, -1.0)
  }

  /** Squared Euclidean length; `a.length() < b.length()` is `LengthSq(a) < LengthSq(b)`. */
  function LengthSq(v: Vec): real {
    v.x * v.x + v.y * v.y + v.z * v.z
  }

  lemma LengthSqNonNegative(v: Vec)
    ensures LengthSq(v) >= 0.0
  {
    assert v.x * v.x >= 0.0;
    assert v.y * v.y >= 0.0;
    assert v.z * v.z >= 0.0;
  }

  /**
   * The local-to-world transform of the deformed mesh: where it sends points
   * (`MPoint * M`), where it sends directions (`MVector * M`, no translation), and
   * what `M.inverse()` does to a direction.
   */
  datatype Transform = Transform(point: Vec -> Vec, vector: Vec -> Vec, inverse: Vec -> Vec)

  /** `f` is a linear map of directions. */
  ghost predicate Linear(f: Vec -> Vec) {
    && (forall v, w :: f(Add(v, w)) == Add(f(v), f(w)))
    && (forall v, k :: f(Scale(v, k)) == Scale(f(v), k))
  }

  /**
   * Points and directions are mapped by one affine 4x4 matrix and its inverse: both
   * direction maps are linear, and moving a point by a direction moves its image by
   * the direction's image.
   */
  ghost predicate Affine(t: Transform) {
    && Linear(t.vector)
    && Linear(t.inverse)
    && forall p, v :: t.point(Add(p, v)) == Add(t.point(p), t.vector(v))
  }

  /** `inverse` undoes `vector`, in both orders. */
  ghost predicate Inverts(t: Transform) {
    && (forall v :: t.vector(t.inverse(v)) == v)
    && (forall v :: t.inverse(t.vector(v)) == v)
  }

  /** Directions keep their length (a rotation, possibly with a reflection). */
  ghost predicate Isometric(t: Transform) {
    forall v :: LengthSq(t.vector(v)) == LengthSq(v)
  }

  /** The identity transform, an object already in world space. */
  const IdentityTransform: Transform := Transform(p => p, v => v, v => v)

  /** The identity transform meets every hypothesis above, so none of them is vacuous. */
  lemma IdentityIsRigid()
    ensures Affine(IdentityTransform)
    ensures Inverts(IdentityTransform)
    ensures Isometric(IdentityTransform)
  {
  }

  /** A linear map sends the zero direction to itself. */
  lemma LinearZero(f: Vec -> Vec)
    requires Linear(f)
    ensures f(Zero) == Zero
  {
    var v := f(Zero);
    assert Scale(Zero, 0.0) == Zero;
    assert f(Scale(Zero, 0.0)) == Scale(v, 0.0);
  }
}
