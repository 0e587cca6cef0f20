/**
 * The inside test of mnCollisionDeformer.getIntersection: a point is inside the
 * collider when a ray from it crosses the collider's surface an odd number of times.
 */
module InsideTest {
  import opened Wrappers
  import opened Vectors

  /**
   * The two collider queries the deformer makes, in world space:
   * the surface normal at the point closest to a query point, and every hit of a
   * ray (origin, direction) in order of distance from its origin.
   */
  datatype Collider = Collider(
    closestNormal: Vec -> Vec,
    allIntersections: (Vec, Vec) -> seq<Vec>)

  /** `MFloatVector.angle`, the angle in radians between two directions. */
  type AngleFn = (Vec, Vec) -> real

  /**
   * Python's `math.pi`. No double lies strictly between this decimal and the
   * double that `math.pi` denotes, so comparisons against double angles agree.
   */
  const MathPi: real := 3.141592653589793

  /** The angle is at or beyond a half turn either way: the two directions are opposed. */
  predicate Opposed(angle: real) {
    angle >= MathPi || angle <= -MathPi
  }

  /**
   * The ray direction of the inside test: the probe itself when the collider's
   * normal is opposed to it, otherwise the unnormalised sum of the two.
   */
  function SearchDirection(angle: AngleFn, probe: Vec, surfaceNormal: Vec): Vec {
    if Opposed(angle(probe, surfaceNormal)) then probe else Add(probe, surfaceNormal)
  }

  /**
   * The search direction departs from the probe by exactly the surface normal unless
   * the two are opposed; it equals the probe only when they are opposed or the
   * normal is zero.
   */
  lemma SearchDirectionChoice(angle: AngleFn, probe: Vec, surfaceNormal: Vec)
    ensures var d := SearchDirection(angle, probe, surfaceNormal);
      && (Opposed(angle(probe, surfaceNormal)) ==> d == probe)
      && (!Opposed(angle(probe, surfaceNormal)) ==> Sub(d, probe) == surfaceNormal)
      && (d == probe <==> Opposed(angle(probe, surfaceNormal)) || surfaceNormal == Zero)
  {
  }

  /** The hits of the inside test's ray from `point`. */
  function ProbeHits(collider: Collider, angle: AngleFn, point: Vec, probe: Vec): seq<Vec> {
    collider.allIntersections(point, SearchDirection(angle, probe, collider.closestNormal(point)))
  }

  /**
   * The contact point for `point` probed along `probe`: present exactly when the
   * ray's hit count is odd (the point is inside), and then the nearest hit.
   */
  function GetIntersection(collider: Collider, angle: AngleFn, point: Vec, probe: Vec): (r: Option<Vec>)
    ensures r.Some? <==> |ProbeHits(collider, angle, point, probe)| % 2 == 1
    ensures r.Some? ==> r.value == ProbeHits(collider, angle, point, probe)[0]
  {
    var hits := ProbeHits(collider, angle, point, probe);
    if |hits| % 2 == 1 then Some(hits[0]) else None
  }
}
