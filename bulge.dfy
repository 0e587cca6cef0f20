/**
 * The bulge of mnCollisionDeformer.deformNeighbours: a layered walk over the mesh's
 * adjacency, `levels` layers deep, pushing each layer out along its normals by an
 * amount read from the bulge-shape ramp, capped at the collider.
 */
module Bulge {
  import opened Wrappers
  import opened Vectors
  import opened InsideTest
  import opened Contact

  /** The bulge-shape ramp: its value at a position in [0, 1], or None when sampling fails. */
  type Ramp = real -> Option<real>

  /** The ramp every new node starts with: two keys, at 0.0 and 1.0, both valued 0.0. */
  const DefaultRamp: Ramp := (position: real) => Some(0.0)

  /**
   * The bulge amount of the layer `levels` steps from the end: the ramp's value at
   * `levels / maxLevels`, or `levels² / maxLevels` when sampling fails or yields 0.
   */
  function BulgeAmount(ramp: Ramp, levels: int, maxLevels: int): (r: real)
    requires maxLevels != 0
    ensures levels != 0 ==> r != 0.0
    ensures ramp(levels as real / maxLevels as real) != Some(0.0) && ramp(levels as real / maxLevels as real).Some?
      ==> r == ramp(levels as real / maxLevels as real).value
    ensures ramp(levels as real / maxLevels as real) == Some(0.0) || ramp(levels as real / maxLevels as real).None?
      ==> r == (levels * levels) as real / maxLevels as real
  {
    var sample := ramp(levels as real / maxLevels as real);
    if sample.Some? && sample.value != 0.0 then sample.value
    else (levels * levels) as real / maxLevels as real
  }

  /** The default ramp always yields 0, so the `levels² / maxLevels` fall-back always applies. */
  lemma DefaultRampFallsBack(levels: int, maxLevels: int)
    requires maxLevels != 0
    ensures BulgeAmount(DefaultRamp, levels, maxLevels) == (levels * levels) as real / maxLevels as real
  {
  }

  /** The first collider hit of the ray from the vertex's world position along its world normal. */
  function FirstHit(ctx: Context, point: Vec, normal: Vec): Option<Vec> {
    var hits := ctx.collider.allIntersections(
      ctx.xf.point(point), ctx.xf.vector(normal));
    if |hits| > 0 then Some(hits[0]) else None
  }

  /**
   * The local offset of a bulged vertex: `normal * multiplier * amount`, replaced by
   * the vector to the first hit (mapped back to local space) when that vector is
   * strictly shorter. The comparison sets a world-space length against the local offset.
   */
  function BulgeOffset(ctx: Context, point: Vec, normal: Vec, multiplier: real, amount: real): (r: Vec)
    ensures FirstHit(ctx, point, normal).None? ==> r == Scale(Scale(normal, multiplier), amount)
    ensures FirstHit(ctx, point, normal).Some?
      && LengthSq(Sub(FirstHit(ctx, point, normal).value, ctx.xf.point(point))) < LengthSq(Scale(Scale(normal, multiplier), amount))
      ==> r == ctx.xf.inverse(Sub(FirstHit(ctx, point, normal).value, ctx.xf.point(point)))
    ensures r != Scale(Scale(normal, multiplier), amount) ==>
      r == ctx.xf.inverse(Sub(FirstHit(ctx, point, normal).value, ctx.xf.point(point)))
  {
    var offset := Scale(Scale(normal, multiplier), amount);
    match FirstHit(ctx, point, normal)
    case None => offset
    case Some(hit) =>
      var diff := Sub(hit, ctx.xf.point(point));
      if LengthSq(diff) < LengthSq(offset) then ctx.xf.inverse(diff) else offset
  }

  /**
   * When the transform is length-preserving and its inverse inverts it, the bulge
   * displacement seen in world space is never longer than the distance to the first hit.
   */
  lemma ClampKeepsShortOfHit(ctx: Context, point: Vec, normal: Vec, multiplier: real, amount: real)
    requires Inverts(ctx.xf)
    requires Isometric(ctx.xf)
    requires FirstHit(ctx, point, normal).Some?
    ensures LengthSq(ctx.xf.vector(BulgeOffset(ctx, point, normal, multiplier, amount)))
      <= LengthSq(Sub(FirstHit(ctx, point, normal).value, ctx.xf.point(point)))
  {
    var offset := Scale(Scale(normal, multiplier), amount);
    assert LengthSq(ctx.xf.vector(offset)) == LengthSq(offset);
  }

  /** A uniform scale by 2 about the origin, with its exact inverse. */
  const ScaleByTwo: Transform := Transform(p => Scale(p, 2.0), v => Scale(v, 2.0), v => Scale(v, 0.5))

  /** The scale is a genuine affine map whose inverse undoes it; it is only not length-preserving. */
  lemma ScaleByTwoIsAffine()
    ensures Affine(ScaleByTwo)
    ensures Inverts(ScaleByTwo)
  {
    ScalingIsLinear(2.0);
    ScalingIsLinear(0.5);
    assert ScaleByTwo.vector == v => Scale(v, 2.0);
    assert ScaleByTwo.inverse == v => Scale(v, 0.5);
  }

  lemma ScalingIsLinear(k: real)
    ensures Linear(v => Scale(v, k))
  {
    forall v: Vec, w: Vec
      ensures Scale(Add(v, w), k) == Add(Scale(v, k), Scale(w, k))
    {
      assert (v.x + w.x) * k == v.x * k + w.x * k;
      assert (v.y + w.y) * k == v.y * k + w.y * k;
      assert (v.z + w.z) * k == v.z * k + w.z * k;
    }
    forall v: Vec, c: real
      ensures Scale(Scale(v, c), k) == Scale(Scale(v, k), c)
    {
      assert v.x * c * k == v.x * k * c;
      assert v.y * c * k == v.y * k * c;
      assert v.z * c * k == v.z * k * c;
    }
  }

  /** A hit no closer than the uncapped offset is long leaves the offset uncapped. */
  lemma UncappedWhenHitFar(ctx: Context, point: Vec, normal: Vec, multiplier: real, amount: real, hit: Vec)
    requires FirstHit(ctx, point, normal) == Some(hit)
    requires LengthSq(Scale(Scale(normal, multiplier), amount)) <= LengthSq(Sub(hit, ctx.xf.point(point)))
    ensures BulgeOffset(ctx, point, normal, multiplier, amount) == Scale(Scale(normal, multiplier), amount)
  {
  }

  /**
   * Under a uniform scale by 2, a genuine affine transform with an exact inverse,
   * the cap lets a vertex pass the first hit: a vertex at the origin with normal +x
   * and offset length 1 faces a collider 1.5 away in world space; the offset is not
   * capped, yet it moves the vertex 2 in world space.
   */
  lemma ClampMissesUnderScale(mesh: Mesh, collider: Collider, angle: AngleFn)
    requires collider.allIntersections(Zero, Vec(2.0, 0.0, 0.0)) == [Vec(1.5, 0.0, 0.0)]
    ensures Affine(ScaleByTwo) && Inverts(ScaleByTwo)
    ensures FirstHit(Context(mesh, ScaleByTwo, collider, angle), Zero, Vec(1.0, 0.0, 0.0)) == Some(Vec(1.5, 0.0, 0.0))
    ensures BulgeOffset(Context(mesh, ScaleByTwo, collider, angle), Zero, Vec(1.0, 0.0, 0.0), 1.0, 1.0)
      == Vec(1.0, 0.0, 0.0)
    ensures LengthSq(ScaleByTwo.vector(Vec(1.0, 0.0, 0.0))) > LengthSq(Vec(1.5, 0.0, 0.0))
  {
    var ctx := Context(mesh, ScaleByTwo, collider, angle);
    ScaleByTwoIsAffine();
    ScaledFirstHit(ctx);
    ScaledOffsetUncapped(ctx);
    ScaledDisplacement();
  }

  lemma ScaledFirstHit(ctx: Context)
    requires ctx.xf == ScaleByTwo
    requires ctx.collider.allIntersections(Zero, Vec(2.0, 0.0, 0.0)) == [Vec(1.5, 0.0, 0.0)]
    ensures FirstHit(ctx, Zero, Vec(1.0, 0.0, 0.0)) == Some(Vec(1.5, 0.0, 0.0))
  {
    ScaleByTwoOrigin();
    ScaleByTwoUnit();
  }

  lemma ScaleByTwoOrigin()
    ensures ScaleByTwo.point(Zero) == Zero
  {
  }

  lemma ScaleByTwoUnit()
    ensures ScaleByTwo.vector(Vec(1.0, 0.0, 0.0)) == Vec(2.0, 0.0, 0.0)
  {
  }

  lemma AxisLengths()
    ensures LengthSq(Vec(1.0, 0.0, 0.0)) == 1.0
    ensures LengthSq(Vec(1.5, 0.0, 0.0)) == 2.25
    ensures LengthSq(Vec(2.0, 0.0, 0.0)) == 4.0
  {
  }

  lemma ScaledOffsetUncapped(ctx: Context)
    requires ctx.xf == ScaleByTwo
    requires FirstHit(ctx, Zero, Vec(1.0, 0.0, 0.0)) == Some(Vec(1.5, 0.0, 0.0))
    ensures BulgeOffset(ctx, Zero, Vec(1.0, 0.0, 0.0), 1.0, 1.0) == Vec(1.0, 0.0, 0.0)
  {
    var unit := Vec(1.0, 0.0, 0.0);
    ScaleByTwoOrigin();
    AxisLengths();
    assert Scale(Scale(unit, 1.0), 1.0) == unit;
    assert Sub(Vec(1.5, 0.0, 0.0), Zero) == Vec(1.5, 0.0, 0.0);
    UncappedWhenHitFar(ctx, Zero, unit, 1.0, 1.0, Vec(1.5, 0.0, 0.0));
  }

  lemma ScaledDisplacement()
    ensures LengthSq(ScaleByTwo.vector(Vec(1.0, 0.0, 0.0))) > LengthSq(Vec(1.5, 0.0, 0.0))
  {
    ScaleByTwoUnit();
    AxisLengths();
  }

  /** Where a bulged vertex lands. */
  function Bulged(ctx: Context, point: Vec, normal: Vec, multiplier: real, amount: real): Vec {
    Add(point, BulgeOffset(ctx, point, normal, multiplier, amount))
  }

  /** The positions after one layer: every index in `layer` bulged once, every other vertex untouched. */
  function LayerApplied(ctx: Context, pts: seq<Vec>, layer: set<int>, multiplier: real, amount: real): (r: seq<Vec>)
    requires |ctx.mesh.normals| == |pts|
    ensures |r| == |pts|
    ensures forall j {:trigger r[j]} :: 0 <= j < |pts| ==>
      r[j] == if j in layer then Bulged(ctx, pts[j], ctx.mesh.normals[j], multiplier, amount) else pts[j]
  {
    seq(|pts|, j requires 0 <= j < |pts| =>
      if j in layer then Bulged(ctx, pts[j], ctx.mesh.normals[j], multiplier, amount) else pts[j])
  }

  /** Every vertex connected to some vertex of `layer`. */
  function Collect(adjacency: seq<seq<int>>, layer: set<int>): set<int> {
    set i, j | i in layer && 0 <= i < |adjacency| && j in adjacency[i] :: j
  }

  lemma CollectAdd(adjacency: seq<seq<int>>, done: set<int>, i: int)
    requires 0 <= i < |adjacency|
    ensures Collect(adjacency, done + {i}) == Collect(adjacency, done) + Elements(adjacency[i])
  {
    forall x | x in Collect(adjacency, done + {i})
      ensures x in Collect(adjacency, done) + Elements(adjacency[i])
    {
      var k, y :| k in done + {i} && 0 <= k < |adjacency| && y in adjacency[k] && x == y;
      if k != i {
        assert k in done && 0 <= k < |adjacency| && x in adjacency[k];
      }
    }
    forall x | x in Collect(adjacency, done) + Elements(adjacency[i])
      ensures x in Collect(adjacency, done + {i})
    {
      if x in Elements(adjacency[i]) {
        assert i in done + {i} && 0 <= i < |adjacency| && x in adjacency[i];
      } else {
        var k, y :| k in done && 0 <= k < |adjacency| && y in adjacency[k] && x == y;
        assert k in done + {i} && 0 <= k < |adjacency| && x in adjacency[k];
      }
    }
  }

  /** The members of `s` below `bound`. */
  function Below(s: set<int>, bound: int): set<int> {
    set x | x in s && x < bound
  }

  /** The layers a propagation starting at `layer` processes, in order. */
  function Layers(adjacency: seq<seq<int>>, past: set<int>, layer: set<int>, levels: int): seq<set<int>>
    decreases levels
  {
    if levels - 1 > 0 then
      [layer] + Layers(adjacency, past + layer, Collect(adjacency, layer) - (past + layer), levels - 1)
    else [layer]
  }

  /** `past_indices` when the propagation ends: extended by every layer that is followed by another. */
  function Visited(adjacency: seq<seq<int>>, past: set<int>, layer: set<int>, levels: int): set<int>
    decreases levels
  {
    if levels - 1 > 0 then
      Visited(adjacency, past + layer, Collect(adjacency, layer) - (past + layer), levels - 1)
    else past
  }

  /** A propagation processes `levels` layers, and exactly one when `levels` is 1 or less. */
  lemma {:induction false} LayerCount(adjacency: seq<seq<int>>, past: set<int>, layer: set<int>, levels: int)
    ensures |Layers(adjacency, past, layer, levels)| == if levels > 1 then levels else 1
    decreases levels
  {
    if levels - 1 > 0 {
      LayerCount(adjacency, past + layer, Collect(adjacency, layer) - (past + layer), levels - 1);
    }
  }

  /**
   * Starting from a layer disjoint from `past`, the layers are pairwise disjoint and
   * none meets `past`: no vertex is bulged twice, and no vertex of `past` is bulged.
   */
  lemma {:induction false} LayersDisjoint(adjacency: seq<seq<int>>, past: set<int>, layer: set<int>, levels: int)
    requires layer !! past
    ensures forall a :: 0 <= a < |Layers(adjacency, past, layer, levels)| ==>
      Layers(adjacency, past, layer, levels)[a] !! past
    ensures forall a, b :: 0 <= a < b < |Layers(adjacency, past, layer, levels)| ==>
      Layers(adjacency, past, layer, levels)[a] !! Layers(adjacency, past, layer, levels)[b]
    decreases levels
  {
    if levels - 1 > 0 {
      var next := Collect(adjacency, layer) - (past + layer);
      LayersDisjoint(adjacency, past + layer, next, levels - 1);
      var rest := Layers(adjacency, past + layer, next, levels - 1);
      assert Layers(adjacency, past, layer, levels) == [layer] + rest;
    }
  }

  /** The final `past_indices`: the starting ones and every layer except the last. */
  lemma {:induction false} VisitedIsPastAndLayers(adjacency: seq<seq<int>>, past: set<int>, layer: set<int>, levels: int)
    ensures forall x :: x in Visited(adjacency, past, layer, levels) <==>
      (x in past || exists a :: 0 <= a < |Layers(adjacency, past, layer, levels)| - 1 && x in Layers(adjacency, past, layer, levels)[a])
    decreases levels
  {
    if levels - 1 > 0 {
      var next := Collect(adjacency, layer) - (past + layer);
      VisitedIsPastAndLayers(adjacency, past + layer, next, levels - 1);
      var rest := Layers(adjacency, past + layer, next, levels - 1);
      var all := Layers(adjacency, past, layer, levels);
      assert all == [layer] + rest;
      LayerCount(adjacency, past + layer, next, levels - 1);
      forall x | x in Visited(adjacency, past, layer, levels)
        ensures x in past || exists a :: 0 <= a < |all| - 1 && x in all[a]
      {
        if x in layer {
          assert all[0] == layer;
        } else if x !in past {
          var a' :| 0 <= a' < |rest| - 1 && x in rest[a'];
          assert all[a' + 1] == rest[a'];
        }
      }
      forall x | x in past || exists a :: 0 <= a < |all| - 1 && x in all[a]
        ensures x in Visited(adjacency, past, layer, levels)
      {
        if x !in past {
          var a :| 0 <= a < |all| - 1 && x in all[a];
          if a > 0 {
            assert rest[a - 1] == all[a];
          }
        }
      }
    }
  }

  /** The positions when the propagation ends. */
  function BulgedPoints(ctx: Context, ramp: Ramp, pts: seq<Vec>, past: set<int>, layer: set<int>,
                        levels: int, multiplier: real, maxLevels: int): (r: seq<Vec>)
    requires |ctx.mesh.normals| == |pts|
    requires maxLevels != 0
    ensures |r| == |pts|
    decreases levels
  {
    var moved := LayerApplied(ctx, pts, layer, multiplier, BulgeAmount(ramp, levels, maxLevels));
    if levels - 1 > 0 then
      BulgedPoints(ctx, ramp, moved, past + layer, Collect(ctx.mesh.adjacency, layer) - (past + layer),
                   levels - 1, multiplier, maxLevels)
    else moved
  }

  /** A vertex in none of the layers keeps its position. */
  lemma {:induction false} BulgedOutsideLayers(ctx: Context, ramp: Ramp, pts: seq<Vec>, past: set<int>, layer: set<int>,
                                               levels: int, multiplier: real, maxLevels: int, j: int)
    requires |ctx.mesh.normals| == |pts|
    requires maxLevels != 0
    requires 0 <= j < |pts|
    requires forall a :: 0 <= a < |Layers(ctx.mesh.adjacency, past, layer, levels)| ==>
      j !in Layers(ctx.mesh.adjacency, past, layer, levels)[a]
    ensures BulgedPoints(ctx, ramp, pts, past, layer, levels, multiplier, maxLevels)[j] == pts[j]
    decreases levels
  {
    var layers := Layers(ctx.mesh.adjacency, past, layer, levels);
    var moved := LayerApplied(ctx, pts, layer, multiplier, BulgeAmount(ramp, levels, maxLevels));
    assert j !in layers[0];
    assert moved[j] == pts[j];
    if levels - 1 > 0 {
      var next := Collect(ctx.mesh.adjacency, layer) - (past + layer);
      var rest := Layers(ctx.mesh.adjacency, past + layer, next, levels - 1);
      assert layers == [layer] + rest;
      forall a' | 0 <= a' < |rest|
        ensures j !in rest[a']
      {
        assert j !in layers[a' + 1];
      }
      BulgedOutsideLayers(ctx, ramp, moved, past + layer, next, levels - 1, multiplier, maxLevels, j);
    }
  }

  /**
   * A vertex of layer `a` is bulged once, from its starting position, by the amount of
   * level `levels - a`.
   */
  lemma {:induction false} BulgedInLayer(ctx: Context, ramp: Ramp, pts: seq<Vec>, past: set<int>, layer: set<int>,
                                         levels: int, multiplier: real, maxLevels: int, j: int, a: int)
    requires |ctx.mesh.normals| == |pts|
    requires maxLevels != 0
    requires layer !! past
    requires 0 <= j < |pts|
    requires 0 <= a < |Layers(ctx.mesh.adjacency, past, layer, levels)|
    requires j in Layers(ctx.mesh.adjacency, past, layer, levels)[a]
    ensures BulgedPoints(ctx, ramp, pts, past, layer, levels, multiplier, maxLevels)[j]
      == Bulged(ctx, pts[j], ctx.mesh.normals[j], multiplier, BulgeAmount(ramp, levels - a, maxLevels))
    decreases levels
  {
    var layers := Layers(ctx.mesh.adjacency, past, layer, levels);
    var amount := BulgeAmount(ramp, levels, maxLevels);
    var moved := LayerApplied(ctx, pts, layer, multiplier, amount);
    LayersDisjoint(ctx.mesh.adjacency, past, layer, levels);
    if levels - 1 > 0 {
      var next := Collect(ctx.mesh.adjacency, layer) - (past + layer);
      var rest := Layers(ctx.mesh.adjacency, past + layer, next, levels - 1);
      assert layers == [layer] + rest;
      if a == 0 {
        forall a' | 0 <= a' < |rest|
          ensures j !in rest[a']
        {
          assert layers[0] !! layers[a' + 1];
        }
        BulgedOutsideLayers(ctx, ramp, moved, past + layer, next, levels - 1, multiplier, maxLevels, j);
      } else {
        assert layers[0] !! layers[a];
        assert moved[j] == pts[j];
        BulgedInLayer(ctx, ramp, moved, past + layer, next, levels - 1, multiplier, maxLevels, j, a - 1);
        assert levels - 1 - (a - 1) == levels - a;
      }
    } else {
      assert layers == [layer];
    }
  }

  /** With a zero multiplier the offset is zero, and the cap never replaces it. */
  lemma ZeroMultiplierOffset(ctx: Context, point: Vec, normal: Vec, amount: real)
    ensures BulgeOffset(ctx, point, normal, 0.0, amount) == Zero
  {
    assert Scale(Scale(normal, 0.0), amount) == Zero;
    match FirstHit(ctx, point, normal)
    case None =>
    case Some(hit) =>
      LengthSqNonNegative(Sub(hit, ctx.xf.point(point)));
  }

  /** With a zero multiplier (a zero bulge or a zero envelope) the propagation moves nothing. */
  lemma {:induction false} ZeroMultiplierStill(ctx: Context, ramp: Ramp, pts: seq<Vec>, past: set<int>, layer: set<int>,
                                               levels: int, maxLevels: int)
    requires |ctx.mesh.normals| == |pts|
    requires maxLevels != 0
    ensures BulgedPoints(ctx, ramp, pts, past, layer, levels, 0.0, maxLevels) == pts
    decreases levels
  {
    var moved := LayerApplied(ctx, pts, layer, 0.0, BulgeAmount(ramp, levels, maxLevels));
    forall j | 0 <= j < |pts|
      ensures moved[j] == pts[j]
    {
      ZeroMultiplierOffset(ctx, pts[j], ctx.mesh.normals[j], BulgeAmount(ramp, levels, maxLevels));
      assert Add(pts[j], Zero) == pts[j];
    }
    assert moved == pts;
    if levels - 1 > 0 {
      ZeroMultiplierStill(ctx, ramp, pts, past + layer, Collect(ctx.mesh.adjacency, layer) - (past + layer),
                          levels - 1, maxLevels);
    }
  }

  /**
   * `deformNeighbours`: bulges `indices`, then, while levels remain, extends
   * `past_indices` by them and recurses on the collected neighbours not yet visited.
   * Returns the final `past_indices`.
   */
  method DeformNeighbours(points: array<Vec>, ctx: Context, past: set<int>, indices: set<int>,
                          ramp: Ramp, levels: int, multiplier: real, maxLevels: int)
    returns (visited: set<int>)
    requires WellFormed(ctx.mesh, points.Length)
    requires forall i :: i in indices ==> 0 <= i < points.Length
    requires maxLevels != 0
    modifies points
    ensures points[..] == BulgedPoints(ctx, ramp, old(points[..]), past, indices, levels, multiplier, maxLevels)
    ensures visited == Visited(ctx.mesh.adjacency, past, indices, levels)
    decreases levels
  {
    var bulgeAmount := BulgeAmount(ramp, levels, maxLevels);
    ghost var start := points[..];
    var neighbouring: set<int> := {};
    // The layer is visited in ascending index order; each vertex's move reads only
    // its own position, so the order of `list(set(...))` cannot change the result.
    for v := 0 to points.Length
      invariant neighbouring == Collect(ctx.mesh.adjacency, Below(indices, v))
      invariant forall j :: 0 <= j < points.Length ==>
        points[j] == if j in indices && j < v
                     then Bulged(ctx, start[j], ctx.mesh.normals[j], multiplier, bulgeAmount)
                     else start[j]
    {
      if v in indices {
        var point := points[v];
        points[v] := Add(point, BulgeOffset(ctx, point, ctx.mesh.normals[v], multiplier, bulgeAmount));
        CollectAdd(ctx.mesh.adjacency, Below(indices, v), v);
        neighbouring := neighbouring + Elements(ctx.mesh.adjacency[v]);
      }
      assert Below(indices, v + 1) == Below(indices, v) + (if v in indices then {v} else {});
    }
    assert Below(indices, points.Length) == indices;
    assert points[..] == LayerApplied(ctx, start, indices, multiplier, bulgeAmount);
    var nextLevels := levels - 1;
    if nextLevels > 0 {
      var pastNow := past + indices;
      var newIndices := neighbouring - pastNow;
      visited := DeformNeighbours(points, ctx, pastNow, newIndices, ramp, nextLevels, multiplier, maxLevels);
    } else {
      visited := past;
    }
  }
}
