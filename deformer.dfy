/**
 * mnCollisionDeformer.deform: the contact pass, then either the restore of the
 * original positions (every vertex was found inside the collider) or, when both
 * `levels` and `bulge` are non-zero, the bulge propagated from the ring of
 * vertices around the contact region.
 */
module Deformer {
  import opened Wrappers
  import opened Vectors
  import opened InsideTest
  import opened Contact
  import opened Bulge

  /** Every vertex of `pts` is found inside the collider. */
  predicate FullyEnclosed(ctx: Context, pts: seq<Vec>)
    requires |ctx.mesh.normals| == |pts|
  {
    forall i :: 0 <= i < |pts| ==> Contacts(ctx, pts)[i]
  }

  /** `intersecting_indices` as a set: the vertices the contact pass moved. */
  function ContactRegion(ctx: Context, pts: seq<Vec>): set<int>
    requires |ctx.mesh.normals| == |pts| == |ctx.mesh.adjacency|
  {
    Elements(Intersecting(Contacts(ctx, pts), |pts|))
  }

  /** `outer_neighbour_indices`: the neighbours of contacted vertices that are not contacted themselves. */
  function SeedLayer(ctx: Context, pts: seq<Vec>): set<int>
    requires |ctx.mesh.normals| == |pts| == |ctx.mesh.adjacency|
  {
    Elements(Neighbouring(Contacts(ctx, pts), ctx.mesh.adjacency, |pts|)) - ContactRegion(ctx, pts)
  }

  /** The positions `deform` leaves, from the positions `pts` it starts with. */
  function DeformResult(ctx: Context, envelope: real, bulge: real, levels: int, ramp: Ramp, pts: seq<Vec>): (r: seq<Vec>)
    requires |ctx.mesh.normals| == |pts| == |ctx.mesh.adjacency|
    ensures |r| == |pts|
  {
    var dented := DentedPoints(ctx, envelope, pts);
    if FullyEnclosed(ctx, pts) then pts
    else if levels != 0 && bulge != 0.0 then
      BulgedPoints(ctx, ramp, dented, ContactRegion(ctx, pts), SeedLayer(ctx, pts), levels, bulge * envelope, levels)
    else dented
  }

  /**
   * `deform`. `collider` is None when the collider plug holds no mesh (the source's
   * `try`/`except` around reading it), and then nothing moves.
   */
  method Deform(points: array<Vec>, mesh: Mesh, xf: Transform, angle: AngleFn, collider: Option<Collider>,
                envelope: real, bulge: real, levels: int, ramp: Ramp)
    requires WellFormed(mesh, points.Length)
    modifies points
    ensures collider.None? ==> points[..] == old(points[..])
    ensures collider.Some? ==>
      points[..] == DeformResult(Context(mesh, xf, collider.value, angle), envelope, bulge, levels, ramp, old(points[..]))
  {
    if collider.None? {
      return;
    }
    var ctx := Context(mesh, xf, collider.value, angle);
    var origPoints := points[..];
    var intersecting, neighbouring, insideMesh := ContactPass(points, ctx, envelope);
    if insideMesh {
      forall i | 0 <= i < points.Length {
        points[i] := origPoints[i];
      }
      assert points[..] == origPoints;
    } else if levels != 0 && bulge != 0.0 {
      var outerNeighbours := Elements(neighbouring) - Elements(intersecting);
      assert outerNeighbours == SeedLayer(ctx, origPoints);
      SeedLayerWithinMesh(ctx, origPoints);
      // `deform` discards the grown `past_indices` the walk returns.
      var _ := DeformNeighbours(points, ctx, Elements(intersecting), outerNeighbours,
                                ramp, levels, bulge * envelope, levels);
    }
  }

  /** The seed layer only names vertices of the mesh. */
  lemma SeedLayerWithinMesh(ctx: Context, pts: seq<Vec>)
    requires WellFormed(ctx.mesh, |pts|)
    ensures forall x :: x in SeedLayer(ctx, pts) ==> 0 <= x < |pts|
  {
    NeighbouringIsAdjacent(Contacts(ctx, pts), ctx.mesh.adjacency, |pts|);
    forall x | x in SeedLayer(ctx, pts)
      ensures 0 <= x < |pts|
    {
      var i :| 0 <= i < |pts| && Contacts(ctx, pts)[i] && x in ctx.mesh.adjacency[i];
      var k :| 0 <= k < |ctx.mesh.adjacency[i]| && ctx.mesh.adjacency[i][k] == x;
    }
  }

  /** The contact region holds exactly the vertices found inside the collider. */
  lemma ContactRegionMembers(ctx: Context, pts: seq<Vec>)
    requires |ctx.mesh.normals| == |pts| == |ctx.mesh.adjacency|
    ensures forall x :: x in ContactRegion(ctx, pts) <==> 0 <= x < |pts| && Contacts(ctx, pts)[x]
  {
    IntersectingIsContacted(Contacts(ctx, pts), |pts|);
  }

  /**
   * The seed layer holds exactly the vertices that are connected to a contacted
   * vertex and are not contacted themselves.
   */
  lemma SeedLayerMembers(ctx: Context, pts: seq<Vec>)
    requires |ctx.mesh.normals| == |pts| == |ctx.mesh.adjacency|
    ensures forall x :: x in SeedLayer(ctx, pts) <==>
      && (exists i :: 0 <= i < |pts| && Contacts(ctx, pts)[i] && x in ctx.mesh.adjacency[i])
      && !(0 <= x < |pts| && Contacts(ctx, pts)[x])
  {
    ContactRegionMembers(ctx, pts);
    NeighbouringIsAdjacent(Contacts(ctx, pts), ctx.mesh.adjacency, |pts|);
  }

  /**
   * A vertex the contact pass moved keeps its dented position: the bulge never
   * reaches the contact region.
   */
  lemma ContactedVertexKeepsDent(ctx: Context, envelope: real, bulge: real, levels: int, ramp: Ramp,
                                 pts: seq<Vec>, i: int)
    requires |ctx.mesh.normals| == |pts| == |ctx.mesh.adjacency|
    requires 0 <= i < |pts| && Contacts(ctx, pts)[i]
    requires !FullyEnclosed(ctx, pts)
    ensures DeformResult(ctx, envelope, bulge, levels, ramp, pts)[i] == DentedPoints(ctx, envelope, pts)[i]
  {
    if levels != 0 && bulge != 0.0 {
      var past := ContactRegion(ctx, pts);
      var seed := SeedLayer(ctx, pts);
      ContactRegionMembers(ctx, pts);
      assert i in past;
      LayersDisjoint(ctx.mesh.adjacency, past, seed, levels);
      var layers := Layers(ctx.mesh.adjacency, past, seed, levels);
      forall a | 0 <= a < |layers|
        ensures i !in layers[a]
      {
        assert layers[a] !! past;
      }
      BulgedOutsideLayers(ctx, ramp, DentedPoints(ctx, envelope, pts), past, seed, levels, bulge * envelope, levels, i);
    }
  }

  /**
   * A vertex of bulge layer `a` was not dented, and ends bulged from its original
   * position by the amount of level `levels - a`, with multiplier `bulge * envelope`.
   */
  lemma LayerVertexBulged(ctx: Context, envelope: real, bulge: real, levels: int, ramp: Ramp,
                          pts: seq<Vec>, j: int, a: int)
    requires |ctx.mesh.normals| == |pts| == |ctx.mesh.adjacency|
    requires !FullyEnclosed(ctx, pts) && levels != 0 && bulge != 0.0
    requires 0 <= j < |pts|
    requires 0 <= a < |Layers(ctx.mesh.adjacency, ContactRegion(ctx, pts), SeedLayer(ctx, pts), levels)|
    requires j in Layers(ctx.mesh.adjacency, ContactRegion(ctx, pts), SeedLayer(ctx, pts), levels)[a]
    ensures !Contacts(ctx, pts)[j]
    ensures DeformResult(ctx, envelope, bulge, levels, ramp, pts)[j]
      == Bulged(ctx, pts[j], ctx.mesh.normals[j], bulge * envelope, BulgeAmount(ramp, levels - a, levels))
  {
    var past := ContactRegion(ctx, pts);
    var seed := SeedLayer(ctx, pts);
    var dented := DentedPoints(ctx, envelope, pts);
    ContactRegionMembers(ctx, pts);
    LayersDisjoint(ctx.mesh.adjacency, past, seed, levels);
    assert j !in past;
    assert dented[j] == pts[j];
    BulgedInLayer(ctx, ramp, dented, past, seed, levels, bulge * envelope, levels, j, a);
  }

  /** With `envelope = 0` deform moves nothing, whenever the inverse map is linear. */
  lemma ZeroEnvelopeIsIdentity(ctx: Context, bulge: real, levels: int, ramp: Ramp, pts: seq<Vec>)
    requires |ctx.mesh.normals| == |pts| == |ctx.mesh.adjacency|
    requires Linear(ctx.xf.inverse)
    ensures DeformResult(ctx, 0.0, bulge, levels, ramp, pts) == pts
  {
    ZeroEnvelopeDentsNothing(ctx, pts);
    if !FullyEnclosed(ctx, pts) && levels != 0 && bulge != 0.0 {
      assert bulge * 0.0 == 0.0;
      ZeroMultiplierStill(ctx, ramp, pts, ContactRegion(ctx, pts), SeedLayer(ctx, pts), levels, levels);
    }
  }
}
