/**
 * The contact ("dent") pass of mnCollisionDeformer.deform: every vertex is probed
 * once along its inverted world normal, and each vertex found inside the collider
 * is pulled towards its contact point by the envelope weight.
 */
module Contact {
  import opened Wrappers
  import opened Vectors
  import opened InsideTest

  /** The deformed mesh's fixed data: per-vertex object-space normals and connected vertices. */
  datatype Mesh = Mesh(normals: seq<Vec>, adjacency: seq<seq<int>>)

  /** A mesh of `n` vertices whose adjacency only names vertices of the mesh. */
  predicate WellFormed(mesh: Mesh, n: nat) {
    && |mesh.normals| == n
    && |mesh.adjacency| == n
    && forall i, j :: 0 <= i < n && 0 <= j < |mesh.adjacency[i]| ==> 0 <= mesh.adjacency[i][j] < n
  }

  /** Everything one evaluation reads besides the positions and the parameters. */
  datatype Context = Context(mesh: Mesh, xf: Transform, collider: Collider, angle: AngleFn)

  function Elements(s: seq<int>): set<int> {
    set x | x in s
  }

  /** The contact point of a vertex at `point` with object-space normal `normal`, probed from its world position along its inverted world normal. */
  function ContactOf(ctx: Context, point: Vec, normal: Vec): Option<Vec> {
    GetIntersection(
      ctx.collider, ctx.angle,
      ctx.xf.point(point),
      Neg(ctx.xf.vector(normal)))
  }

  /** The local offset that moves `point` the `envelope` fraction of the way to `contact` (in world space). */
  function DentOffset(ctx: Context, envelope: real, point: Vec, contact: Vec): Vec {
    ctx.xf.inverse(Scale(Sub(contact, ctx.xf.point(point)), envelope))
  }

  /** Where the contact pass leaves a vertex. */
  function Dented(ctx: Context, envelope: real, point: Vec, normal: Vec): Vec {
    match ContactOf(ctx, point, normal)
    case Some(c) => Add(point, DentOffset(ctx, envelope, point, c))
    case None => point
  }

  /** The positions after the contact pass: only vertices with a contact move. */
  function DentedPoints(ctx: Context, envelope: real, pts: seq<Vec>): (r: seq<Vec>)
    requires |ctx.mesh.normals| == |pts|
    ensures |r| == |pts|
    ensures forall i {:trigger r[i]} :: 0 <= i < |pts| ==> r[i] == Dented(ctx, envelope, pts[i], ctx.mesh.normals[i])
    ensures forall i {:trigger r[i]} :: 0 <= i < |pts| && !Contacts(ctx, pts)[i] ==> r[i] == pts[i]
  {
    seq(|pts|, i requires 0 <= i < |pts| => Dented(ctx, envelope, pts[i], ctx.mesh.normals[i]))
  }

  /** Which vertices of `pts` the inside test finds inside the collider, in vertex order. */
  function Contacts(ctx: Context, pts: seq<Vec>): (hits: seq<bool>)
    requires |ctx.mesh.normals| == |pts|
    ensures |hits| == |pts|
    ensures forall i {:trigger hits[i]} :: 0 <= i < |pts| ==> (hits[i] <==> ContactOf(ctx, pts[i], ctx.mesh.normals[i]).Some?)
  {
    seq(|pts|, i requires 0 <= i < |pts| => ContactOf(ctx, pts[i], ctx.mesh.normals[i]).Some?)
  }

  /** `intersecting_indices` after the first `k` vertices have been visited. */
  function Intersecting(hits: seq<bool>, k: nat): seq<int>
    requires k <= |hits|
  {
    if k == 0 then []
    else Intersecting(hits, k - 1) + (if hits[k - 1] then [k - 1] else [])
  }

  /** `neighbouring_indices` after the first `k` vertices have been visited. */
  function Neighbouring(hits: seq<bool>, adjacency: seq<seq<int>>, k: nat): seq<int>
    requires k <= |hits| == |adjacency|
  {
    if k == 0 then []
    else Neighbouring(hits, adjacency, k - 1) + (if hits[k - 1] then adjacency[k - 1] else [])
  }

  /** `inside_mesh` after the first `k` vertices have been visited: no vertex so far missed. */
  predicate AllHit(hits: seq<bool>, k: nat)
    requires k <= |hits|
  {
    k == 0 || (AllHit(hits, k - 1) && hits[k - 1])
  }

  lemma {:induction false} AllHitMeansEvery(hits: seq<bool>, k: nat)
    requires k <= |hits|
    ensures AllHit(hits, k) <==> forall i :: 0 <= i < k ==> hits[i]
  {
    if k > 0 {
      AllHitMeansEvery(hits, k - 1);
    }
  }

  /** The loop state of the contact pass: the positions and the three values it accumulates. */
  datatype Pass = Pass(points: seq<Vec>, intersecting: seq<int>, neighbouring: seq<int>, insideMesh: bool)

  /** One iteration of the contact pass, at vertex `k`. */
  function Visit(ctx: Context, envelope: real, s: Pass, k: int): (r: Pass)
    requires |ctx.mesh.normals| == |s.points| == |ctx.mesh.adjacency|
    requires 0 <= k < |s.points|
    ensures |r.points| == |s.points|
  {
    var point := s.points[k];
    var dented := s.points[k := Dented(ctx, envelope, point, ctx.mesh.normals[k])];
    if ContactOf(ctx, point, ctx.mesh.normals[k]).Some? then
      Pass(dented, s.intersecting + [k], s.neighbouring + ctx.mesh.adjacency[k], s.insideMesh)
    else
      Pass(dented, s.intersecting, s.neighbouring, false)
  }

  /** The loop state after the first `k` iterations, starting from positions `pts`. */
  function Scan(ctx: Context, envelope: real, pts: seq<Vec>, k: nat): (r: Pass)
    requires |ctx.mesh.normals| == |pts| == |ctx.mesh.adjacency|
    requires k <= |pts|
    ensures |r.points| == |pts|
  {
    if k == 0 then Pass(pts, [], [], true)
    else Visit(ctx, envelope, Scan(ctx, envelope, pts, k - 1), k - 1)
  }

  /** After `k` iterations the first `k` vertices are dented and the rest are untouched. */
  lemma {:induction false} ScanPoints(ctx: Context, envelope: real, pts: seq<Vec>, k: nat)
    requires |ctx.mesh.normals| == |pts| == |ctx.mesh.adjacency|
    requires k <= |pts|
    ensures forall j {:trigger Scan(ctx, envelope, pts, k).points[j]} :: 0 <= j < |pts| ==>
      Scan(ctx, envelope, pts, k).points[j] == if j < k then Dented(ctx, envelope, pts[j], ctx.mesh.normals[j]) else pts[j]
  {
    if k > 0 {
      ScanPoints(ctx, envelope, pts, k - 1);
    }
  }

  /** The iterations so far have not touched the vertices still to be visited. */
  lemma {:induction false} ScanAhead(ctx: Context, envelope: real, pts: seq<Vec>, k: nat)
    requires |ctx.mesh.normals| == |pts| == |ctx.mesh.adjacency|
    requires k <= |pts|
    ensures forall j {:trigger Scan(ctx, envelope, pts, k).points[j]} :: k <= j < |pts| ==>
      Scan(ctx, envelope, pts, k).points[j] == pts[j]
  {
    if k > 0 {
      ScanAhead(ctx, envelope, pts, k - 1);
    }
  }

  /** After `k` iterations `intersecting_indices` lists the contacted vertices among the first `k`. */
  lemma {:induction false} ScanIntersecting(ctx: Context, envelope: real, pts: seq<Vec>, k: nat)
    requires |ctx.mesh.normals| == |pts| == |ctx.mesh.adjacency|
    requires k <= |pts|
    ensures Scan(ctx, envelope, pts, k).intersecting == Intersecting(Contacts(ctx, pts), k)
  {
    if k > 0 {
      ScanIntersecting(ctx, envelope, pts, k - 1);
      ScanAhead(ctx, envelope, pts, k - 1);
    }
  }

  /** After `k` iterations `neighbouring_indices` joins the neighbours of the contacted vertices among the first `k`. */
  lemma {:induction false} ScanNeighbouring(ctx: Context, envelope: real, pts: seq<Vec>, k: nat)
    requires |ctx.mesh.normals| == |pts| == |ctx.mesh.adjacency|
    requires k <= |pts|
    ensures Scan(ctx, envelope, pts, k).neighbouring == Neighbouring(Contacts(ctx, pts), ctx.mesh.adjacency, k)
  {
    if k > 0 {
      ScanNeighbouring(ctx, envelope, pts, k - 1);
      ScanAhead(ctx, envelope, pts, k - 1);
    }
  }

  /** After `k` iterations `inside_mesh` says that none of the first `k` vertices missed. */
  lemma {:induction false} ScanInside(ctx: Context, envelope: real, pts: seq<Vec>, k: nat)
    requires |ctx.mesh.normals| == |pts| == |ctx.mesh.adjacency|
    requires k <= |pts|
    ensures Scan(ctx, envelope, pts, k).insideMesh == AllHit(Contacts(ctx, pts), k)
  {
    if k > 0 {
      ScanInside(ctx, envelope, pts, k - 1);
      ScanAhead(ctx, envelope, pts, k - 1);
    }
  }

  /** The state the loop ends in is the one the contact pass promises. */
  lemma ScanComplete(ctx: Context, envelope: real, pts: seq<Vec>)
    requires |ctx.mesh.normals| == |pts| == |ctx.mesh.adjacency|
    ensures Scan(ctx, envelope, pts, |pts|).points == DentedPoints(ctx, envelope, pts)
    ensures Scan(ctx, envelope, pts, |pts|).intersecting == Intersecting(Contacts(ctx, pts), |pts|)
    ensures Scan(ctx, envelope, pts, |pts|).neighbouring == Neighbouring(Contacts(ctx, pts), ctx.mesh.adjacency, |pts|)
    ensures Scan(ctx, envelope, pts, |pts|).insideMesh <==> forall i :: 0 <= i < |pts| ==> Contacts(ctx, pts)[i]
  {
    ScanPoints(ctx, envelope, pts, |pts|);
    ScanIntersecting(ctx, envelope, pts, |pts|);
    ScanNeighbouring(ctx, envelope, pts, |pts|);
    ScanInside(ctx, envelope, pts, |pts|);
    AllHitMeansEvery(Contacts(ctx, pts), |pts|);
  }

  /**
   * The `while not isDone()` loop of deform. Returns `intersecting_indices`,
   * `neighbouring_indices` and `inside_mesh`.
   */
  method ContactPass(points: array<Vec>, ctx: Context, envelope: real)
    returns (intersecting: seq<int>, neighbouring: seq<int>, insideMesh: bool)
    requires |ctx.mesh.normals| == points.Length == |ctx.mesh.adjacency|
    modifies points
    ensures points[..] == DentedPoints(ctx, envelope, old(points[..]))
    ensures intersecting == Intersecting(Contacts(ctx, old(points[..])), points.Length)
    ensures neighbouring == Neighbouring(Contacts(ctx, old(points[..])), ctx.mesh.adjacency, points.Length)
    ensures insideMesh <==> forall i :: 0 <= i < points.Length ==> Contacts(ctx, old(points[..]))[i]
  {
    ghost var orig := points[..];
    intersecting, neighbouring, insideMesh := [], [], true;
    var index := 0;
    while index < points.Length
      invariant 0 <= index <= points.Length
      invariant Scan(ctx, envelope, orig, index) == Pass(points[..], intersecting, neighbouring, insideMesh)
    {
      intersecting, neighbouring, insideMesh := VisitVertex(points, ctx, envelope, index, intersecting, neighbouring, insideMesh);
      index := index + 1;
    }
    ScanComplete(ctx, envelope, orig);
  }

  /** The body of the contact loop at vertex `index`: probe it, move it if it has a contact, and record the outcome. */
  method VisitVertex(points: array<Vec>, ctx: Context, envelope: real, index: int,
                     intersecting: seq<int>, neighbouring: seq<int>, insideMesh: bool)
    returns (intersecting': seq<int>, neighbouring': seq<int>, insideMesh': bool)
    requires |ctx.mesh.normals| == points.Length == |ctx.mesh.adjacency|
    requires 0 <= index < points.Length
    modifies points
    ensures Pass(points[..], intersecting', neighbouring', insideMesh')
      == Visit(ctx, envelope, Pass(old(points[..]), intersecting, neighbouring, insideMesh), index)
  {
    intersecting', neighbouring', insideMesh' := intersecting, neighbouring, insideMesh;
    var point := points[index];
    var contact := ContactOf(ctx, point, ctx.mesh.normals[index]);
    if contact.Some? {
      points[index] := Add(point, DentOffset(ctx, envelope, point, contact.value));
      intersecting' := intersecting + [index];
      neighbouring' := neighbouring + ctx.mesh.adjacency[index];
    } else {
      insideMesh' := false;
    }
  }

  /**
   * `intersecting_indices` lists exactly the contacted vertices, each once and in
   * visiting (ascending) order.
   */
  lemma {:induction false} IntersectingIsContacted(hits: seq<bool>, k: nat)
    requires k <= |hits|
    ensures forall x :: x in Intersecting(hits, k) <==> 0 <= x < k && hits[x]
  {
    if k > 0 {
      IntersectingIsContacted(hits, k - 1);
    }
  }

  /** Each contacted vertex is appended once: the list is strictly ascending and below `k`. */
  lemma {:induction false} IntersectingAscending(hits: seq<bool>, k: nat)
    requires k <= |hits|
    ensures forall a :: 0 <= a < |Intersecting(hits, k)| ==> 0 <= Intersecting(hits, k)[a] < k
    ensures forall a, b :: 0 <= a < b < |Intersecting(hits, k)| ==>
      Intersecting(hits, k)[a] < Intersecting(hits, k)[b]
  {
    if k > 0 {
      IntersectingAscending(hits, k - 1);
      var prev := Intersecting(hits, k - 1);
      var s := Intersecting(hits, k);
      assert s == prev + (if hits[k - 1] then [k - 1] else []);
      assert forall a :: 0 <= a < |prev| ==> s[a] == prev[a];
    }
  }

  /** `neighbouring_indices` holds exactly the vertices connected to some contacted vertex. */
  lemma {:induction false} NeighbouringIsAdjacent(hits: seq<bool>, adjacency: seq<seq<int>>, k: nat)
    requires k <= |hits| == |adjacency|
    ensures forall x :: x in Neighbouring(hits, adjacency, k) <==>
      exists i :: 0 <= i < k && hits[i] && x in adjacency[i]
  {
    if k > 0 {
      NeighbouringIsAdjacent(hits, adjacency, k - 1);
    }
  }

  /** With `envelope = 0` the contact pass moves no vertex, whenever the inverse map is linear. */
  lemma ZeroEnvelopeDentsNothing(ctx: Context, pts: seq<Vec>)
    requires |ctx.mesh.normals| == |pts|
    requires Linear(ctx.xf.inverse)
    ensures DentedPoints(ctx, 0.0, pts) == pts
  {
    LinearZero(ctx.xf.inverse);
    forall i | 0 <= i < |pts|
      ensures DentedPoints(ctx, 0.0, pts)[i] == pts[i]
    {
      var c := ContactOf(ctx, pts[i], ctx.mesh.normals[i]);
      if c.Some? {
        assert Scale(Sub(c.value, ctx.xf.point(pts[i])), 0.0) == Zero;
        assert Add(pts[i], Zero) == pts[i];
      }
    }
  }

  /**
   * When the transform is affine and its inverse really inverts it, a contacted vertex
   * lands, in world space, the `envelope` fraction of the way from where it was to its
   * contact point.
   */
  lemma DentInterpolates(ctx: Context, envelope: real, pts: seq<Vec>, i: int)
    requires |ctx.mesh.normals| == |pts|
    requires 0 <= i < |pts|
    requires Affine(ctx.xf) && Inverts(ctx.xf)
    requires Contacts(ctx, pts)[i]
    ensures var ws := ctx.xf.point(pts[i]);
      ctx.xf.point(DentedPoints(ctx, envelope, pts)[i])
        == Add(ws, Scale(Sub(ContactOf(ctx, pts[i], ctx.mesh.normals[i]).value, ws), envelope))
  {
    var ws := ctx.xf.point(pts[i]);
    var c := ContactOf(ctx, pts[i], ctx.mesh.normals[i]).value;
    var world := Scale(Sub(c, ws), envelope);
    assert ctx.xf.point(Add(pts[i], ctx.xf.inverse(world))) == Add(ws, ctx.xf.vector(ctx.xf.inverse(world)));
  }
}
