/** The hierarchy against the all-pairs test, for the interval test itself. */
module BvhTheorems {
  import opened TriangleTest
  import opened TriangleSoundness
  import opened TriangleCompleteness
  import opened Matrix
  import opened ClosedMesh
  import opened MassProps
  import opened Bvh

  function Hit(): (Tri, Tri) -> bool { (t1: Tri, t2: Tri) => TriTri(t1, t2) }

  /** No accepted pair lies in the tolerance band. */
  ghost predicate OutsideBand(a: seq<Tri>, b: seq<Tri>) {
    forall i, j :: 0 <= i < |a| && 0 <= j < |b| && TriTri(a[i], b[j]) ==> Crosses(a[i], b[j])
  }

  /** Outside the tolerance band the search over the two hierarchies answers exactly as testing
      every pair of triangles would, and a positive answer exhibits a common point. */
  lemma CollisionIsAllPairs(a: Listing, ta: Tree, b: Listing, tb: Tree)
    requires Part(a, ta) && Part(b, tb) && OutsideBand(a.tris, b.tris)
    ensures Found(ta, tb, TouchOf(a, b, Hit())) <==> AnyPair(a.tris, b.tris, Hit())
  {
    forall i, j | 0 <= i < |a.tris| && 0 <= j < |b.tris| && Hit()(a.tris[i], b.tris[j])
      ensures Overlaps(BoxOf(a.tris[i]), BoxOf(b.tris[j]))
    {
      AcceptedPairOverlaps(a.tris[i], b.tris[j]);
    }
    SearchIsAllPairs(a, ta, b, tb, Hit());
  }

  /** Every pair of triangles that reach both sides of each other's planes is clear. */
  ghost predicate AllClear(a: seq<Tri>, b: seq<Tri>) {
    forall i, j :: 0 <= i < |a| && 0 <= j < |b| && Crosses(a[i], b[j]) ==> Clear(a[i], b[j])
  }

  /** Some triangle of one part shares a point with some triangle of the other. */
  ghost predicate AnyShared(a: seq<Tri>, b: seq<Tri>) {
    exists i, j :: 0 <= i < |a| && 0 <= j < |b| && ShareAPoint(a[i], b[j])
  }

  /** Some pair has a common point among those its intervals stand for. */
  ghost predicate AnyMet(a: seq<Tri>, b: seq<Tri>) {
    exists i, j :: 0 <= i < |a| && 0 <= j < |b| && Met(a[i], b[j])
  }

  /** Some accepted pair has overlapping boxes. */
  ghost predicate AnyOverlapping(a: seq<Tri>, b: seq<Tri>) {
    exists i, j ::
      0 <= i < |a| && 0 <= j < |b| && TriTri(a[i], b[j]) && Overlaps(BoxOf(a[i]), BoxOf(b[j]))
  }

  lemma OutsideBandIsMet(a: seq<Tri>, b: seq<Tri>)
    requires OutsideBand(a, b)
    ensures AnyPair(a, b, Hit()) <==> AnyMet(a, b)
  {
    forall i, j | 0 <= i < |a| && 0 <= j < |b| ensures Hit()(a[i], b[j]) <==> Met(a[i], b[j]) {
      AcceptedIffMet(a[i], b[j]);
    }
  }

  lemma ClearIsShared(a: seq<Tri>, b: seq<Tri>)
    requires AllClear(a, b)
    ensures AnyMet(a, b) <==> AnyShared(a, b)
  {
    forall i, j | 0 <= i < |a| && 0 <= j < |b| ensures Met(a[i], b[j]) <==> ShareAPoint(a[i], b[j]) {
      ClearPair(a[i], b[j]);
    }
  }

  lemma ClearPair(t1: Tri, t2: Tri)
    requires Crosses(t1, t2) ==> Clear(t1, t2)
    ensures Met(t1, t2) <==> ShareAPoint(t1, t2)
  {
    AcceptedIffMet(t1, t2);
    if ShareAPoint(t1, t2) { SharingCrosses(t1, t2); }
    if Clear(t1, t2) { AcceptedIffShare(t1, t2); }
  }

  /** A pair whose intervals meet is accepted and has overlapping boxes. */
  lemma MetOverlaps(a: seq<Tri>, b: seq<Tri>)
    requires AnyMet(a, b)
    ensures AnyOverlapping(a, b)
  {
    var i, j :| 0 <= i < |a| && 0 <= j < |b| && Met(a[i], b[j]);
    AcceptedIffMet(a[i], b[j]);
    AcceptedPairOverlaps(a[i], b[j]);
  }

  lemma OverlappingIsFound(a: Listing, ta: Tree, b: Listing, tb: Tree)
    requires Part(a, ta) && Part(b, tb) && AnyOverlapping(a.tris, b.tris)
    ensures Found(ta, tb, TouchOf(a, b, Hit()))
  {
    var i, j :| 0 <= i < |a.tris| && 0 <= j < |b.tris| && TriTri(a.tris[i], b.tris[j])
      && Overlaps(BoxOf(a.tris[i]), BoxOf(b.tris[j]));
    OverlappingHitIsFound(a, ta, b, tb, Hit(), i, j);
  }

  // ---------------------------------------------------------------- building from a mesh

  /** The hierarchy of a part at one pose: its faces, each vertex taken through the matrix. A
      trailing group of fewer than three indices, or no face at all, cannot be built. */
  method Build(mesh: MeshBuffers, world: Mat4) returns (part: PartBvh)
    requires Indexed(mesh) && |mesh.indices| % 3 == 0 && mesh.indices != []
    ensures fresh(part) && part.Valid() && part.tris == MapAll(Faces(mesh), WorldMap(world))
  {
    var tris: seq<Tri> := [];
    ghost var all := MapAll(Faces(mesh), WorldMap(world));
    for k := 0 to |mesh.indices| / 3
      invariant tris == all[..k]
    {
      tris := tris + [MapTri(FaceAt(mesh, k), WorldMap(world))];
    }
    assert all[..|all|] == all;
    part := new PartBvh(tris);
  }

  // ---------------------------------------------------------------- the answer

  /** The hierarchies of two parts searched with the interval test itself. Whatever the parts, a
      positive answer is an accepted pair, and an accepted pair with overlapping boxes is never
      missed, nor one that meets where its intervals stand for it. Outside the tolerance band the
      answer is that of testing every pair of triangles, and true exactly when some pair so meets;
      when moreover every crossing pair is clear it says whether the parts share a point. */
  method Collides(a: PartBvh, b: PartBvh) returns (found: bool)
    requires a.Valid() && b.Valid()
    ensures found ==> AnyPair(a.tris, b.tris, Hit())
    ensures AnyOverlapping(a.tris, b.tris) || AnyMet(a.tris, b.tris) ==> found
    ensures AllClear(a.tris, b.tris) && AnyShared(a.tris, b.tris) ==> found
    ensures
      OutsideBand(a.tris, b.tris) ==> (found <==> AnyPair(a.tris, b.tris, Hit())) && (found <==> AnyMet(a.tris, b.tris))
    ensures OutsideBand(a.tris, b.tris) && AllClear(a.tris, b.tris) ==> (found <==> AnyShared(a.tris, b.tris))
  {
    found := a.Intersects(b, Hit());
    if a.tris != [] && b.tris != [] {
      SearchAnswers(a.AsListing(), TreeAt(a.nodes, a.root), b.AsListing(), TreeAt(b.nodes, b.root), found);
    }
    if AnyMet(a.tris, b.tris) { MetOverlaps(a.tris, b.tris); }
    if OutsideBand(a.tris, b.tris) { OutsideBandIsMet(a.tris, b.tris); }
    if AllClear(a.tris, b.tris) { ClearIsShared(a.tris, b.tris); }
  }

  lemma SearchAnswers(a: Listing, ta: Tree, b: Listing, tb: Tree, found: bool)
    requires Part(a, ta) && Part(b, tb) && (found <==> Found(ta, tb, TouchOf(a, b, Hit())))
    ensures OutsideBand(a.tris, b.tris) ==> (found <==> AnyPair(a.tris, b.tris, Hit()))
    ensures found ==> AnyPair(a.tris, b.tris, Hit())
    ensures AnyOverlapping(a.tris, b.tris) ==> found
  {
    if OutsideBand(a.tris, b.tris) { CollisionIsAllPairs(a, ta, b, tb); }
    if found { FoundIsHit(a, ta, b, tb, Hit()); }
    if AnyOverlapping(a.tris, b.tris) { OverlappingIsFound(a, ta, b, tb); }
  }

  /** A reported collision, outside the band, is a point that lies in a triangle of each part. */
  lemma ReportedCollisionIsReal(a: Listing, ta: Tree, b: Listing, tb: Tree)
    returns (i: nat, j: nat, c1: Chord, c2: Chord)
    requires OutsideBand(a.tris, b.tris) && Found(ta, tb, TouchOf(a, b, Hit()))
    ensures i < |a.tris| && j < |b.tris| && ChordOf(c1, a.tris[i]) && ChordOf(c2, b.tris[j]) && c1.Point() == c2.Point()
  {
    FoundIsHit(a, ta, b, tb, Hit());
    i, j :| 0 <= i < |a.tris| && 0 <= j < |b.tris| && Hit()(a.tris[i], b.tris[j]);
    c1, c2 := AcceptedPairShares(a.tris[i], b.tris[j]);
  }

  /** Inside the band the two can differ: the search skips a pair that the test accepts. */
  lemma BandPairIsSkipped() returns (a: Listing, ta: Tree, b: Listing, tb: Tree)
    ensures Part(a, ta) && Part(b, tb)
    ensures AnyPair(a.tris, b.tris, Hit()) && !Found(ta, tb, TouchOf(a, b, Hit()))
  {
    var t1, t2 := BandPairExists();
    a, ta := LonePart(t1);
    b, tb := LonePart(t2);
    assert Hit()(a.tris[0], b.tris[0]);
  }

  /** The hierarchy of a one-triangle mesh is a single leaf. */
  lemma LonePart(t: Tri) returns (l: Listing, tree: Tree)
    ensures l == Listing([t], [0]) && tree == Tip(BoxOf(t), 0, 1) && Part(l, tree)
  {
    l, tree := Listing([t], [0]), Tip(BoxOf(t), 0, 1);
    assert Indices(1) == [0];
    BoundsOfOne(SceneOf([t]), 0);
  }
}
