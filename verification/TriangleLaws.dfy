/** What the tolerance of the interval test admits and refuses: how far apart two triangles may be,
    and what the parts of a hierarchy are split by. */
module TriangleLaws {
  import opened Common
  import opened TriangleTest
  import opened TriangleSoundness
  import opened TriangleCompleteness
  import opened BvhTheorems

  // ---------------------------------------------------------------- the tolerance

  /** Heights strictly on one side, the nearest of them within the tolerance. */
  predicate Grazes(d: Triple) {
    || (d.p > 0.0 && d.q > 0.0 && d.r > 0.0 && Min(d.p, Min(d.q, d.r)) <= 0.000000000001)
    || (d.p < 0.0 && d.q < 0.0 && d.r < 0.0 && Max(d.p, Max(d.q, d.r)) >= -0.000000000001)
  }

  /** An accepted pair crosses or grazes. */
  lemma AcceptedCrossesOrGrazes(t1: Tri, t2: Tri)
    requires TriTri(t1, t2)
    ensures Crosses(t1, t2) || Grazes(Heights(t1, t2)) || Grazes(Heights(t2, t1))
  {
  }

  /** No triangle of one part grazes the plane of a triangle of the other. */
  ghost predicate NoneGrazes(a: seq<Tri>, b: seq<Tri>) {
    forall i, j :: 0 <= i < |a| && 0 <= j < |b| ==> !Grazes(Heights(a[i], b[j])) && !Grazes(Heights(b[j], a[i]))
  }

  /** So parts none of whose triangles graze lie outside the tolerance band, where the hierarchy
      answers as testing all pairs does. */
  lemma NoneGrazesIsOutsideBand(a: seq<Tri>, b: seq<Tri>)
    requires NoneGrazes(a, b)
    ensures OutsideBand(a, b)
  {
    forall i, j | 0 <= i < |a| && 0 <= j < |b| && TriTri(a[i], b[j]) ensures Crosses(a[i], b[j]) {
      AcceptedCrossesOrGrazes(a[i], b[j]);
    }
  }

  lemma VertexIsHeld(t: Tri, w: Weights, p: Vec)
    requires
      || (w == Weights(1.0, 0.0, 0.0) && p == t.a)
      || (w == Weights(0.0, 1.0, 0.0) && p == t.b)
      || (w == Weights(0.0, 0.0, 1.0) && p == t.c)
    ensures Holds(t, p)
  {
    assert Convex(w) && PointOf(t, w) == p;
  }

  lemma VerticesAreHeld(t: Tri)
    ensures Holds(t, t.a) && Holds(t, t.b) && Holds(t, t.c)
  {
    VertexIsHeld(t, Weights(1.0, 0.0, 0.0), t.a);
    VertexIsHeld(t, Weights(0.0, 1.0, 0.0), t.b);
    VertexIsHeld(t, Weights(0.0, 0.0, 1.0), t.c);
  }

  /** Every point of a triangle is more than the tolerance above a plane, or below it. */
  ghost predicate Clears(t: Tri, pl: Plane) {
    || (forall p :: Holds(t, p) ==> pl.At(p) > 0.000000000001)
    || (forall p :: Holds(t, p) ==> pl.At(p) < -0.000000000001)
  }

  /** Every point of a triangle is within the tolerance of a plane. */
  ghost predicate LiesIn(t: Tri, pl: Plane) { forall p :: Holds(t, p) ==> Abs(pl.At(p)) <= 0.000000000001 }

  /** A triangle that clears the plane of the other is refused, in either order. */
  lemma ClearingIsRefused(t1: Tri, t2: Tri)
    requires Clears(t1, PlaneOf(t2))
    ensures !TriTri(t1, t2) && !TriTri(t2, t1)
  {
    VerticesAreHeld(t1);
  }

  /** A triangle that lies in the plane of the other is refused, even one that overlaps it. */
  lemma LyingIsRefused(t1: Tri, t2: Tri)
    requires LiesIn(t1, PlaneOf(t2))
    ensures !TriTri(t1, t2)
  {
    VerticesAreHeld(t1);
  }

  /** Two coincident triangles are refused, although they share every point. */
  lemma CoincidentIsRefused(t: Tri)
    ensures ShareAPoint(t, t) && !TriTri(t, t)
  {
    FirstPoint(t);
    VerticesOnPlane(t, PlaneOf(t));
  }
}
