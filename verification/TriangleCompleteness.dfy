/** The converse of the interval test: which pairs with a common point are accepted. The interval
    stands for the whole chord in which a triangle meets the other's plane, except that a triangle
    whose first vertex lies exactly on that plane, between the other two, is seen as that vertex
    alone. */
module TriangleCompleteness {
  import opened Common
  import opened RealProduct
  import opened TriangleTest
  import opened TriangleSoundness

  /** Weights of the vertices of a triangle. */
  datatype Weights = Weights(a: real, b: real, c: real)

  predicate Convex(w: Weights) { 0.0 <= w.a && 0.0 <= w.b && 0.0 <= w.c && w.a + w.b + w.c == 1.0 }

  function Blend(w: Weights, p: real, q: real, r: real): real { Mul(w.a, p) + Mul(w.b, q) + Mul(w.c, r) }

  /** The point of a triangle with the given weights. */
  function PointOf(t: Tri, w: Weights): Vec {
    Vec(Blend(w, t.a.x, t.b.x, t.c.x), Blend(w, t.a.y, t.b.y, t.c.y), Blend(w, t.a.z, t.b.z, t.c.z))
  }

  lemma AlongPoint(t: Tri, w: Weights, k: Axis)
    ensures Along(PointOf(t, w), k) == Blend(w, Along(t.a, k), Along(t.b, k), Along(t.c, k))
  {
  }

  // ---------------------------------------------------------------- heights

  lemma BlendTimes(n: real, w: Weights, p: real, q: real, r: real)
    ensures Mul(n, Blend(w, p, q, r)) == Blend(w, Mul(n, p), Mul(n, q), Mul(n, r))
  {
    MulSum3(n, Mul(w.a, p), Mul(w.b, q), Mul(w.c, r), Blend(w, p, q, r));
    MulSwap(n, w.a, p);
    MulSwap(n, w.b, q);
    MulSwap(n, w.c, r);
  }

  lemma BlendOfConstant(w: Weights, k: real)
    requires Convex(w)
    ensures Mul(w.a, k) + Mul(w.b, k) + Mul(w.c, k) == k
  {
    MulSum(k, w.a + w.b, w.c, 1.0);
    MulSum(k, w.a, w.b, w.a + w.b);
    MulOfOne(k);
  }

  lemma HeightAsMul(n: Vec, o: Vec, p: Vec)
    ensures Height(n, o, p) == Mul(n.x, p.x) + Mul(n.y, p.y) + Mul(n.z, p.z) + -Dot(n, o)
  {
  }

  /** The height of a point of a triangle is the blend of the heights of its vertices. */
  lemma HeightOfPoint(n: Vec, o: Vec, t: Tri, w: Weights)
    requires Convex(w)
    ensures Height(n, o, PointOf(t, w)) == Blend(w, Height(n, o, t.a), Height(n, o, t.b), Height(n, o, t.c))
  {
    var k := -Dot(n, o);
    HeightAsMul(n, o, PointOf(t, w));
    HeightAsMul(n, o, t.a);
    HeightAsMul(n, o, t.b);
    HeightAsMul(n, o, t.c);
    BlendTimes(n.x, w, t.a.x, t.b.x, t.c.x);
    BlendTimes(n.y, w, t.a.y, t.b.y, t.c.y);
    BlendTimes(n.z, w, t.a.z, t.b.z, t.c.z);
    MulSum4(w.a, Mul(n.x, t.a.x), Mul(n.y, t.a.y), Mul(n.z, t.a.z), k, Height(n, o, t.a));
    MulSum4(w.b, Mul(n.x, t.b.x), Mul(n.y, t.b.y), Mul(n.z, t.b.z), k, Height(n, o, t.b));
    MulSum4(w.c, Mul(n.x, t.c.x), Mul(n.y, t.c.y), Mul(n.z, t.c.z), k, Height(n, o, t.c));
    BlendOfConstant(w, k);
  }

  /** A point of a triangle lies on the triangle's plane. */
  lemma PointOnPlane(t: Tri, w: Weights, pl: Plane)
    requires Convex(w) && pl == PlaneOf(t)
    ensures pl.At(PointOf(t, w)) == 0.0
  {
    VerticesOnPlane(t, pl);
    HeightOfPoint(pl.n, pl.o, t, w);
    MulOfZero(w.a);
    MulOfZero(w.b);
    MulOfZero(w.c);
  }

  /** The heights of one triangle over the other's plane blend to zero at a common point. */
  lemma HeightsBlendToZero(t: Tri, w: Weights, other: Tri, v: Weights)
    requires Convex(w) && Convex(v) && PointOf(t, w) == PointOf(other, v)
    ensures var d := Heights(t, other); Blend(w, d.p, d.q, d.r) == 0.0
  {
    var pl := PlaneOf(other);
    PointOnPlane(other, v, pl);
    HeightOfPoint(pl.n, pl.o, t, w);
  }

  // ---------------------------------------------------------------- signs

  lemma BlendIsPositive(w: Weights, p: real, q: real, r: real)
    requires Convex(w) && p > 0.0 && q > 0.0 && r > 0.0
    ensures Blend(w, p, q, r) > 0.0
  {
    MulSign(w.a, p);
    MulSign(w.b, q);
    MulSign(w.c, r);
  }

  lemma BlendOfNegated(w: Weights, p: real, q: real, r: real)
    ensures Blend(w, -p, -q, -r) == -Blend(w, p, q, r)
  {
    MulNegated(p, w.a, -p);
    MulNegated(q, w.b, -q);
    MulNegated(r, w.c, -r);
  }

  /** Heights that blend to zero are not all on one side. */
  lemma BlendStraddles(w: Weights, d: Triple)
    requires Convex(w) && Blend(w, d.p, d.q, d.r) == 0.0
    ensures Straddles(d) && !OneSided(d)
  {
    BlendOfNegated(w, d.p, d.q, d.r);
    if d.p > 0.0 && d.q > 0.0 && d.r > 0.0 { BlendIsPositive(w, d.p, d.q, d.r); }
    if d.p < 0.0 && d.q < 0.0 && d.r < 0.0 { BlendIsPositive(w, -d.p, -d.q, -d.r); }
  }

  /** Two heights of one strict sign only blend to zero with zero weights. */
  lemma SameSideWeights(w: Weights, di: real, dj: real)
    requires Convex(w) && Blend(w, di, dj, 0.0) == 0.0 && ((di > 0.0 && dj > 0.0) || (di < 0.0 && dj < 0.0))
    ensures w.a == 0.0 && w.b == 0.0
  {
    MulOfZero(w.c);
    if di > 0.0 {
      MulSign(w.a, di);
      MulSign(w.b, dj);
    } else {
      BlendOfNegated(w, di, dj, 0.0);
      MulSign(w.a, -di);
      MulSign(w.b, -dj);
      MulNegated(di, w.a, -di);
      MulNegated(dj, w.b, -dj);
    }
  }

  // ---------------------------------------------------------------- the interval

  lemma CrossingTimes(p: real, d: real, ps: real, ds: real)
    requires d - ds != 0.0
    ensures Mul(d - ds, Crossing(p, d, ps, ds)) == Mul(d, ps) - Mul(ds, p)
  {
    var f, q := d - ds, d / (d - ds);
    assert Mul(f, q) == d;
    var c := Mul(ps - p, q);
    assert Crossing(p, d, ps, ds) == p + c;
    MulSum(f, p, c, p + c);
    MulSwap(f, ps - p, q);
    MulCommutes(ps - p, d);
    MulDifference(d, ps, p, ps - p);
    MulDifference(p, d, ds, f);
  }

  lemma BetweenWeighted(a: real, b: real, c: real, ti: real, tj: real, x: real)
    requires a >= 0.0 && b >= 0.0 && c == a + b && c > 0.0 && Mul(c, x) == Mul(a, ti) + Mul(b, tj)
    ensures Min(ti, tj) <= x <= Max(ti, tj)
  {
    var lo, hi := Min(ti, tj), Max(ti, tj);
    MulMonotone(ti, hi, a);
    MulMonotone(tj, hi, b);
    MulMonotone(lo, ti, a);
    MulMonotone(lo, tj, b);
    MulSum(hi, a, b, c);
    MulSum(lo, a, b, c);
    CancelOrder(c, x, hi);
    CancelOrder(c, lo, x);
  }

  lemma CancelOrder(c: real, a: real, b: real)
    requires c > 0.0 && Mul(c, a) <= Mul(c, b)
    ensures a <= b
  {
    if a > b {
      MulSign(c, a - b);
      MulDifference(c, a, b, a - b);
    }
  }

  /** Scaled by the lone height, a blend is a combination of the two crossings. */
  lemma BlendOfCrossings(w: Weights, pi: real, pj: real, ps: real, di: real, dj: real, ds: real, ti: real, tj: real,
                         x: real)
    requires Convex(w) && Blend(w, di, dj, ds) == 0.0 && x == Blend(w, pi, pj, ps) && di - ds != 0.0 && dj - ds != 0.0
    requires ti == Crossing(pi, di, ps, ds) && tj == Crossing(pj, dj, ps, ds)
    ensures Mul(-ds, x) == Mul(Mul(w.a, di - ds), ti) + Mul(Mul(w.b, dj - ds), tj)
    ensures -ds == Mul(w.a, di - ds) + Mul(w.b, dj - ds)
  {
    CrossingTimes(pi, di, ps, ds);
    CrossingTimes(pj, dj, ps, ds);
    MulSwap(w.a, di - ds, ti);
    MulSwap(w.b, dj - ds, tj);
    MulDifference(w.a, Mul(di, ps), Mul(ds, pi), Mul(di, ps) - Mul(ds, pi));
    MulDifference(w.b, Mul(dj, ps), Mul(ds, pj), Mul(dj, ps) - Mul(ds, pj));
    MulSwap(w.a, di, ps);
    MulSwap(w.b, dj, ps);
    MulSwap(w.a, ds, pi);
    MulSwap(w.b, ds, pj);
    MulDifference(w.a, di, ds, di - ds);
    MulDifference(w.b, dj, ds, dj - ds);
    BlendOfConstant(w, ds);
    var g := Mul(w.a, di) + Mul(w.b, dj);
    MulSum(ps, Mul(w.a, di), Mul(w.b, dj), g);
    MulNegated(Mul(w.c, ds), ps, g);
    MulSwap(w.c, ds, ps);
    MulNegated(ds, x, -ds);
    MulSum3(ds, Mul(w.a, pi), Mul(w.b, pj), Mul(w.c, ps), x);
  }

  lemma BlendInInterval(w: Weights, pi: real, pj: real, ps: real, di: real, dj: real, ds: real, ti: real, tj: real,
                        x: real)
    requires Convex(w) && Blend(w, di, dj, ds) == 0.0 && x == Blend(w, pi, pj, ps)
    requires Opposite(di, ds) && Opposite(dj, ds) && di - ds != 0.0 && dj - ds != 0.0
    requires ds == 0.0 ==> w.a == 0.0 && w.b == 0.0
    requires ti == Crossing(pi, di, ps, ds) && tj == Crossing(pj, dj, ps, ds)
    ensures Min(ti, tj) <= x <= Max(ti, tj)
  {
    BlendOfCrossings(w, pi, pj, ps, di, dj, ds, ti, tj, x);
    var a, b := Mul(w.a, di - ds), Mul(w.b, dj - ds);
    if ds < 0.0 {
      MulSign(w.a, di - ds);
      MulSign(w.b, dj - ds);
      BetweenWeighted(a, b, -ds, ti, tj, x);
    } else if ds > 0.0 {
      MulSign(w.a, ds - di);
      MulSign(w.b, ds - dj);
      MulNegated(di - ds, w.a, ds - di);
      MulNegated(dj - ds, w.b, ds - dj);
      MulNegated(a, ti, -a);
      MulNegated(b, tj, -b);
      MulNegated(-ds, x, ds);
      BetweenWeighted(-a, -b, ds, ti, tj, x);
    } else {
      MulOfZero(pi);
      MulOfZero(pj);
      MulOfOne(ps);
      CrossingAtLone(pi, di, ps);
      CrossingAtLone(pj, dj, ps);
    }
  }

  /** An edge that ends on the plane crosses it at its end. */
  lemma CrossingAtLone(p: real, d: real, ps: real)
    requires d != 0.0
    ensures Crossing(p, d, ps, 0.0) == ps
  {
    assert d / (d - 0.0) == 1.0;
  }

  /** The weights in the order of the interval: the lone vertex last. */
  function Reordered(d: Triple, w: Weights): Weights {
    var (i, j, s) := LoneLast(d, w.a, w.b, w.c);
    Weights(i, j, s)
  }

  lemma BlendReordered(d: Triple, w: Weights, p: real, q: real, r: real)
    ensures var (i, j, s) := LoneLast(d, p, q, r); Blend(Reordered(d, w), i, j, s) == Blend(w, p, q, r)
    ensures Convex(w) ==> Convex(Reordered(d, w))
  {
  }

  /** Both edges of the interval cross the plane by more than the tolerance. */
  predicate Spread(d: Triple) {
    var (i, j, s) := LoneLast(d, d.p, d.q, d.r);
    Abs(i - s) > Eps && Abs(j - s) > Eps
  }

  /** The first vertex lies on the plane and the other two on opposite sides. Neither product of
      heights is positive, so the first vertex is taken for the lone one. */
  predicate FirstAlone(d: Triple) { d.p == 0.0 && (d.q > 0.0 > d.r || d.q < 0.0 < d.r) }

  const FirstVertex: Weights := Weights(1.0, 0.0, 0.0)

  /** In that case the interval is the first vertex alone. */
  lemma FirstAloneInterval(p: Triple, d: Triple)
    requires FirstAlone(d) && Spread(d)
    ensures Interval(p, d) == Some((p.p, p.p))
  {
    CrossingAtLone(p.q, d.q, p.p);
    CrossingAtLone(p.r, d.r, p.p);
  }

  lemma LoneWeights(w: Weights, d: Triple)
    requires Convex(w) && Spread(d) && Blend(w, d.p, d.q, d.r) == 0.0 && (FirstAlone(d) ==> w == FirstVertex)
    ensures
      var (_, _, ds) := LoneLast(d, d.p, d.q, d.r); var r := Reordered(d, w); ds == 0.0 ==> r.a == 0.0 && r.b == 0.0
  {
    var (di, dj, ds) := LoneLast(d, d.p, d.q, d.r);
    SignsOfProduct(d.p, d.q);
    SignsOfProduct(d.p, d.r);
    if ds == 0.0 && !FirstAlone(d) {
      BlendReordered(d, w, d.p, d.q, d.r);
      SameSideWeights(Reordered(d, w), di, dj);
    }
  }

  /** One triangle's heights, coordinates and weights in the order of its interval. */
  datatype Sides = Sides(di: real, dj: real, ds: real, pi: real, pj: real, ps: real, w: Weights)

  predicate Sound(s: Sides, x: real) {
    && Convex(s.w) && Blend(s.w, s.di, s.dj, s.ds) == 0.0 && x == Blend(s.w, s.pi, s.pj, s.ps)
    && Opposite(s.di, s.ds) && Opposite(s.dj, s.ds) && s.di - s.ds != 0.0 && s.dj - s.ds != 0.0
    && (s.ds == 0.0 ==> s.w.a == 0.0 && s.w.b == 0.0)
  }

  function SidesOf(w: Weights, p: Triple, d: Triple): Sides {
    var (di, dj, ds) := LoneLast(d, d.p, d.q, d.r);
    var (pi, pj, ps) := LoneLast(d, p.p, p.q, p.r);
    Sides(di, dj, ds, pi, pj, ps, Reordered(d, w))
  }

  lemma SidesBlend(w: Weights, p: Triple, d: Triple)
    requires Convex(w)
    ensures var s := SidesOf(w, p, d);
      && Convex(s.w)
      && Blend(s.w, s.di, s.dj, s.ds) == Blend(w, d.p, d.q, d.r)
      && Blend(s.w, s.pi, s.pj, s.ps) == Blend(w, p.p, p.q, p.r)
  {
    BlendReordered(d, w, d.p, d.q, d.r);
    BlendReordered(d, w, p.p, p.q, p.r);
  }

  lemma SidesOppose(w: Weights, p: Triple, d: Triple)
    requires Straddles(d) && Spread(d)
    ensures var s := SidesOf(w, p, d);
      Opposite(s.di, s.ds) && Opposite(s.dj, s.ds) && s.di - s.ds != 0.0 && s.dj - s.ds != 0.0
  {
    LoneIsOpposite(d);
  }

  lemma SidesAreSound(w: Weights, p: Triple, d: Triple, x: real)
    requires Convex(w) && Spread(d) && Blend(w, d.p, d.q, d.r) == 0.0 && x == Blend(w, p.p, p.q, p.r)
    requires FirstAlone(d) ==> w == FirstVertex
    ensures Sound(SidesOf(w, p, d), x)
  {
    BlendStraddles(w, d);
    SidesOppose(w, p, d);
    SidesBlend(w, p, d);
    LoneWeights(w, d);
  }

  function Span(s: Sides): (real, real)
    requires s.di - s.ds != 0.0 && s.dj - s.ds != 0.0
  {
    var ti, tj := Crossing(s.pi, s.di, s.ps, s.ds), Crossing(s.pj, s.dj, s.ps, s.ds);
    (Min(ti, tj), Max(ti, tj))
  }

  lemma IntervalIsSpan(w: Weights, p: Triple, d: Triple)
    requires Spread(d)
    ensures var s := SidesOf(w, p, d); s.di - s.ds != 0.0 && s.dj - s.ds != 0.0 && Interval(p, d) == Some(Span(s))
  {
  }

  lemma InSpan(s: Sides, x: real)
    requires Sound(s, x)
    ensures Span(s).0 <= x <= Span(s).1
  {
    var ti, tj := Crossing(s.pi, s.di, s.ps, s.ds), Crossing(s.pj, s.dj, s.ps, s.ds);
    BlendInInterval(s.w, s.pi, s.pj, s.ps, s.di, s.dj, s.ds, ti, tj, x);
  }

  /** Every point of a triangle at height zero lies, along any axis, in the triangle's interval,
      save that only the first vertex does when that one is taken for the lone one. */
  lemma PointInInterval(w: Weights, p: Triple, d: Triple, x: real)
    requires Convex(w) && Spread(d) && Blend(w, d.p, d.q, d.r) == 0.0 && x == Blend(w, p.p, p.q, p.r)
    requires FirstAlone(d) ==> w == FirstVertex
    ensures Interval(p, d).Some? && Interval(p, d).value.0 <= x <= Interval(p, d).value.1
  {
    SidesAreSound(w, p, d, x);
    IntervalIsSpan(w, p, d);
    InSpan(SidesOf(w, p, d), x);
  }

  lemma OverlapsAt(i: Option<(real, real)>, j: Option<(real, real)>, x: real)
    requires i.Some? && j.Some? && i.value.0 <= x <= i.value.1 && j.value.0 <= x <= j.value.1
    ensures Overlapping(i, j)
  {
  }

  /** What the interval test needs of a pair's heights before it compares intervals. */
  predicate Resolved(t1: Tri, t2: Tri) {
    !Coplanar(Heights(t1, t2)) && Spread(Heights(t1, t2)) && Spread(Heights(t2, t1))
  }

  /** A common point that both intervals stand for is accepted. */
  lemma SeenPointIsAccepted(t1: Tri, w1: Weights, t2: Tri, w2: Weights)
    requires Convex(w1) && Convex(w2) && PointOf(t1, w1) == PointOf(t2, w2) && Resolved(t1, t2)
    requires FirstAlone(Heights(t1, t2)) ==> w1 == FirstVertex
    requires FirstAlone(Heights(t2, t1)) ==> w2 == FirstVertex
    ensures TriTri(t1, t2) && Crosses(t1, t2)
  {
    var d1, d2, k := Heights(t1, t2), Heights(t2, t1), Dominant(Cross(Normal(t1), Normal(t2)));
    var x := Along(PointOf(t1, w1), k);
    HeightsBlendToZero(t1, w1, t2, w2);
    HeightsBlendToZero(t2, w2, t1, w1);
    BlendStraddles(w1, d1);
    BlendStraddles(w2, d2);
    AlongPoint(t1, w1, k);
    AlongPoint(t2, w2, k);
    PointInInterval(w1, Projected(t1, k), d1, x);
    PointInInterval(w2, Projected(t2, k), d2, x);
    OverlapsAt(Interval(Projected(t1, k), d1), Interval(Projected(t2, k), d2), x);
    AcceptedFrom(t1, t2, d1, d2, k, Projected(t1, k), Projected(t2, k));
  }

  // ---------------------------------------------------------------- both directions

  /** The weights of a point on a chord, for the vertices u, v, w in this order. */
  function ChordWeights(c: Chord): Weights {
    Weights(Mul(1.0 - c.r, 1.0 - c.s), Mul(c.r, 1.0 - c.s'), Mul(1.0 - c.r, c.s) + Mul(c.r, c.s'))
  }

  lemma ChordWeightsConvex(c: Chord)
    requires 0.0 <= c.s <= 1.0 && 0.0 <= c.s' <= 1.0 && 0.0 <= c.r <= 1.0
    ensures Convex(ChordWeights(c))
  {
    var f := 1.0 - c.r;
    MulSign(f, 1.0 - c.s);
    MulSign(c.r, 1.0 - c.s');
    MulSign(f, c.s);
    MulSign(c.r, c.s');
    MulSum(f, 1.0 - c.s, c.s, 1.0);
    MulSum(c.r, 1.0 - c.s', c.s', 1.0);
    MulOfOne(f);
    MulOfOne(c.r);
  }

  lemma MixAsMul(a: real, b: real, s: real)
    ensures Mix(a, b, s) == Mul(1.0 - s, a) + Mul(s, b)
  {
    MulDifference(s, b, a, b - a);
    MulCommutes(b - a, s);
    MulDifference(a, 1.0, s, 1.0 - s);
    MulOfOne(a);
  }

  /** One coordinate of a chord's point. */
  lemma ChordCoordinate(c: Chord, u: real, v: real, w: real)
    ensures Mix(Mix(u, w, c.s), Mix(v, w, c.s'), c.r) == Blend(ChordWeights(c), u, v, w)
  {
    var f, g, g' := 1.0 - c.r, 1.0 - c.s, 1.0 - c.s';
    var m, m' := Mix(u, w, c.s), Mix(v, w, c.s');
    MixAsMul(u, w, c.s);
    MixAsMul(v, w, c.s');
    MixAsMul(m, m', c.r);
    MulSum(f, Mul(g, u), Mul(c.s, w), m);
    MulSum(c.r, Mul(g', v), Mul(c.s', w), m');
    MulSwap(f, g, u);
    MulSwap(f, c.s, w);
    MulSwap(c.r, g', v);
    MulSwap(c.r, c.s', w);
    MulSum(w, Mul(f, c.s), Mul(c.r, c.s'), Mul(f, c.s) + Mul(c.r, c.s'));
  }

  lemma ChordPoint(c: Chord)
    ensures c.Point() == PointOf(Tri(c.u, c.v, c.w), ChordWeights(c))
  {
    ChordCoordinate(c, c.u.x, c.v.x, c.w.x);
    ChordCoordinate(c, c.u.y, c.v.y, c.w.y);
    ChordCoordinate(c, c.u.z, c.v.z, c.w.z);
  }

  /** A chord's point in the order of the triangle's own vertices. */
  lemma WeightsOfChord(c: Chord, t: Tri) returns (w: Weights)
    requires ChordOf(c, t)
    ensures Convex(w) && PointOf(t, w) == c.Point()
  {
    ChordPoint(c);
    ChordWeightsConvex(c);
    var v := ChordWeights(c);
    if (c.u, c.v, c.w) == (t.a, t.b, t.c) {
      w := v;
    } else if (c.u, c.v, c.w) == (t.a, t.c, t.b) {
      w := Weights(v.a, v.c, v.b);
    } else {
      w := Weights(v.c, v.a, v.b);
    }
  }

  ghost predicate ShareAPoint(t1: Tri, t2: Tri) {
    exists w1, w2 :: Convex(w1) && Convex(w2) && PointOf(t1, w1) == PointOf(t2, w2)
  }

  /** The part of a triangle that its interval stands for, given its heights. */
  function Seen(t: Tri, d: Triple): Tri { if FirstAlone(d) then Tri(t.a, t.a, t.a) else t }

  /** Seen weights as weights of the triangle itself. */
  function Lifted(d: Triple, w: Weights): Weights { if FirstAlone(d) then FirstVertex else w }

  lemma SeenPoint(t: Tri, d: Triple, w: Weights)
    requires Convex(w)
    ensures Convex(Lifted(d, w)) && PointOf(t, Lifted(d, w)) == PointOf(Seen(t, d), w)
  {
    if FirstAlone(d) {
      FirstPoint(t);
      BlendOfConstant(w, t.a.x);
      BlendOfConstant(w, t.a.y);
      BlendOfConstant(w, t.a.z);
    }
  }

  lemma FirstPoint(t: Tri)
    ensures Convex(FirstVertex) && PointOf(t, FirstVertex) == t.a
  {
    MulOfOne(t.a.x);
    MulOfOne(t.a.y);
    MulOfOne(t.a.z);
    MulOfZero(t.b.x);
    MulOfZero(t.b.y);
    MulOfZero(t.b.z);
    MulOfZero(t.c.x);
    MulOfZero(t.c.y);
    MulOfZero(t.c.z);
  }

  /** Every value in a triangle's interval is taken, on both planes, by a point it stands for. */
  lemma SeenAt(t: Tri, pl: Plane, own: Plane, d: Triple, k: Axis, x: real) returns (w: Weights)
    requires Paired(t, pl, own, d) && Straddles(d)
    requires var iv := Interval(Projected(t, k), d); iv.Some? && iv.value.0 <= x <= iv.value.1
    ensures Convex(w)
    ensures var q := PointOf(Seen(t, d), w); Along(q, k) == x && pl.At(q) == 0.0 && own.At(q) == 0.0
  {
    if FirstAlone(d) {
      w := FirstVertex;
      FirstPoint(Seen(t, d));
      FirstAloneInterval(Projected(t, k), d);
    } else {
      var c := ChordAt(t, pl, own, d, k, x);
      w := WeightsOfChord(c, t);
    }
  }

  /** The exact meaning of acceptance: a pair whose triangles reach both sides of each other's
      planes is accepted exactly when it is resolved and the parts its intervals stand for have
      a common point. */
  ghost predicate Met(t1: Tri, t2: Tri) {
    Resolved(t1, t2) && ShareAPoint(Seen(t1, Heights(t1, t2)), Seen(t2, Heights(t2, t1)))
  }

  lemma AcceptedIffMet(t1: Tri, t2: Tri)
    ensures TriTri(t1, t2) && Crosses(t1, t2) <==> Met(t1, t2)
  {
    if TriTri(t1, t2) && Crosses(t1, t2) { AcceptedIsMet(t1, t2); }
    if Met(t1, t2) {
      var d1, d2 := Heights(t1, t2), Heights(t2, t1);
      var w1, w2 :| Convex(w1) && Convex(w2) && PointOf(Seen(t1, d1), w1) == PointOf(Seen(t2, d2), w2);
      SeenPoint(t1, d1, w1);
      SeenPoint(t2, d2, w2);
      SeenPointIsAccepted(t1, Lifted(d1, w1), t2, Lifted(d2, w2));
    }
  }

  lemma AcceptedIsMet(t1: Tri, t2: Tri)
    requires TriTri(t1, t2) && Crosses(t1, t2)
    ensures Met(t1, t2)
  {
    var p1, p2, d1, d2 := PlaneOf(t1), PlaneOf(t2), Heights(t1, t2), Heights(t2, t1);
    var k := Dominant(Cross(p1.n, p2.n));
    VerticesOnPlane(t1, p1);
    VerticesOnPlane(t2, p2);
    var i1, i2 := Interval(Projected(t1, k), d1), Interval(Projected(t2, k), d2);
    var x := Max(i1.value.0, i2.value.0);
    var w1 := SeenAt(t1, p2, p1, d1, k, x);
    var w2 := SeenAt(t2, p1, p2, d2, k, x);
    IntervalNeedsHeights(Projected(t1, k), d1);
    IntervalNeedsHeights(Projected(t2, k), d2);
    PlanesMeet(t1, t2, p1.n, p2.n);
    DominantMoves(Cross(p1.n, p2.n));
    MeetingPoint(p1, p2, PointOf(Seen(t1, d1), w1), PointOf(Seen(t2, d2), w2), k);
  }

  /** Resolved, and both intervals stand for the whole triangles. */
  predicate Clear(t1: Tri, t2: Tri) {
    Resolved(t1, t2) && !FirstAlone(Heights(t1, t2)) && !FirstAlone(Heights(t2, t1))
  }

  lemma SharingCrosses(t1: Tri, t2: Tri)
    requires ShareAPoint(t1, t2)
    ensures Crosses(t1, t2)
  {
    var w1, w2 :| Convex(w1) && Convex(w2) && PointOf(t1, w1) == PointOf(t2, w2);
    HeightsBlendToZero(t1, w1, t2, w2);
    HeightsBlendToZero(t2, w2, t1, w1);
    BlendStraddles(w1, Heights(t1, t2));
    BlendStraddles(w2, Heights(t2, t1));
  }

  /** A pair with a common point is accepted exactly when it is resolved and a common point is
      among those the intervals stand for. */
  lemma CommonPointIsAcceptedIff(t1: Tri, t2: Tri)
    requires ShareAPoint(t1, t2)
    ensures TriTri(t1, t2) <==> Met(t1, t2)
  {
    SharingCrosses(t1, t2);
    AcceptedIffMet(t1, t2);
  }

  /** On a clear pair the test accepts exactly the triangles with a common point. */
  lemma AcceptedIffShare(t1: Tri, t2: Tri)
    requires Clear(t1, t2)
    ensures TriTri(t1, t2) && Crosses(t1, t2) <==> ShareAPoint(t1, t2)
  {
    AcceptedIffMet(t1, t2);
  }

  // ---------------------------------------------------------------- the order of the vertices

  /** The same triangle with its first vertex put last. */
  function Relabelled(t: Tri): Tri { Tri(t.b, t.c, t.a) }

  ghost predicate Holds(t: Tri, p: Vec) { exists w :: Convex(w) && PointOf(t, w) == p }

  lemma RelabelledNormal(t: Tri)
    ensures Normal(Relabelled(t)) == Normal(t)
  {
    CrossTurned(t.a.y, t.b.y, t.c.y, t.a.z, t.b.z, t.c.z);
    CrossTurned(t.a.z, t.b.z, t.c.z, t.a.x, t.b.x, t.c.x);
    CrossTurned(t.a.x, t.b.x, t.c.x, t.a.y, t.b.y, t.c.y);
  }

  lemma CrossTurned(a: real, b: real, c: real, p: real, q: real, r: real)
    ensures (c - b) * (p - q) - (r - q) * (a - b) == (b - a) * (r - p) - (q - p) * (c - a)
  {
  }

  /** The other triangle's heights do not depend on the order. */
  lemma RelabelledPlane(t: Tri, other: Tri)
    ensures Heights(other, Relabelled(t)) == Heights(other, t)
  {
    RelabelledNormal(t);
    VerticesOnPlane(t, PlaneOf(t));
  }

  lemma RelabelledShares(t1: Tri, t2: Tri)
    ensures ShareAPoint(Relabelled(t1), t2) <==> ShareAPoint(t1, t2)
  {
    if ShareAPoint(Relabelled(t1), t2) {
      var w1, w2 :| Convex(w1) && Convex(w2) && PointOf(Relabelled(t1), w1) == PointOf(t2, w2);
      var w := Weights(w1.c, w1.a, w1.b);
      assert PointOf(t1, w) == PointOf(Relabelled(t1), w1);
    }
    if ShareAPoint(t1, t2) {
      var w1, w2 :| Convex(w1) && Convex(w2) && PointOf(t1, w1) == PointOf(t2, w2);
      var w := Weights(w1.b, w1.c, w1.a);
      assert PointOf(Relabelled(t1), w) == PointOf(t1, w1);
    }
  }

  lemma RelabelledIsClear(d: Triple)
    requires FirstAlone(d) && Spread(d)
    ensures var e := Triple(d.q, d.r, d.p); !FirstAlone(e) && Spread(e) && !Coplanar(e) && !Coplanar(d)
  {
    SignsOfProduct(d.q, d.r);
    SignsOfProduct(d.q, d.p);
    SignsOfProduct(d.p, d.r);
  }

  /** A triangle whose first vertex is taken for the lone one collides only where that vertex
      lies in the other triangle; with that vertex put last it collides wherever they meet. */
  lemma VertexOrderMatters(t1: Tri, t2: Tri)
    requires FirstAlone(Heights(t1, t2)) && Spread(Heights(t1, t2))
    requires Straddles(Heights(t2, t1)) && Spread(Heights(t2, t1)) && !FirstAlone(Heights(t2, t1))
    ensures TriTri(t1, t2) <==> Holds(t2, t1.a)
    ensures TriTri(Relabelled(t1), t2) <==> ShareAPoint(t1, t2)
  {
    var d1, d2 := Heights(t1, t2), Heights(t2, t1);
    RelabelledIsClear(d1);
    RelabelledPlane(t1, t2);
    AcceptedIffMet(t1, t2);
    FirstIsHeld(t1, t2, d1);
    AcceptedIffShare(Relabelled(t1), t2);
    RelabelledShares(t1, t2);
  }

  lemma FirstIsHeld(t1: Tri, t2: Tri, d: Triple)
    requires FirstAlone(d)
    ensures ShareAPoint(Seen(t1, d), t2) <==> Holds(t2, t1.a)
  {
    var s := Seen(t1, d);
    if ShareAPoint(s, t2) {
      var w1, w2 :| Convex(w1) && Convex(w2) && PointOf(s, w1) == PointOf(t2, w2);
      SeenPoint(t1, d, w1);
      FirstPoint(t1);
    }
    if Holds(t2, t1.a) {
      var w :| Convex(w) && PointOf(t2, w) == t1.a;
      FirstPoint(s);
    }
  }

  /** A triangle whose first vertex lies at x = l on the ground and whose other two stand above
      and below the origin. */
  predicate Standing(t: Tri, l: real) {
    t.a == Vec(l, 0.0, 0.0) && t.b == Vec(0.0, 0.0, 1.0) && t.c == Vec(0.0, 0.0, -1.0)
  }

  /** A triangle on the ground that reaches five to each side of the origin along x. */
  predicate Lying(t: Tri) {
    t.a == Vec(-10.0, -10.0, 0.0) && t.b == Vec(10.0, -10.0, 0.0) && t.c == Vec(0.0, 10.0, 0.0)
  }

  lemma LyingNormal(t: Tri)
    requires Lying(t)
    ensures Normal(t) == Vec(0.0, 0.0, 400.0)
  {
  }

  lemma StandingNormal(t: Tri, l: real)
    requires Standing(t, l)
    ensures Normal(t) == Vec(0.0, -2.0 * l, 0.0)
  {
  }

  lemma HeightAboveGround(n: Vec, o: Vec, p: Vec)
    requires n == Vec(0.0, 0.0, 400.0) && o.z == 0.0
    ensures Height(n, o, p) == 400.0 * p.z
  {
  }

  lemma HeightAlongY(n: Vec, o: Vec, p: Vec, g: real)
    requires n.x == 0.0 && n.z == 0.0 && o.y == 0.0 && g == n.y * p.y
    ensures Height(n, o, p) == g
  {
  }

  lemma StandingHeights(t1: Tri, l: real, t2: Tri)
    requires Standing(t1, l) && Lying(t2)
    ensures Heights(t1, t2) == Triple(0.0, 400.0, -400.0)
  {
    LyingNormal(t2);
    var n := Vec(0.0, 0.0, 400.0);
    HeightAboveGround(n, t2.a, t1.a);
    HeightAboveGround(n, t2.a, t1.b);
    HeightAboveGround(n, t2.a, t1.c);
  }

  lemma LyingHeights(t1: Tri, l: real, t2: Tri)
    requires Standing(t1, l) && Lying(t2)
    ensures Heights(t2, t1) == Triple(20.0 * l, 20.0 * l, -20.0 * l)
  {
    StandingNormal(t1, l);
    var n := Vec(0.0, -2.0 * l, 0.0);
    HeightAlongY(n, t1.a, t2.a, 20.0 * l);
    HeightAlongY(n, t1.a, t2.b, 20.0 * l);
    HeightAlongY(n, t1.a, t2.c, -20.0 * l);
  }

  lemma LyingPoint(t: Tri, w: Weights)
    requires Lying(t)
    ensures PointOf(t, w) == Vec(10.0 * (w.b - w.a), 10.0 * (w.c - w.a - w.b), 0.0)
  {
  }

  lemma StandingPoint(t: Tri, l: real, w: Weights)
    requires Standing(t, l) && w.a == 0.0
    ensures PointOf(t, w) == Vec(0.0, 0.0, w.b - w.c)
  {
  }

  lemma LyingHolds(t: Tri, p: Vec)
    requires Lying(t) && p.y == 0.0 && p.z == 0.0 && 1.0 <= p.x
    ensures Holds(t, p) <==> p.x <= 5.0
  {
    if Holds(t, p) {
      var w :| Convex(w) && PointOf(t, w) == p;
      LyingPoint(t, w);
    }
    if p.x <= 5.0 {
      var w := Weights(0.25 - p.x / 20.0, 0.25 + p.x / 20.0, 0.5);
      LyingPoint(t, w);
      assert Convex(w);
    }
  }

  /** The weights of the origin in the two triangles. */
  lemma OriginWeights() returns (w1: Weights, w2: Weights)
    ensures Convex(w1) && w1.a == 0.0 && w1.b == w1.c
    ensures Convex(w2) && w2.a == w2.b && w2.c == w2.a + w2.b
  {
    w1, w2 := Weights(0.0, 0.5, 0.5), Weights(0.25, 0.25, 0.5);
  }

  lemma StandingMeetsLying(t1: Tri, l: real, t2: Tri)
    requires Standing(t1, l) && Lying(t2)
    ensures ShareAPoint(t1, t2)
  {
    var w1, w2 := OriginWeights();
    StandingPoint(t1, l, w1);
    LyingPoint(t2, w2);
  }

  lemma StandingIsFirstAlone(d1: Triple, d2: Triple, g: real)
    requires d1 == Triple(0.0, 400.0, -400.0) && d2 == Triple(g, g, -g) && g >= 20.0
    ensures FirstAlone(d1) && Spread(d1) && Straddles(d2) && Spread(d2) && !FirstAlone(d2)
  {
    SignsOfProduct(d1.p, d1.q);
    SignsOfProduct(d1.p, d1.r);
    SignsOfProduct(d2.p, d2.q);
  }

  lemma StandingSigns(t1: Tri, l: real, t2: Tri)
    requires Standing(t1, l) && Lying(t2) && 1.0 <= l
    ensures FirstAlone(Heights(t1, t2)) && Spread(Heights(t1, t2))
    ensures Straddles(Heights(t2, t1)) && Spread(Heights(t2, t1)) && !FirstAlone(Heights(t2, t1))
  {
    var d1, d2 := Triple(0.0, 400.0, -400.0), Triple(20.0 * l, 20.0 * l, -20.0 * l);
    StandingIsFirstAlone(d1, d2, 20.0 * l);
    StandingHeights(t1, l, t2);
    LyingHeights(t1, l, t2);
  }

  ghost predicate Ordered(t1: Tri, t2: Tri) {
    (TriTri(t1, t2) <==> Holds(t2, t1.a)) && (TriTri(Relabelled(t1), t2) <==> ShareAPoint(t1, t2))
  }

  lemma OrderMatters(t1: Tri, t2: Tri)
    requires FirstAlone(Heights(t1, t2)) && Spread(Heights(t1, t2))
    requires Straddles(Heights(t2, t1)) && Spread(Heights(t2, t1)) && !FirstAlone(Heights(t2, t1))
    ensures Ordered(t1, t2)
  {
    VertexOrderMatters(t1, t2);
  }

  lemma StandingIsOrdered(t1: Tri, l: real, t2: Tri)
    requires Standing(t1, l) && Lying(t2) && 1.0 <= l
    ensures Ordered(t1, t2)
  {
    StandingSigns(t1, l, t2);
    OrderMatters(t1, t2);
  }

  /** Triangles that pass through each other at the origin: the pair is refused whenever the
      first vertex of the standing one is out of the lying one. */
  lemma RefusedAlthoughTheyMeet(t1: Tri, l: real, t2: Tri)
    requires Standing(t1, l) && Lying(t2) && 1.0 <= l
    ensures ShareAPoint(t1, t2) && (TriTri(t1, t2) <==> l <= 5.0)
  {
    StandingIsOrdered(t1, l, t2);
    StandingMeetsLying(t1, l, t2);
    LyingHolds(t2, t1.a);
  }

  /** With that vertex put last the same pair is accepted. */
  lemma AcceptedWhenRelabelled(t1: Tri, l: real, t2: Tri)
    requires Standing(t1, l) && Lying(t2) && 1.0 <= l
    ensures TriTri(Relabelled(t1), t2)
  {
    StandingIsOrdered(t1, l, t2);
    StandingMeetsLying(t1, l, t2);
  }
}
