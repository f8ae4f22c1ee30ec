/** What the interval test proves about a pair of triangles: outside its tolerance band an
    accepted pair has a point in common. */
module TriangleSoundness {
  import opened Common
  import opened TriangleTest

  /** Neither all strictly above nor all strictly below. */
  predicate Straddles(d: Triple) {
    && !(d.p > 0.0 && d.q > 0.0 && d.r > 0.0)
    && !(d.p < 0.0 && d.q < 0.0 && d.r < 0.0)
  }

  /** Each triangle reaches both sides of the other's plane, or touches it. */
  predicate Crosses(t1: Tri, t2: Tri) { Straddles(Heights(t1, t2)) && Straddles(Heights(t2, t1)) }

  // ---------------------------------------------------------------- interpolation

  function Mix(a: real, b: real, s: real): real { a + (b - a) * s }

  function Lerp(a: Vec, b: Vec, s: real): Vec { Vec(Mix(a.x, b.x, s), Mix(a.y, b.y, s), Mix(a.z, b.z, s)) }

  lemma MixBetween(a: real, b: real, s: real, m: real)
    requires 0.0 <= s <= 1.0 && m == Mix(a, b, s)
    ensures Min(a, b) <= m <= Max(a, b)
  {
    var d := b - a;
    var p := d * s;
    MixStep(d, s, p);
  }

  lemma MixStep(d: real, s: real, p: real)
    requires 0.0 <= s <= 1.0 && p == d * s
    ensures d >= 0.0 ==> 0.0 <= p <= d
    ensures d <= 0.0 ==> d <= p <= 0.0
  {
  }

  /** The height of a point along an edge is the mix of the heights of its ends. */
  lemma HeightOfLerp(n: Vec, o: Vec, a: Vec, b: Vec, s: real)
    ensures Height(n, o, Lerp(a, b, s)) == Mix(Height(n, o, a), Height(n, o, b), s)
  {
    MixTimes(n.x, a.x, b.x, s);
    MixTimes(n.y, a.y, b.y, s);
    MixTimes(n.z, a.z, b.z, s);
    var k := -Dot(n, o);
    MixSum(n.x * a.x, n.y * a.y, n.z * a.z, k, n.x * b.x, n.y * b.y, n.z * b.z, s);
  }

  lemma MixTimes(n: real, a: real, b: real, s: real)
    ensures n * Mix(a, b, s) == Mix(n * a, n * b, s)
  {
  }

  lemma MixSum(a: real, b: real, c: real, k: real, a': real, b': real, c': real, s: real)
    ensures Mix(a, a', s) + Mix(b, b', s) + Mix(c, c', s) + k == Mix(a + b + c + k, a' + b' + c' + k, s)
  {
  }

  /** The point where an edge meets height zero. */
  lemma CrossingPoint(d: real, e: real, s: real)
    requires d - e != 0.0 && s == d / (d - e)
    ensures Mix(d, e, s) == 0.0
    ensures (d >= 0.0 >= e || d <= 0.0 <= e) ==> 0.0 <= s <= 1.0
  {
    var f := d - e;
    assert s * f == d;
    assert (e - d) * s == -(s * f);
  }

  lemma AlongLerp(a: Vec, b: Vec, s: real, k: Axis)
    ensures Along(Lerp(a, b, s), k) == Mix(Along(a, k), Along(b, k), s)
  {
  }

  /** A value between two others is a mix of them. */
  lemma MixReaches(a: real, b: real, x: real) returns (s: real)
    requires Min(a, b) <= x <= Max(a, b)
    ensures 0.0 <= s <= 1.0 && Mix(a, b, s) == x
  {
    if a == b {
      s := 0.0;
    } else {
      s := (x - a) / (b - a);
      var f := b - a;
      assert s * f == x - a;
      UnitQuotient(s, f, x - a);
    }
  }

  lemma UnitQuotient(s: real, f: real, p: real)
    requires s * f == p && (0.0 <= p <= f || f <= p <= 0.0) && f != 0.0
    ensures 0.0 <= s <= 1.0
  {
  }

  // ---------------------------------------------------------------- points of a triangle

  /** A point of a triangle, as a mix of points on the two edges that meet at `w`. */
  datatype Chord = Chord(u: Vec, v: Vec, w: Vec, s: real, s': real, r: real)
  {
    function First(): Vec { Lerp(u, w, s) }

    function Second(): Vec { Lerp(v, w, s') }

    function Point(): Vec { Lerp(First(), Second(), r) }
  }

  predicate Labels(c: Chord, t: Tri) {
    (c.u, c.v, c.w) == (t.a, t.b, t.c) || (c.u, c.v, c.w) == (t.a, t.c, t.b) || (c.u, c.v, c.w) == (t.b, t.c, t.a)
  }

  predicate ChordOf(c: Chord, t: Tri) {
    Labels(c, t) && 0.0 <= c.s <= 1.0 && 0.0 <= c.s' <= 1.0 && 0.0 <= c.r <= 1.0
  }

  lemma LerpInside(a: Vec, b: Vec, s: real, box: Aabb, p: Vec)
    requires Inside(a, box) && Inside(b, box) && 0.0 <= s <= 1.0 && p == Lerp(a, b, s)
    ensures Inside(p, box)
  {
    forall k: Axis ensures Along(box.min, k) <= Along(p, k) <= Along(box.max, k) {
      AlongLerp(a, b, s, k);
      MixBetween(Along(a, k), Along(b, k), s, Along(p, k));
    }
  }

  lemma VerticesInside(t: Tri)
    ensures Inside(t.a, BoxOf(t)) && Inside(t.b, BoxOf(t)) && Inside(t.c, BoxOf(t))
  {
  }

  lemma ChordInside(c: Chord, t: Tri)
    requires ChordOf(c, t)
    ensures Inside(c.Point(), BoxOf(t))
  {
    VerticesInside(t);
    var box := BoxOf(t);
    LerpInside(c.u, c.w, c.s, box, c.First());
    LerpInside(c.v, c.w, c.s', box, c.Second());
    LerpInside(c.First(), c.Second(), c.r, box, c.Point());
  }

  lemma CommonPointOverlaps(p: Vec, a: Aabb, b: Aabb)
    requires Inside(p, a) && Inside(p, b)
    ensures Overlaps(a, b)
  {
    forall k: Axis ensures Along(a.min, k) <= Along(b.max, k) && Along(a.max, k) >= Along(b.min, k) {
      assert Along(a.min, k) <= Along(p, k) <= Along(a.max, k) && Along(b.min, k) <= Along(p, k) <= Along(b.max, k);
    }
  }

  // ---------------------------------------------------------------- planes

  /** The plane with normal `n` through `o`. */
  datatype Plane = Plane(n: Vec, o: Vec)
  {
    function At(p: Vec): real { Height(n, o, p) }
  }

  function PlaneOf(t: Tri): Plane { Plane(Normal(t), t.a) }

  lemma MixOfZeros(s: real)
    ensures Mix(0.0, 0.0, s) == 0.0
  {
  }

  lemma LerpOnPlane(pl: Plane, a: Vec, b: Vec, s: real)
    requires Mix(pl.At(a), pl.At(b), s) == 0.0
    ensures pl.At(Lerp(a, b, s)) == 0.0
  {
    HeightOfLerp(pl.n, pl.o, a, b, s);
  }

  lemma DotOfDifference(n: Vec, o: Vec, p: Vec)
    ensures Height(n, o, p) == Dot(n, Sub(p, o))
  {
    assert n.x * (p.x - o.x) == n.x * p.x - n.x * o.x;
    assert n.y * (p.y - o.y) == n.y * p.y - n.y * o.y;
    assert n.z * (p.z - o.z) == n.z * p.z - n.z * o.z;
  }

  lemma CrossIsNormal(a: Vec, b: Vec)
    ensures Dot(Cross(a, b), a) == 0.0 && Dot(Cross(a, b), b) == 0.0
  {
    ScalarTriple(a.x, a.y, a.z, b.x, b.y, b.z);
    ScalarTriple(b.x, b.y, b.z, a.x, a.y, a.z);
  }

  lemma ScalarTriple(a: real, b: real, c: real, d: real, e: real, f: real)
    ensures (b * f - c * e) * a + (c * d - a * f) * b + (a * e - b * d) * c == 0.0
    ensures (e * c - f * b) * a + (f * a - d * c) * b + (d * b - e * a) * c == 0.0
  {
    assert (b * f - c * e) * a == a * b * f - a * c * e;
    assert (c * d - a * f) * b == b * c * d - a * b * f;
    assert (a * e - b * d) * c == a * c * e - b * c * d;
    assert (e * c - f * b) * a == a * c * e - a * b * f;
    assert (f * a - d * c) * b == a * b * f - b * c * d;
    assert (d * b - e * a) * c == b * c * d - a * c * e;
  }

  /** A triangle's vertices lie on its own plane. */
  lemma VerticesOnPlane(t: Tri, pl: Plane)
    requires pl == PlaneOf(t)
    ensures pl.At(t.a) == 0.0 && pl.At(t.b) == 0.0 && pl.At(t.c) == 0.0
  {
    var e, f := Sub(t.b, t.a), Sub(t.c, t.a);
    CrossIsNormal(e, f);
    DotOfDifference(pl.n, t.a, t.b);
    DotOfDifference(pl.n, t.a, t.c);
  }

  // ---------------------------------------------------------------- the line two planes share

  /** Two equations with a nonzero determinant have only the zero solution. */
  lemma OnlyZero(a: real, b: real, c: real, d: real, x: real, y: real)
    requires a * x + b * y == 0.0 && c * x + d * y == 0.0 && a * d - b * c != 0.0
    ensures x == 0.0 && y == 0.0
  {
    var det := a * d - b * c;
    var p, q := a * x + b * y, c * x + d * y;
    assert det * x == d * p - b * q;
    assert det * y == a * q - c * p;
    ZeroFactor(det, x);
    ZeroFactor(det, y);
  }

  lemma ZeroFactor(a: real, x: real)
    requires a != 0.0 && a * x == 0.0
    ensures x == 0.0
  {
  }

  /** Points on both planes that agree along an axis on which the shared line moves are equal. */
  lemma SamePoint(n: Vec, m: Vec, d: Vec, k: Axis)
    requires Dot(n, d) == 0.0 && Dot(m, d) == 0.0 && Along(d, k) == 0.0 && Along(Cross(n, m), k) != 0.0
    ensures d == Vec(0.0, 0.0, 0.0)
  {
    match k
    case X => OnlyZero(n.y, n.z, m.y, m.z, d.y, d.z);
    case Y => OnlyZero(n.z, n.x, m.z, m.x, d.z, d.x);
    case Z => OnlyZero(n.x, n.y, m.x, m.y, d.x, d.y);
  }

  const Zero: Vec := Vec(0.0, 0.0, 0.0)

  /** One component of the triple product (a x b) x c, with e = a.c and f = b.c. */
  lemma TripleComponent(a: Vec, b: Vec, c: Vec, e: real, f: real)
    requires e == Dot(a, c) && f == Dot(b, c)
    ensures (a.z * b.x - a.x * b.z) * c.z - (a.x * b.y - a.y * b.x) * c.y == b.x * e - a.x * f
  {
    assert b.x * e == b.x * a.x * c.x + b.x * a.y * c.y + b.x * a.z * c.z;
    assert a.x * f == a.x * b.x * c.x + a.x * b.y * c.y + a.x * b.z * c.z;
    assert (a.z * b.x - a.x * b.z) * c.z == a.z * b.x * c.z - a.x * b.z * c.z;
    assert (a.x * b.y - a.y * b.x) * c.y == a.x * b.y * c.y - a.y * b.x * c.y;
  }

  lemma DotOfTurn(a: Vec, c: Vec)
    ensures Dot(Turn(a), Turn(c)) == Dot(a, c)
  {
  }

  lemma TripleProduct(a: Vec, b: Vec, c: Vec, e: real, f: real)
    requires e == Dot(a, c) && f == Dot(b, c)
    ensures Cross(Cross(a, b), c) == Vec(b.x * e - a.x * f, b.y * e - a.y * f, b.z * e - a.z * f)
  {
    var n := Cross(a, b);
    DotOfTurn(a, c);
    DotOfTurn(b, c);
    DotOfTurn(Turn(a), Turn(c));
    DotOfTurn(Turn(b), Turn(c));
    TripleComponent(a, b, c, e, f);
    TripleComponent(Turn(a), Turn(b), Turn(c), e, f);
    TripleComponent(Turn(Turn(a)), Turn(Turn(b)), Turn(Turn(c)), e, f);
    assert n.y * c.z - n.z * c.y == b.x * e - a.x * f;
    assert n.z * c.x - n.x * c.z == b.y * e - a.y * f;
    assert n.x * c.y - n.y * c.x == b.z * e - a.z * f;
  }

  /** If b*e = a*f componentwise, with e or f nonzero, then a and b are parallel. */
  lemma ParallelPair(p: real, q: real, r: real, t: real, e: real, f: real)
    requires r * e == p * f && t * e == q * f && (e != 0.0 || f != 0.0)
    ensures p * t - q * r == 0.0
  {
    var w := p * t - q * r;
    if e != 0.0 {
      assert e * w == p * (t * e) - q * (r * e);
      assert p * (q * f) == q * (p * f);
      ZeroFactor(e, w);
    } else {
      assert f * w == (p * f) * t - (q * f) * r;
      assert (r * e) * t == (t * e) * r;
      ZeroFactor(f, w);
    }
  }

  lemma ParallelEdges(a: Vec, b: Vec, c: Vec, e: real, f: real)
    requires e == Dot(a, c) && f == Dot(b, c) && (e != 0.0 || f != 0.0)
    requires Cross(Cross(a, b), c) == Zero
    ensures Cross(a, b) == Zero
  {
    TripleProduct(a, b, c, e, f);
    ParallelPair(a.y, a.z, b.y, b.z, e, f);
    ParallelPair(a.z, a.x, b.z, b.x, e, f);
    ParallelPair(a.x, a.y, b.x, b.y, e, f);
  }

  predicate AllEqual(d: Triple) { d.p == d.q && d.q == d.r }

  lemma HeightDifference(n: Vec, o: Vec, a: Vec, b: Vec)
    ensures Height(n, o, b) - Height(n, o, a) == Dot(Sub(b, a), n)
  {
    assert (b.x - a.x) * n.x == n.x * b.x - n.x * a.x;
    assert (b.y - a.y) * n.y == n.y * b.y - n.y * a.y;
    assert (b.z - a.z) * n.z == n.z * b.z - n.z * a.z;
  }

  /** Two planes that each see the other's triangle at differing heights meet in a line. */
  lemma PlanesMeet(t1: Tri, t2: Tri, n1: Vec, n2: Vec)
    requires n1 == Normal(t1) && n2 == Normal(t2)
    requires !AllEqual(Heights(t1, t2)) && !AllEqual(Heights(t2, t1))
    ensures Cross(n1, n2) != Zero
  {
    if Cross(n1, n2) == Zero {
      var a, b := Sub(t1.b, t1.a), Sub(t1.c, t1.a);
      HeightDifference(n2, t2.a, t1.a, t1.b);
      HeightDifference(n2, t2.a, t1.a, t1.c);
      ParallelEdges(a, b, n2, Dot(a, n2), Dot(b, n2));
      HeightsOfDegenerate(t2, t1);
    }
  }

  lemma HeightsOfDegenerate(t: Tri, plane: Tri)
    requires Normal(plane) == Zero
    ensures AllEqual(Heights(t, plane))
  {
  }

  lemma DominantMoves(d: Vec)
    requires d != Zero
    ensures Along(d, Dominant(d)) != 0.0
  {
  }

  // ---------------------------------------------------------------- the interval of one triangle

  predicate Opposite(d: real, e: real) { d >= 0.0 >= e || d <= 0.0 <= e }

  /** The lone vertex is on the other side from the two it is paired with. */
  lemma LoneIsOpposite(d: Triple)
    requires Straddles(d)
    ensures var (i, j, s) := LoneLast(d, d.p, d.q, d.r); Opposite(i, s) && Opposite(j, s)
  {
    SignsOfProduct(d.p, d.q);
    SignsOfProduct(d.p, d.r);
  }

  lemma SignsOfProduct(a: real, b: real)
    ensures a * b > 0.0 <==> (a > 0.0 && b > 0.0) || (a < 0.0 && b < 0.0)
  {
  }

  /** The crossing of one edge lies on both planes, and is the source's scalar along the axis. */
  lemma EdgePoint(pl: Plane, own: Plane, u: Vec, w: Vec, d: real, e: real, s: real, k: Axis)
    requires pl.At(u) == d && pl.At(w) == e && own.At(u) == 0.0 && own.At(w) == 0.0
    requires Opposite(d, e) && d - e != 0.0 && s == d / (d - e)
    ensures 0.0 <= s <= 1.0 && pl.At(Lerp(u, w, s)) == 0.0 && own.At(Lerp(u, w, s)) == 0.0
    ensures Along(Lerp(u, w, s), k) == Crossing(Along(u, k), d, Along(w, k), e)
  {
    CrossingPoint(d, e, s);
    LerpOnPlane(pl, u, w, s);
    MixOfZeros(s);
    LerpOnPlane(own, u, w, s);
    AlongCrossing(u, w, d, e, s, k);
  }

  lemma AlongCrossing(u: Vec, w: Vec, d: real, e: real, s: real, k: Axis)
    requires d - e != 0.0 && s == d / (d - e)
    ensures Along(Lerp(u, w, s), k) == Crossing(Along(u, k), d, Along(w, k), e)
  {
    AlongLerp(u, w, s, k);
  }

  /** Between two points of both planes every value along the axis is taken on both planes. */
  lemma BetweenPoints(pl: Plane, own: Plane, a: Vec, b: Vec, k: Axis, x: real) returns (r: real)
    requires pl.At(a) == 0.0 && pl.At(b) == 0.0 && own.At(a) == 0.0 && own.At(b) == 0.0
    requires Min(Along(a, k), Along(b, k)) <= x <= Max(Along(a, k), Along(b, k))
    ensures
      0.0 <= r <= 1.0 && Along(Lerp(a, b, r), k) == x && pl.At(Lerp(a, b, r)) == 0.0 && own.At(Lerp(a, b, r)) == 0.0
  {
    r := MixReaches(Along(a, k), Along(b, k), x);
    AlongLerp(a, b, r, k);
    MixOfZeros(r);
    LerpOnPlane(pl, a, b, r);
    LerpOnPlane(own, a, b, r);
  }

  /** A triangle paired with the heights of its vertices over another's plane, lone vertex last. */
  predicate Paired(t: Tri, pl: Plane, own: Plane, d: Triple) {
    && d == Triple(pl.At(t.a), pl.At(t.b), pl.At(t.c))
    && own.At(t.a) == 0.0 && own.At(t.b) == 0.0 && own.At(t.c) == 0.0
  }

  lemma ChordFrom(t: Tri, pl: Plane, own: Plane, u: Vec, v: Vec, w: Vec, i: real, j: real, e: real, k: Axis, x: real)
    returns (c: Chord)
    requires pl.At(u) == i && pl.At(v) == j && pl.At(w) == e && own.At(u) == 0.0 && own.At(v) == 0.0 && own.At(w) == 0.0
    requires Opposite(i, e) && Opposite(j, e) && i - e != 0.0 && j - e != 0.0
    requires var p, q := Crossing(Along(u, k), i, Along(w, k), e), Crossing(Along(v, k), j, Along(w, k), e);
      Min(p, q) <= x <= Max(p, q)
    ensures (c.u, c.v, c.w) == (u, v, w) && 0.0 <= c.s <= 1.0 && 0.0 <= c.s' <= 1.0 && 0.0 <= c.r <= 1.0
    ensures Along(c.Point(), k) == x && pl.At(c.Point()) == 0.0 && own.At(c.Point()) == 0.0
  {
    var s, s' := i / (i - e), j / (j - e);
    EdgePoint(pl, own, u, w, i, e, s, k);
    EdgePoint(pl, own, v, w, j, e, s', k);
    var r := BetweenPoints(pl, own, Lerp(u, w, s), Lerp(v, w, s'), k, x);
    c := Chord(u, v, w, s, s', r);
  }

  /** Every value in a triangle's interval is taken at a point of the triangle on both planes. */
  lemma ChordAt(t: Tri, pl: Plane, own: Plane, d: Triple, k: Axis, x: real) returns (c: Chord)
    requires Paired(t, pl, own, d) && Straddles(d)
    requires var iv := Interval(Projected(t, k), d); iv.Some? && iv.value.0 <= x <= iv.value.1
    ensures ChordOf(c, t) && Along(c.Point(), k) == x && pl.At(c.Point()) == 0.0 && own.At(c.Point()) == 0.0
  {
    LoneIsOpposite(d);
    var (u, v, w) := LoneLast(d, t.a, t.b, t.c);
    var (i, j, e) := LoneLast(d, d.p, d.q, d.r);
    c := ChordFrom(t, pl, own, u, v, w, i, j, e, k, x);
  }

  /** An interval is only found when the heights differ. */
  lemma IntervalNeedsHeights(p: Triple, d: Triple)
    requires Interval(p, d).Some?
    ensures !AllEqual(d)
  {
  }

  // ---------------------------------------------------------------- the test as a whole

  lemma SameHeight(pl: Plane, p: Vec, q: Vec)
    requires pl.At(p) == 0.0 && pl.At(q) == 0.0
    ensures Dot(pl.n, Sub(q, p)) == 0.0
  {
    HeightDifference(pl.n, pl.o, p, q);
  }

  lemma MeetingPoint(p1: Plane, p2: Plane, p: Vec, q: Vec, k: Axis)
    requires p1.At(p) == 0.0 && p1.At(q) == 0.0 && p2.At(p) == 0.0 && p2.At(q) == 0.0
    requires Along(p, k) == Along(q, k) && Along(Cross(p1.n, p2.n), k) != 0.0
    ensures p == q
  {
    SameHeight(p1, p, q);
    SameHeight(p2, p, q);
    SamePoint(p1.n, p2.n, Sub(q, p), k);
  }

  /** An accepted pair in which each triangle reaches both sides of the other's plane has a
      point in common. */
  lemma AcceptedPairShares(t1: Tri, t2: Tri) returns (c1: Chord, c2: Chord)
    requires TriTri(t1, t2) && Crosses(t1, t2)
    ensures ChordOf(c1, t1) && ChordOf(c2, t2) && c1.Point() == c2.Point()
  {
    var p1, p2, d1, d2 := PlaneOf(t1), PlaneOf(t2), Heights(t1, t2), Heights(t2, t1);
    var k := Dominant(Cross(p1.n, p2.n));
    VerticesOnPlane(t1, p1);
    VerticesOnPlane(t2, p2);
    var i1, i2 := Interval(Projected(t1, k), d1), Interval(Projected(t2, k), d2);
    var x := Max(i1.value.0, i2.value.0);
    c1 := ChordAt(t1, p2, p1, d1, k, x);
    c2 := ChordAt(t2, p1, p2, d2, k, x);
    IntervalNeedsHeights(Projected(t1, k), d1);
    IntervalNeedsHeights(Projected(t2, k), d2);
    PlanesMeet(t1, t2, p1.n, p2.n);
    DominantMoves(Cross(p1.n, p2.n));
    MeetingPoint(p1, p2, c1.Point(), c2.Point(), k);
  }

  /** Such a pair has overlapping boxes. */
  lemma AcceptedPairOverlaps(t1: Tri, t2: Tri)
    requires TriTri(t1, t2) && Crosses(t1, t2)
    ensures Overlaps(BoxOf(t1), BoxOf(t2))
  {
    var c1, c2 := AcceptedPairShares(t1, t2);
    ChordInside(c1, t1);
    ChordInside(c2, t2);
    CommonPointOverlaps(c1.Point(), BoxOf(t1), BoxOf(t2));
  }

  // ---------------------------------------------------------------- the tolerance band

  /** A triangle standing upright at depth `y`, from height `z` to height one. */
  function Upright(y: real, z: real): Tri { Tri(Vec(-1.0, y, z), Vec(1.0, y, z), Vec(0.0, y, 1.0)) }

  /** A triangle with two sides of length `a`, lying on the ground. */
  function Flat(a: real): Tri { Tri(Vec(0.0, 0.0, 0.0), Vec(a, 0.0, 0.0), Vec(0.0, a, 0.0)) }

  lemma FlatNormal(a: real, aa: real)
    requires aa == a * a
    ensures Normal(Flat(a)) == Vec(0.0, 0.0, aa)
  {
  }

  lemma UprightNormal(y: real, z: real)
    ensures Normal(Upright(y, z)) == Vec(0.0, -2.0 * (1.0 - z), 0.0)
  {
  }

  lemma UprightHeights(a: real, y: real, z: real, aa: real, h: real)
    requires aa == a * a && h == aa * z
    ensures Heights(Upright(y, z), Flat(a)) == Triple(h, h, aa)
  {
    FlatNormal(a, aa);
  }

  lemma FlatHeights(a: real, y: real, z: real, g: real, e: real, f: real)
    requires g == 2.0 * (1.0 - z) && e == g * y && f == g * (a - y)
    ensures Heights(Flat(a), Upright(y, z)) == Triple(e, e, -f)
  {
    UprightNormal(y, z);
    assert -g * (0.0 - y) == e && -g * (a - y) == -f;
  }

  lemma UprightInterval(h: real, aa: real)
    requires 0.0 < h && aa - h > Eps
    ensures
      var i := Interval(Triple(-1.0, 1.0, 0.0), Triple(h, h, aa)); i.Some? && i.value.0 <= -1.0 && 1.0 <= i.value.1
  {
    assert h * h > 0.0;
    var q := h / (h - aa);
    assert q * (h - aa) == h;
    assert q < 0.0;
  }

  lemma FlatInterval(a: real, e: real, f: real)
    requires 0.0 < a < 1.0 && Eps < e && 0.0 < f
    ensures var i := Interval(Triple(0.0, a, 0.0), Triple(e, e, -f)); i.Some? && -1.0 <= i.value.0 <= i.value.1 <= 1.0
  {
    assert e * e > 0.0;
    var q := e / (e + f);
    assert q * (e + f) == e;
    assert 0.0 <= q <= 1.0;
    MixBetween(a, 0.0, q, Mix(a, 0.0, q));
    assert e - -f == e + f;
  }

  lemma UprightDirection(z: real, aa: real, g: real)
    requires g == 2.0 * (1.0 - z)
    ensures Dominant(Cross(Vec(0.0, -g, 0.0), Vec(0.0, 0.0, aa))) == X
  {
  }

  lemma AcceptedFrom(t1: Tri, t2: Tri, d1: Triple, d2: Triple, k: Axis, p1: Triple, p2: Triple)
    requires d1 == Heights(t1, t2) && d2 == Heights(t2, t1) && k == Dominant(Cross(Normal(t1), Normal(t2)))
    requires p1 == Projected(t1, k) && p2 == Projected(t2, k)
    requires !OneSided(d1) && !OneSided(d2) && !Coplanar(d1) && Overlapping(Interval(p1, d1), Interval(p2, d2))
    ensures TriTri(t1, t2)
  {
  }

  lemma BoxesApart(a: real, y: real, z: real)
    requires 0.0 < z < 1.0
    ensures !Overlaps(BoxOf(Upright(y, z)), BoxOf(Flat(a)))
  {
    assert Along(BoxOf(Upright(y, z)).min, Z) == z && Along(BoxOf(Flat(a)).max, Z) == 0.0;
  }

  /** Inside the tolerance band a pair is accepted although the boxes are apart: an upright
      triangle whose foot hovers at height z over a flat one so small that z*a*a is within the
      tolerance. */
  lemma BandPairIsAccepted(a: real, y: real, z: real)
    requires 0.0 < a < 1.0 && 0.0 < z < 1.0 && 0.0 < a * a * z <= Eps && a * a - a * a * z > Eps
    requires Eps < 2.0 * (1.0 - z) * y && Eps < 2.0 * (1.0 - z) * (a - y)
    ensures TriTri(Upright(y, z), Flat(a)) && !Overlaps(BoxOf(Upright(y, z)), BoxOf(Flat(a)))
  {
    var g := 2.0 * (1.0 - z);
    BandPairFrom(a, y, z, a * a, a * a * z, g, g * y, g * (a - y));
    BoxesApart(a, y, z);
  }

  lemma BandPairFrom(a: real, y: real, z: real, aa: real, h: real, g: real, e: real, f: real)
    requires 0.0 < a < 1.0 && aa == a * a && h == aa * z && 0.0 < h <= Eps && aa - h > Eps
    requires g == 2.0 * (1.0 - z) && e == g * y && f == g * (a - y) && Eps < e && Eps < f
    ensures TriTri(Upright(y, z), Flat(a))
  {
    UprightHeights(a, y, z, aa, h);
    FlatHeights(a, y, z, g, e, f);
    FlatNormal(a, aa);
    UprightNormal(y, z);
    UprightDirection(z, aa, g);
    UprightInterval(h, aa);
    FlatInterval(a, e, f);
    AcceptedFrom(Upright(y, z), Flat(a), Triple(h, h, aa), Triple(e, e, -f), X, Triple(-1.0, 1.0, 0.0),
      Triple(0.0, a, 0.0));
  }

  /** A one-millimetre gap over a triangle with sides of a hundredth of a millimetre. */
  lemma BandPairExists() returns (t1: Tri, t2: Tri)
    ensures TriTri(t1, t2) && !Overlaps(BoxOf(t1), BoxOf(t2))
  {
    t1, t2 := Upright(0.000002, 0.001), Flat(0.00001);
    BandPairIsAccepted(0.00001, 0.000002, 0.001);
  }
}
