/** Each face term is a signed tetrahedron term plus terms that belong to the face's edges. */
module MassIdentities {
  import opened TriangleTest
  import opened MassProps
  import opened RealProduct

  /** Six times the signed volume of the tetrahedron of a face and the origin. */
  function Det(t: Tri): real { Mul(t.a.x, Wedge(t.b, t.c)) + Mul(t.b.x, Wedge(t.c, t.a)) + Mul(t.c.x, Wedge(t.a, t.b)) }

  /** The x component of the cross product. */
  function Wedge(a: Vec, b: Vec): real { Mul(a.y, b.z) - Mul(b.y, a.z) }

  /** The factor of a face whose third vertex is at the origin. */
  function PairFactor(kind: Kind, a: Vec, b: Vec): real {
    match kind
    case Volume => a.x + b.x
    case First => E2(a.x, b.x)
    case Second => E3(a.x, b.x)
    case Product => PairMixed(a.y, b.y, G(a.x, a.x + b.x, E2(a.x, b.x)), G(b.x, a.x + b.x, E2(a.x, b.x)))
  }

  function PairMixed(y0: real, y1: real, g0: real, g1: real): real { Mul(y0, g0) + Mul(y1, g1) }

  /** What a tetrahedron of the origin and a face contributes, per unit of its determinant. */
  function Density(kind: Kind, t: Tri): real {
    match kind
    case Volume => 1.0
    case First => F1(t.a.x, t.b.x, t.c.x)
    case Second => F2(t.a.x, t.b.x, t.c.x)
    case Product => DensityMixed(t.a.x, t.b.x, t.c.x, t.a.y, t.b.y, t.c.y)
  }

  function DensityMixed(x0: real, x1: real, x2: real, y0: real, y1: real, y2: real): real {
    Mul(F1(x0, x1, x2), F1(y0, y1, y2)) + (Mul(x0, y0) + Mul(x1, y1) + Mul(x2, y2))
  }

  /** The part of a factor along y, which no closed sum sees. */
  function Residue(kind: Kind, t: Tri): real {
    if kind == Product then F2(t.a.x, t.b.x, t.c.x) else 0.0
  }

  function Spin(t: Tri): Tri { Tri(t.b, t.c, t.a) }

  // ---------------------------------------------------------------- the factor, peeled

  /** One coefficient of a product integral, peeled of its third vertex. */
  lemma PeelCoefficient(x: real, x2: real, e1: real, e2: real, f1: real, f2: real)
    requires f1 == e1 + x2 && f2 == e2 + Mul(x2, f1)
    ensures G(x, f1, f2) == G(x, e1, e2) + Mul(x2, f1 + x)
  {
    MulSum(x, e1 + x, x2, f1 + x);
    MulSum(x2, f1, x, f1 + x);
    MulCommutes(x, x2);
  }

  lemma PeelSummand(x2: real, y: real, g: real, h: real, whole: real)
    requires whole == g + Mul(x2, h)
    ensures Mul(y, whole) == Mul(y, g) + Mul(x2, Mul(y, h))
  {
    MulSum(y, g, Mul(x2, h), whole);
    MulSwap(y, x2, h);
  }

  lemma PeelSum(x2: real, y0: real, y1: real, y2: real, g0: real, g1: real, h0: real, h1: real, h2: real, s: Terms,
                d: real)
    requires
      && s.g0 == g0 + Mul(x2, h0) && s.g1 == g1 + Mul(x2, h1) && s.g2 == s.f2 + Mul(x2, h2)
      && d == Mul(y0, h0) + Mul(y1, h1) + Mul(y2, h2)
    ensures Mixed(y0, y1, y2, s) == PairMixed(y0, y1, g0, g1) + Mul(x2, d) + Mul(y2, s.f2)
  {
    PeelSummand(x2, y0, g0, h0, s.g0);
    PeelSummand(x2, y1, g1, h1, s.g1);
    PeelSummand(x2, y2, s.f2, h2, s.g2);
    MulSum3(x2, Mul(y0, h0), Mul(y1, h1), Mul(y2, h2), d);
  }

  lemma DensityAsSum(x0: real, x1: real, x2: real, y0: real, y1: real, y2: real, f1: real)
    requires f1 == F1(x0, x1, x2)
    ensures DensityMixed(x0, x1, x2, y0, y1, y2) == Mul(y0, f1 + x0) + Mul(y1, f1 + x1) + Mul(y2, f1 + x2)
  {
    MulSum3(f1, y0, y1, y2, F1(y0, y1, y2));
    DensitySummand(y0, f1, x0);
    DensitySummand(y1, f1, x1);
    DensitySummand(y2, f1, x2);
  }

  lemma DensitySummand(y: real, f1: real, x: real)
    ensures Mul(y, f1 + x) == Mul(f1, y) + Mul(x, y)
  {
    MulSum(y, f1, x, f1 + x);
    MulCommutes(y, f1);
    MulCommutes(y, x);
  }

  lemma PeelMixed(x0: real, x1: real, x2: real, y0: real, y1: real, y2: real, s: Terms, e1: real, e2: real, d: real)
    requires e1 == x0 + x1 && s.f1 == F1(x0, x1, x2) && s.f2 == e2 + Mul(x2, s.f1)
    requires
      && s.g0 == G(x0, s.f1, s.f2) && s.g1 == G(x1, s.f1, s.f2) && s.g2 == G(x2, s.f1, s.f2)
      && d == DensityMixed(x0, x1, x2, y0, y1, y2)
    ensures Mixed(y0, y1, y2, s) == PairMixed(y0, y1, G(x0, e1, e2), G(x1, e1, e2)) + Mul(x2, d) + Mul(y2, s.f2)
  {
    PeelCoefficient(x0, x2, e1, e2, s.f1, s.f2);
    PeelCoefficient(x1, x2, e1, e2, s.f1, s.f2);
    DensityAsSum(x0, x1, x2, y0, y1, y2, s.f1);
    PeelSum(x2, y0, y1, y2, G(x0, e1, e2), G(x1, e1, e2), s.f1 + x0, s.f1 + x1, s.f1 + x2, s, d);
  }

  /** A factor is that of its first edge, plus multiples of the third vertex's x and y. */
  lemma Peel(kind: Kind, t: Tri)
    ensures Factor(kind, t) == PairFactor(kind, t.a, t.b) + Mul(t.c.x, Density(kind, t)) + Mul(t.c.y, Residue(kind, t))
  {
    if kind == Product {
      var x0, x1, x2 := t.a.x, t.b.x, t.c.x;
      PeelMixed(x0, x1, x2, t.a.y, t.b.y, t.c.y, SubExpressions(x0, x1, x2), x0 + x1, E2(x0, x1), Density(Product, t));
    }
  }

  // ---------------------------------------------------------------- the order of the vertices

  lemma SpinF2(p: real, q: real, r: real)
    ensures F2(p, q, r) == F2(q, r, p)
  {
    MulSum(q, p, q, p + q);
    MulSum(r, q, r, q + r);
    MulSum3(r, p, q, r, F1(p, q, r));
    MulSum3(p, q, r, p, F1(q, r, p));
    MulCommutes(p, q);
    MulCommutes(p, r);
  }

  lemma SpinProducts(p: real, q: real, r: real, f1: real, f2: real, a: real, b: real)
    requires f1 == p + q + r && a == p * p + q * (p + q) && b == q * q + r * (q + r)
    requires f2 == a + r * f1 && f2 == b + p * f1
    ensures p * (p * p) + q * a + r * f2 == q * (q * q) + r * b + p * f2
  {
    assert q * a == q * f2 - q * (r * f1) && r * b == r * f2 - r * (p * f1);
    assert p * (p * p) == p * f2 - p * (q * (p + q)) - p * (r * f1);
    assert q * (q * q) == q * f2 - q * (r * (q + r)) - q * (p * f1);
    SpinCross(p, q, r, f1);
  }

  lemma SpinCross(p: real, q: real, r: real, f1: real)
    requires f1 == p + q + r
    ensures p * (q * (p + q)) + p * (r * f1) + q * (r * f1) == q * (r * (q + r)) + q * (p * f1) + r * (p * f1)
  {
    assert p * (q * f1) == p * (q * (p + q)) + p * (q * r);
    assert q * (r * f1) == q * (r * (q + r)) + q * (r * p);
    assert r * (p * f1) == p * (r * f1) && q * (p * f1) == p * (q * f1) && p * (q * r) == q * (r * p);
  }

  lemma F3Steps(p: real, q: real, r: real, f1: real, f2: real, a: real)
    requires f1 == F1(p, q, r) && f2 == F2(p, q, r) && a == E2(p, q)
    ensures
      F3(p, q, r) == p * (p * p) + q * a + r * f2 && f1 == p + q + r && a == p * p + q * (p + q) && f2 == a + r * f1
  {
  }

  lemma SpinF3(p: real, q: real, r: real)
    ensures F3(p, q, r) == F3(q, r, p)
  {
    SpinF2(p, q, r);
    SpinF3From(p, q, r, F1(p, q, r), F2(p, q, r), E2(p, q), E2(q, r));
  }

  lemma SpinF3From(p: real, q: real, r: real, f1: real, f2: real, a: real, b: real)
    requires f1 == F1(p, q, r) && f2 == F2(p, q, r) == F2(q, r, p) && a == E2(p, q) && b == E2(q, r)
    ensures F3(p, q, r) == F3(q, r, p)
  {
    assert F1(q, r, p) == f1;
    F3Steps(p, q, r, f1, f2, a);
    F3Steps(q, r, p, f1, f2, b);
    SpinProducts(p, q, r, f1, f2, a, b);
  }

  /** Naming the vertices from the next one on changes nothing. */
  lemma SpinFactor(kind: Kind, t: Tri)
    ensures Factor(kind, Spin(t)) == Factor(kind, t) && Residue(kind, Spin(t)) == Residue(kind, t)
  {
    SpinF2(t.a.x, t.b.x, t.c.x);
    if kind == Second { SpinF3(t.a.x, t.b.x, t.c.x); }
    if kind == Product {
      SpinMixed(t.a.y, t.b.y, t.c.y, SubExpressions(t.a.x, t.b.x, t.c.x), SubExpressions(t.b.x, t.c.x, t.a.x));
    }
  }

  lemma SpinMixed(y0: real, y1: real, y2: real, s: Terms, s': Terms)
    requires s'.g0 == s.g1 && s'.g1 == s.g2 && s'.g2 == s.g0
    ensures Mixed(y1, y2, y0, s') == Mixed(y0, y1, y2, s)
  {
  }

  lemma SpinDensity(kind: Kind, t: Tri)
    ensures Density(kind, Spin(t)) == Density(kind, t)
  {
    match kind
    case Volume =>
    case First =>
    case Second => SpinF2(t.a.x, t.b.x, t.c.x);
    case Product => SpinSums(t.a.x + t.b.x + t.c.x, t.b.x + t.c.x + t.a.x, t.a.y + t.b.y + t.c.y,
      t.b.y + t.c.y + t.a.y);
  }

  lemma SpinSums(f: real, f': real, g: real, g': real)
    requires f == f' && g == g'
    ensures f * g == f' * g'
  {
  }

  // ---------------------------------------------------------------- the edge terms

  function EdgeTerm(kind: Kind, a: Vec, b: Vec): real { Mul(Wedge(a, b), PairFactor(kind, a, b)) }

  lemma E2Symmetric(p: real, q: real)
    ensures E2(p, q) == E2(q, p)
  {
    MulSum(q, p, q, p + q);
    MulSum(p, q, p, q + p);
    MulCommutes(p, q);
  }

  lemma E3Symmetric(p: real, q: real)
    ensures E3(p, q) == E3(q, p)
  {
    MulSum(q, p, q, p + q);
    MulSum(p, q, p, q + p);
    var pp, pq, qp, qq := Mul(p, p), Mul(p, q), Mul(q, p), Mul(q, q);
    MulSum3(q, pp, qp, qq, E2(p, q));
    MulSum3(p, qq, pq, pp, E2(q, p));
    MulSwap(q, p, p);
    MulSwap(p, q, q);
    MulCommutes(p, q);
  }

  lemma PairFactorSymmetric(kind: Kind, a: Vec, b: Vec)
    ensures PairFactor(kind, a, b) == PairFactor(kind, b, a)
  {
    E2Symmetric(a.x, b.x);
    E3Symmetric(a.x, b.x);
  }

  /** An edge term changes sign with the direction of the edge. */
  lemma EdgeTermAntisymmetric(kind: Kind, a: Vec, b: Vec)
    ensures EdgeTerm(kind, a, b) == -EdgeTerm(kind, b, a)
  {
    PairFactorSymmetric(kind, a, b);
    MulNegated(Wedge(b, a), PairFactor(kind, b, a), Wedge(a, b));
  }

  /** A product of differences, multiplied out. */
  lemma MulDifferences(a: real, b: real, c: real, d: real)
    ensures Mul(a - b, c - d) == Mul(a, c) - Mul(a, d) - Mul(b, c) + Mul(b, d)
  {
    MulDifference(c - d, a, b, a - b);
    MulDifference(a, c, d, c - d);
    MulDifference(b, c, d, c - d);
  }

  /** The normal is the sum of the wedges of the edges. */
  lemma NormalIsWedges(t: Tri)
    ensures NormalX(t) == Wedge(t.a, t.b) + Wedge(t.b, t.c) + Wedge(t.c, t.a)
  {
    MulDifferences(t.b.y, t.a.y, t.c.z, t.a.z);
    MulDifferences(t.c.y, t.a.y, t.b.z, t.a.z);
  }

  /** Weighted by y instead of x the determinant vanishes. */
  lemma FlatDeterminant(t: Tri)
    ensures Mul(t.a.y, Wedge(t.b, t.c)) + Mul(t.b.y, Wedge(t.c, t.a)) + Mul(t.c.y, Wedge(t.a, t.b)) == 0.0
  {
    FlatSummand(t.a.y, t.b, t.c);
    FlatSummand(t.b.y, t.c, t.a);
    FlatSummand(t.c.y, t.a, t.b);
    MulSwap(t.a.y, t.b.y, t.c.z);
    MulSwap(t.b.y, t.c.y, t.a.z);
    MulSwap(t.c.y, t.a.y, t.b.z);
  }

  lemma FlatSummand(y: real, a: Vec, b: Vec)
    ensures Mul(y, Wedge(a, b)) == Mul(y, Mul(a.y, b.z)) - Mul(y, Mul(b.y, a.z))
  {
    MulDifference(y, Mul(a.y, b.z), Mul(b.y, a.z), Wedge(a, b));
  }

  lemma WeighEdge(w: real, f: real, p: real, x: real, d: real, y: real, r: real)
    requires f == p + Mul(x, d) + Mul(y, r)
    ensures Mul(w, f) == Mul(w, p) + Mul(Mul(x, w), d) + Mul(Mul(y, w), r)
  {
    MulSum3(w, p, Mul(x, d), Mul(y, r), f);
    MulSwap(w, x, d);
    MulSwap(w, y, r);
    MulCommutes(w, x);
    MulCommutes(w, y);
  }

  lemma FactorAlongEdges(kind: Kind, t: Tri, f: real, d: real, r: real)
    requires f == Factor(kind, t) && d == Density(kind, t) && r == Residue(kind, t)
    ensures f == PairFactor(kind, t.a, t.b) + Mul(t.c.x, d) + Mul(t.c.y, r)
    ensures f == PairFactor(kind, t.b, t.c) + Mul(t.a.x, d) + Mul(t.a.y, r)
    ensures f == PairFactor(kind, t.c, t.a) + Mul(t.b.x, d) + Mul(t.b.y, r)
  {
    Peel(kind, t);
    SpinFactor(kind, t);
    SpinDensity(kind, t);
    Peel(kind, Spin(t));
    SpinFactor(kind, Spin(t));
    SpinDensity(kind, Spin(t));
    Peel(kind, Spin(Spin(t)));
  }

  lemma SumOfProducts(a: real, b: real, c: real, d: real, s: real)
    requires s == a + b + c
    ensures Mul(a, d) + Mul(b, d) + Mul(c, d) == Mul(s, d)
  {
    MulSum(d, a + b, c, s);
    MulSum(d, a, b, a + b);
  }

  /** The face term is the tetrahedron term plus the terms of the face's three edges. */
  lemma FaceIdentity(kind: Kind, t: Tri)
    ensures Kernel(kind, t)
      == Mul(Det(t), Density(kind, t)) + EdgeTerm(kind, t.a, t.b) + EdgeTerm(kind, t.b, t.c) + EdgeTerm(kind, t.c, t.a)
  {
    var f, d, r := Factor(kind, t), Density(kind, t), Residue(kind, t);
    FactorAlongEdges(kind, t, f, d, r);
    NormalIsWedges(t);
    FlatDeterminant(t);
    Weave(t, f, d, r, PairFactor(kind, t.a, t.b), PairFactor(kind, t.b, t.c), PairFactor(kind, t.c, t.a),
      Wedge(t.a, t.b), Wedge(t.b, t.c), Wedge(t.c, t.a));
  }

  lemma Weave(t: Tri, f: real, d: real, r: real, p: real, q: real, s: real, u: real, v: real, w: real)
    requires
      && f == p + Mul(t.c.x, d) + Mul(t.c.y, r) && f == q + Mul(t.a.x, d) + Mul(t.a.y, r)
      && f == s + Mul(t.b.x, d) + Mul(t.b.y, r)
    requires Mul(t.a.y, v) + Mul(t.b.y, w) + Mul(t.c.y, u) == 0.0
    ensures
      Mul(u + v + w, f) == Mul(Mul(t.a.x, v) + Mul(t.b.x, w) + Mul(t.c.x, u), d) + Mul(u, p) + Mul(v, q) + Mul(w, s)
  {
    SumOfProducts(u, v, w, f, u + v + w);
    WeighEdge(u, f, p, t.c.x, d, t.c.y, r);
    WeighEdge(v, f, q, t.a.x, d, t.a.y, r);
    WeighEdge(w, f, s, t.b.x, d, t.b.y, r);
    SumOfProducts(Mul(t.a.x, v), Mul(t.b.x, w), Mul(t.c.x, u), d, Mul(t.a.x, v) + Mul(t.b.x, w) + Mul(t.c.x, u));
    SumOfProducts(Mul(t.a.y, v), Mul(t.b.y, w), Mul(t.c.y, u), r, 0.0);
    MulOfZero(r);
  }
}
