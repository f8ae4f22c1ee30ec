/** How the face terms change when a mesh is moved. */
module MassShift {
  import opened TriangleTest
  import opened MassProps
  import opened MassIdentities
  import opened RealProduct

  lemma MulMultiple(t: real, x: real)
    ensures
      Mul(3.0 * t, x) == 3.0 * Mul(t, x) && Mul(4.0 * t, x) == 4.0 * Mul(t, x) && Mul(5.0 * t, x) == 5.0 * Mul(t, x)
    ensures
      Mul(6.0 * t, x) == 6.0 * Mul(t, x) && Mul(10.0 * t, x) == 10.0 * Mul(t, x) && Mul(20.0 * t, x) == 20.0 * Mul(t, x)
    ensures Mul(30.0 * t, x) == 30.0 * Mul(t, x) && Mul(2.0 * t, x) == 2.0 * Mul(t, x)
  {
  }

  lemma MulOfMultiple(x: real, t: real)
    ensures
      Mul(x, 2.0 * t) == 2.0 * Mul(t, x) && Mul(x, 3.0 * t) == 3.0 * Mul(t, x) && Mul(x, 4.0 * t) == 4.0 * Mul(t, x)
    ensures
      Mul(x, 5.0 * t) == 5.0 * Mul(t, x) && Mul(x, 6.0 * t) == 6.0 * Mul(t, x) && Mul(x, 10.0 * t) == 10.0 * Mul(t, x)
  {
  }

  lemma MulShifted(x: real, t: real, a: real, b: real)
    ensures Mul(x + t, a + b) == Mul(x, a) + Mul(x, b) + Mul(t, a) + Mul(t, b)
  {
    MulSum(a + b, x, t, x + t);
    MulSum(x, a, b, a + b);
    MulSum(t, a, b, a + b);
  }

  // ---------------------------------------------------------------- the polynomials

  lemma ShiftF1(p: real, q: real, r: real, t: real)
    ensures F1(p + t, q + t, r + t) == F1(p, q, r) + 3.0 * t
  {
  }

  lemma ShiftE2(p: real, q: real, t: real)
    ensures E2(p + t, q + t) == E2(p, q) + 3.0 * Mul(t, p + q) + 3.0 * Mul(t, t)
  {
    MulShifted(p, t, p, t);
    MulShifted(q, t, p + q, 2.0 * t);
    assert p + t + (q + t) == p + q + 2.0 * t;
    MulOfMultiple(q, t);
    MulOfMultiple(t, t);
    MulCommutes(p, t);
    MulSum(t, p, q, p + q);
  }

  lemma ShiftF2(p: real, q: real, r: real, t: real, f1: real)
    requires f1 == F1(p, q, r)
    ensures F2(p + t, q + t, r + t) == F2(p, q, r) + 4.0 * Mul(t, f1) + 6.0 * Mul(t, t)
  {
    ShiftE2(p, q, t);
    ShiftF1(p, q, r, t);
    MulShifted(r, t, f1, 3.0 * t);
    MulOfMultiple(r, t);
    MulOfMultiple(t, t);
    MulSum(t, p + q, r, f1);
  }

  lemma Cube(p: real, t: real, pp: real, pt: real, tt: real)
    requires pp == Mul(p, p) && pt == Mul(p, t) && tt == Mul(t, t)
    ensures Mul(p + t, Mul(p + t, p + t)) == Mul(p, pp) + 3.0 * Mul(t, pp) + 3.0 * Mul(tt, p) + Mul(t, tt)
  {
    MulShifted(p, t, p, t);
    MulCommutes(p, t);
    assert Mul(p + t, p + t) == pp + (2.0 * pt + tt);
    MulShifted(p, t, pp, 2.0 * pt + tt);
    MulSum(p, 2.0 * pt, tt, 2.0 * pt + tt);
    MulSum(t, 2.0 * pt, tt, 2.0 * pt + tt);
    MulOfMultiple(p, pt);
    MulOfMultiple(t, pt);
    MulSwap(p, p, t);
    MulCommutes(pp, t);
    MulCommutes(pt, p);
    MulCommutes(pt, t);
    MulSwap(t, p, t);
    MulCommutes(p, tt);
  }

  lemma ShiftE3(p: real, q: real, t: real, e2: real, tt: real)
    requires e2 == E2(p, q) && tt == Mul(t, t)
    ensures E3(p + t, q + t) == E3(p, q) + 4.0 * Mul(t, e2) + 6.0 * Mul(tt, p + q) + 4.0 * Mul(t, tt)
  {
    ShiftE2(p, q, t);
    Cube(p, t, Mul(p, p), Mul(p, t), tt);
    var m, pq := Mul(t, p + q), Mul(q, p + q);
    ShiftE3Product(q, t, e2, m, tt);
    MulSwap(q, t, p + q);
    MulSwap(t, t, p + q);
    MulSum(t, Mul(p, p), pq, e2);
    MulSum(tt, p, q, p + q);
  }

  lemma ShiftE3Product(q: real, t: real, e2: real, m: real, tt: real)
    ensures Mul(q + t, e2 + 3.0 * m + 3.0 * tt)
      == Mul(q, e2) + 3.0 * Mul(q, m) + 3.0 * Mul(tt, q) + Mul(t, e2) + 3.0 * Mul(t, m) + 3.0 * Mul(t, tt)
  {
    var a := 3.0 * m + 3.0 * tt;
    MulShifted(q, t, e2, a);
    MulSum(q, 3.0 * m, 3.0 * tt, a);
    MulSum(t, 3.0 * m, 3.0 * tt, a);
    MulOfMultiple(q, m);
    MulOfMultiple(q, tt);
    MulOfMultiple(t, m);
    MulOfMultiple(t, tt);
    MulCommutes(m, q);
    MulCommutes(m, t);
    MulCommutes(t, tt);
  }

  lemma ShiftF3(p: real, q: real, r: real, t: real, f1: real, f2: real, tt: real)
    requires f1 == F1(p, q, r) && f2 == F2(p, q, r) && tt == Mul(t, t)
    ensures F3(p + t, q + t, r + t) == F3(p, q, r) + 5.0 * Mul(t, f2) + 10.0 * Mul(tt, f1) + 10.0 * Mul(t, tt)
  {
    var e2 := E2(p, q);
    ShiftE3(p, q, t, e2, tt);
    ShiftF2(p, q, r, t, f1);
    ShiftF3Product(r, t, f2, Mul(t, f1), tt);
    MulSum(t, e2, Mul(r, f1), f2);
    MulSwap(r, t, f1);
    MulSwap(t, t, f1);
    MulSum(tt, p + q, r, f1);
  }

  lemma ShiftF3Product(r: real, t: real, f2: real, m: real, tt: real)
    ensures Mul(r + t, f2 + 4.0 * m + 6.0 * tt)
      == Mul(r, f2) + 4.0 * Mul(r, m) + 6.0 * Mul(tt, r) + Mul(t, f2) + 4.0 * Mul(t, m) + 6.0 * Mul(t, tt)
  {
    var a := 4.0 * m + 6.0 * tt;
    MulShifted(r, t, f2, a);
    MulSum(r, 4.0 * m, 6.0 * tt, a);
    MulSum(t, 4.0 * m, 6.0 * tt, a);
    MulOfMultiple(r, m);
    MulOfMultiple(r, tt);
    MulOfMultiple(t, m);
    MulOfMultiple(t, tt);
    MulCommutes(m, r);
    MulCommutes(m, t);
    MulCommutes(t, tt);
  }

  lemma ShiftG(x: real, t: real, f1: real, f2: real, tt: real)
    requires tt == Mul(t, t)
    ensures G(x + t, f1 + 3.0 * t, f2 + 4.0 * Mul(t, f1) + 6.0 * tt) == G(x, f1, f2) + 5.0 * Mul(t, f1 + x) + 10.0 * tt
  {
    assert f1 + 3.0 * t + (x + t) == (f1 + x) + 4.0 * t;
    MulShifted(x, t, f1 + x, 4.0 * t);
    MulOfMultiple(x, t);
    MulOfMultiple(t, t);
    MulSum(t, f1, x, f1 + x);
  }

  lemma ShiftSummand(y: real, s: real, g: real, t: real, h: real, tt: real, g': real, st: real, stt: real)
    requires g' == g + 5.0 * Mul(t, h) + 10.0 * tt && st == Mul(s, t) && stt == Mul(s, tt)
    ensures Mul(y + s, g')
      == Mul(y, g) + 5.0 * Mul(t, Mul(y, h)) + 10.0 * Mul(tt, y) + Mul(s, g) + 5.0 * Mul(st, h) + 10.0 * stt
  {
    var m := Mul(t, h);
    var a := 5.0 * m + 10.0 * tt;
    MulShifted(y, s, g, a);
    MulSum(y, 5.0 * m, 10.0 * tt, a);
    MulSum(s, 5.0 * m, 10.0 * tt, a);
    MulOfMultiple(y, m);
    MulOfMultiple(y, tt);
    MulOfMultiple(s, m);
    MulOfMultiple(s, tt);
    MulCommutes(m, y);
    MulCommutes(m, s);
    MulCommutes(tt, s);
    MulSwap(y, t, h);
    MulSwap(s, t, h);
  }

  /** The three coefficients of a product integral add up to five times the second polynomial. */
  lemma SumOfG(p: real, q: real, r: real, f1: real, f2: real)
    requires f1 == F1(p, q, r) && f2 == F2(p, q, r)
    ensures G(p, f1, f2) + G(q, f1, f2) + G(r, f1, f2) == 5.0 * f2
  {
    MulSum(q, p, q, p + q);
    MulSum(p, f1, p, f1 + p);
    MulSum(q, f1, q, f1 + q);
    MulSum(r, f1, r, f1 + r);
    MulSum3(p, p, q, r, f1);
    MulSum3(q, p, q, r, f1);
    MulSum3(r, p, q, r, f1);
    MulCommutes(p, q);
    MulCommutes(p, r);
    MulCommutes(q, r);
  }

  lemma ShiftMixed(y0: real, y1: real, y2: real, s: real, t: real, x0: real, x1: real, x2: real, f1: real, f2: real,
                   g: Terms, g': Terms, d: real, tt: real, st: real, stt: real)
    requires f1 == F1(x0, x1, x2) && f2 == F2(x0, x1, x2) && d == DensityMixed(x0, x1, x2, y0, y1, y2)
    requires tt == Mul(t, t) && st == Mul(s, t) && stt == Mul(s, tt)
    requires g.g0 == G(x0, f1, f2) && g.g1 == G(x1, f1, f2) && g.g2 == G(x2, f1, f2)
    requires
      && g'.g0 == g.g0 + 5.0 * Mul(t, f1 + x0) + 10.0 * tt && g'.g1 == g.g1 + 5.0 * Mul(t, f1 + x1) + 10.0 * tt
      && g'.g2 == g.g2 + 5.0 * Mul(t, f1 + x2) + 10.0 * tt
    ensures Mixed(y0 + s, y1 + s, y2 + s, g') ==
      Mixed(y0, y1, y2, g) + 5.0 * Mul(t, d) + 10.0 * Mul(tt, F1(y0, y1, y2))
      + 5.0 * Mul(s, f2) + 20.0 * Mul(st, f1) + 30.0 * stt
  {
    ShiftSummand(y0, s, g.g0, t, f1 + x0, tt, g'.g0, st, stt);
    ShiftSummand(y1, s, g.g1, t, f1 + x1, tt, g'.g1, st, stt);
    ShiftSummand(y2, s, g.g2, t, f1 + x2, tt, g'.g2, st, stt);
    DensityAsSum(x0, x1, x2, y0, y1, y2, f1);
    MulSum3(t, Mul(y0, f1 + x0), Mul(y1, f1 + x1), Mul(y2, f1 + x2), d);
    MulSum3(tt, y0, y1, y2, F1(y0, y1, y2));
    SumOfG(x0, x1, x2, f1, f2);
    MulSum3(s, g.g0, g.g1, g.g2, 5.0 * f2);
    MulOfMultiple(s, f2);
    MulCommutes(s, f2);
    MulSum3(st, f1 + x0, f1 + x1, f1 + x2, 4.0 * f1);
    MulOfMultiple(st, f1);
    MulCommutes(st, f1);
  }

  // ---------------------------------------------------------------- the faces

  function Shift(t: Tri, d: Vec): Tri { Tri(Add(t.a, d), Add(t.b, d), Add(t.c, d)) }

  lemma ShiftNormal(t: Tri, d: Vec)
    ensures NormalX(Shift(t, d)) == NormalX(t)
  {
    assert (t.b.y + d.y) - (t.a.y + d.y) == t.b.y - t.a.y && (t.c.z + d.z) - (t.a.z + d.z) == t.c.z - t.a.z;
    assert (t.c.y + d.y) - (t.a.y + d.y) == t.c.y - t.a.y && (t.b.z + d.z) - (t.a.z + d.z) == t.b.z - t.a.z;
  }

  /** The normal weighted by the product density, and by the sum of y. */
  function NormalDensity(t: Tri): real { Mul(NormalX(t), Density(Product, t)) }

  function NormalY1(t: Tri): real { Mul(NormalX(t), F1(t.a.y, t.b.y, t.c.y)) }

  lemma WeighTerm(n: real, c: real, b: real)
    ensures Mul(n, Mul(c, b)) == Mul(c, Mul(n, b)) && Mul(n, c) == Mul(c, n)
  {
    MulSwap(n, c, b);
    MulCommutes(n, c);
  }

  lemma ShiftVolume(t: Tri, d: Vec, c: real)
    requires c == 3.0 * d.x
    ensures Kernel(Volume, Shift(t, d)) == Kernel(Volume, t) + Mul(c, NormalX(t))
  {
    ShiftNormal(t, d);
    var n, f1 := NormalX(t), F1(t.a.x, t.b.x, t.c.x);
    ShiftF1(t.a.x, t.b.x, t.c.x, d.x);
    MulSum(n, f1, c, f1 + c);
    MulCommutes(n, c);
  }

  lemma WeighThree(n: real, f: real, c1: real, b1: real, c2: real, b2: real, c3: real, f': real)
    requires f' == f + Mul(c1, b1) + Mul(c2, b2) + c3
    ensures Mul(n, f') == Mul(n, f) + Mul(c1, Mul(n, b1)) + Mul(c2, Mul(n, b2)) + Mul(c3, n)
  {
    MulSum(n, f + Mul(c1, b1) + Mul(c2, b2), c3, f');
    MulSum3(n, f, Mul(c1, b1), Mul(c2, b2), f + Mul(c1, b1) + Mul(c2, b2));
    WeighTerm(n, c1, b1);
    WeighTerm(n, c2, b2);
    MulCommutes(n, c3);
  }

  lemma ShiftFirst(t: Tri, d: Vec, tt: real, c: real, e: real)
    requires tt == Mul(d.x, d.x) && c == 4.0 * d.x && e == 6.0 * tt
    ensures Kernel(First, Shift(t, d)) == Kernel(First, t) + Mul(c, Kernel(Volume, t)) + Mul(e, NormalX(t))
  {
    ShiftNormal(t, d);
    var n, f1, f2 := NormalX(t), F1(t.a.x, t.b.x, t.c.x), F2(t.a.x, t.b.x, t.c.x);
    ShiftF2(t.a.x, t.b.x, t.c.x, d.x, f1);
    MulMultiple(d.x, f1);
    var f' := f2 + Mul(c, f1) + e;
    MulSum3(n, f2, Mul(c, f1), e, f');
    WeighTerm(n, c, f1);
    MulCommutes(n, e);
  }

  lemma ShiftSecond(t: Tri, d: Vec, tt: real, ttt: real, c: real, c': real, e: real)
    requires tt == Mul(d.x, d.x) && ttt == Mul(d.x, tt) && c == 5.0 * d.x && c' == 10.0 * tt && e == 10.0 * ttt
    ensures Kernel(Second, Shift(t, d))
      == Kernel(Second, t) + Mul(c, Kernel(First, t)) + Mul(c', Kernel(Volume, t)) + Mul(e, NormalX(t))
  {
    ShiftNormal(t, d);
    var n, f1, f2, f3 := NormalX(t), F1(t.a.x, t.b.x, t.c.x), F2(t.a.x, t.b.x, t.c.x), F3(t.a.x, t.b.x, t.c.x);
    ShiftF3(t.a.x, t.b.x, t.c.x, d.x, f1, f2, tt);
    MulMultiple(d.x, f2);
    MulMultiple(tt, f1);
    WeighThree(n, f3, c, f2, c', f1, e, F3(t.a.x + d.x, t.b.x + d.x, t.c.x + d.x));
  }

  lemma ShiftTerms(x0: real, x1: real, x2: real, t: real, tt: real, f1: real, f2: real, g: Terms, g': Terms)
    requires
      && tt == Mul(t, t) && g == SubExpressions(x0, x1, x2) && g' == SubExpressions(x0 + t, x1 + t, x2 + t)
      && f1 == F1(x0, x1, x2) && f2 == F2(x0, x1, x2)
    ensures
      && g'.g0 == g.g0 + 5.0 * Mul(t, f1 + x0) + 10.0 * tt && g'.g1 == g.g1 + 5.0 * Mul(t, f1 + x1) + 10.0 * tt
      && g'.g2 == g.g2 + 5.0 * Mul(t, f1 + x2) + 10.0 * tt
  {
    ShiftF1(x0, x1, x2, t);
    ShiftF2(x0, x1, x2, t, f1);
    ShiftG(x0, t, f1, f2, tt);
    ShiftG(x1, t, f1, f2, tt);
    ShiftG(x2, t, f1, f2, tt);
  }

  lemma ShiftProductFactor(t: Tri, d: Vec, tt: real, st: real, stt: real)
    requires tt == Mul(d.x, d.x) && st == Mul(d.y, d.x) && stt == Mul(d.y, tt)
    ensures Factor(Product, Shift(t, d))
      == Factor(Product, t) + 5.0 * Mul(d.x, Density(Product, t)) + 10.0 * Mul(tt, F1(t.a.y, t.b.y, t.c.y))
      + 5.0 * Mul(d.y, F2(t.a.x, t.b.x, t.c.x)) + 20.0 * Mul(st, F1(t.a.x, t.b.x, t.c.x)) + 30.0 * stt
  {
    var x0, x1, x2 := t.a.x, t.b.x, t.c.x;
    var f1, f2, g, g' :=
      F1(x0, x1, x2), F2(x0, x1, x2), SubExpressions(x0, x1, x2), SubExpressions(x0 + d.x, x1 + d.x, x2 + d.x);
    ShiftTerms(x0, x1, x2, d.x, tt, f1, f2, g, g');
    ShiftMixed(t.a.y, t.b.y, t.c.y, d.y, d.x, x0, x1, x2, f1, f2, g, g', Density(Product, t), tt, st, stt);
  }

  /** The five coefficients of a moved product term. */
  datatype Coefficients = Coefficients(mixed: real, height: real, first: real, volume: real, normal: real)

  predicate ProductCoefficients(d: Vec, tt: real, st: real, stt: real, c: Coefficients) {
    && tt == Mul(d.x, d.x) && st == Mul(d.y, d.x) && stt == Mul(d.y, tt)
    && c.mixed == 5.0 * d.x && c.height == 10.0 * tt && c.first == 5.0 * d.y && c.volume == 20.0 * st
    && c.normal == 30.0 * stt
  }

  lemma ShiftProduct(t: Tri, d: Vec, tt: real, st: real, stt: real, c: Coefficients)
    requires ProductCoefficients(d, tt, st, stt, c)
    ensures
      Kernel(Product, Shift(t, d)) == Kernel(Product, t) + Mul(c.mixed, NormalDensity(t)) + Mul(c.height, NormalY1(t))
      + Mul(c.first, Kernel(First, t)) + Mul(c.volume, Kernel(Volume, t)) + Mul(c.normal, NormalX(t))
  {
    ShiftNormal(t, d);
    ShiftProductFactor(t, d, tt, st, stt);
    var n, f, q, y1, f1, f2 :=
      NormalX(t), Factor(Product, t), Density(Product, t), F1(t.a.y, t.b.y, t.c.y),
      F1(t.a.x, t.b.x, t.c.x), F2(t.a.x, t.b.x, t.c.x);
    MulMultiple(d.x, q);
    MulMultiple(tt, y1);
    MulMultiple(d.y, f2);
    MulMultiple(st, f1);
    var u := f + Mul(c.mixed, q) + Mul(c.height, y1) + 0.0;
    WeighThree(n, f, c.mixed, q, c.height, y1, 0.0, u);
    MulOfZero(n);
    WeighThree(n, u, c.first, f2, c.volume, f1, c.normal, Factor(Product, Shift(t, d)));
  }
}
