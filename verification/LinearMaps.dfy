/** Inner and outer products under a linear map: determinants multiply, and a rigid motion has
    determinant one or minus one. */
module LinearMaps {
  import opened RealProduct
  import opened TriangleTest
  import opened Matrix
  import opened Rotations

  // ---------------------------------------------------------------- linearity

  lemma SpinSum(m: Mat4, p: Vec, q: Vec)
    ensures Spin(m, Add(p, q)) == Add(Spin(m, p), Spin(m, q))
  {
    var s := Add(p, q);
    forall i: nat | i < 11 ensures Mul(m[i], s.x) == Mul(m[i], p.x) + Mul(m[i], q.x) { MulSum(m[i], p.x, q.x, s.x); }
    forall i: nat | i < 11 ensures Mul(m[i], s.y) == Mul(m[i], p.y) + Mul(m[i], q.y) { MulSum(m[i], p.y, q.y, s.y); }
    forall i: nat | i < 11 ensures Mul(m[i], s.z) == Mul(m[i], p.z) + Mul(m[i], q.z) { MulSum(m[i], p.z, q.z, s.z); }
  }

  lemma NormOfSum(u: Vec, w: Vec)
    ensures Norm2(Add(u, w)) == Norm2(u) + 2.0 * Inner(u, w) + Norm2(w)
  {
    SquareOfSum(u.x, w.x, u.x + w.x);
    SquareOfSum(u.y, w.y, u.y + w.y);
    SquareOfSum(u.z, w.z, u.z + w.z);
  }

  /** What keeps norms keeps inner products. */
  lemma KeepsInner(m: Mat4, u: Vec, w: Vec)
    requires KeepsNorm(m)
    ensures Inner(Spin(m, u), Spin(m, w)) == Inner(u, w)
  {
    NormOfSum(u, w);
    NormOfSum(Spin(m, u), Spin(m, w));
    SpinSum(m, u, w);
    assert Norm2(Spin(m, u)) == Norm2(u) && Norm2(Spin(m, w)) == Norm2(w);
    assert Norm2(Spin(m, Add(u, w))) == Norm2(Add(u, w));
  }

  // ---------------------------------------------------------------- products of products

  /** A product of inner products, term by term. */
  function Cross9(p: Vec, q: Vec, y: Vec, z: Vec): real {
    Mul(Mul(p.x, q.x), Mul(y.x, z.x)) + Mul(Mul(p.x, q.y), Mul(y.x, z.y)) + Mul(Mul(p.x, q.z), Mul(y.x, z.z))
    + (Mul(Mul(p.y, q.x), Mul(y.y, z.x)) + Mul(Mul(p.y, q.y), Mul(y.y, z.y)) + Mul(Mul(p.y, q.z), Mul(y.y, z.z)))
    + (Mul(Mul(p.z, q.x), Mul(y.z, z.x)) + Mul(Mul(p.z, q.y), Mul(y.z, z.y)) + Mul(Mul(p.z, q.z), Mul(y.z, z.z)))
  }

  lemma TimesInner(a: real, b: real, q: Vec, z: Vec)
    ensures Mul(Mul(a, b), Inner(q, z))
      == Mul(Mul(a, q.x), Mul(b, z.x)) + Mul(Mul(a, q.y), Mul(b, z.y)) + Mul(Mul(a, q.z), Mul(b, z.z))
  {
    MulSum3(Mul(a, b), Mul(q.x, z.x), Mul(q.y, z.y), Mul(q.z, z.z), Inner(q, z));
    MulPairs(a, b, q.x, z.x);
    MulPairs(a, b, q.y, z.y);
    MulPairs(a, b, q.z, z.z);
  }

  lemma ProductOfInners(p: Vec, q: Vec, y: Vec, z: Vec)
    ensures Mul(Inner(p, y), Inner(q, z)) == Cross9(p, q, y, z)
  {
    var r := Inner(q, z);
    MulCommutes(Inner(p, y), r);
    MulSum3(r, Mul(p.x, y.x), Mul(p.y, y.y), Mul(p.z, y.z), Inner(p, y));
    MulCommutes(r, Mul(p.x, y.x));
    MulCommutes(r, Mul(p.y, y.y));
    MulCommutes(r, Mul(p.z, y.z));
    TimesInner(p.x, y.x, q, z);
    TimesInner(p.y, y.y, q, z);
    TimesInner(p.z, y.z, q, z);
  }

  lemma ProductOfDifferences(a: real, b: real, c: real, d: real, e: real, f: real)
    requires e == a - b && f == c - d
    ensures Mul(e, f) == Mul(a, c) - Mul(a, d) - Mul(b, c) + Mul(b, d)
  {
    MulDifference(f, a, b, e);
    MulDifference(a, c, d, f);
    MulDifference(b, c, d, f);
  }

  /** Two products of inner products against the outer products. */
  lemma BinetCauchy(p: Vec, q: Vec, y: Vec, z: Vec)
    ensures Mul(Inner(p, y), Inner(q, z)) - Mul(Inner(p, z), Inner(q, y)) == Inner(Outer(p, q), Outer(y, z))
  {
    var e, f := Outer(p, q), Outer(y, z);
    ProductOfInners(p, q, y, z);
    ProductOfInners(p, q, z, y);
    ProductOfDifferences(Mul(p.y, q.z), Mul(p.z, q.y), Mul(y.y, z.z), Mul(y.z, z.y), e.x, f.x);
    ProductOfDifferences(Mul(p.z, q.x), Mul(p.x, q.z), Mul(y.z, z.x), Mul(y.x, z.z), e.y, f.y);
    ProductOfDifferences(Mul(p.x, q.y), Mul(p.y, q.x), Mul(y.x, z.y), Mul(y.y, z.x), e.z, f.z);
    CommuteAll(y, z);
  }

  lemma CommuteAll(y: Vec, z: Vec)
    ensures Mul(y.x, z.x) == Mul(z.x, y.x) && Mul(y.x, z.y) == Mul(z.y, y.x) && Mul(y.x, z.z) == Mul(z.z, y.x)
    ensures Mul(y.y, z.x) == Mul(z.x, y.y) && Mul(y.y, z.y) == Mul(z.y, y.y) && Mul(y.y, z.z) == Mul(z.z, y.y)
    ensures Mul(y.z, z.x) == Mul(z.x, y.z) && Mul(y.z, z.y) == Mul(z.y, y.z) && Mul(y.z, z.z) == Mul(z.z, y.z)
  {
    MulCommutes(y.x, z.x);
    MulCommutes(y.x, z.y);
    MulCommutes(y.x, z.z);
    MulCommutes(y.y, z.x);
    MulCommutes(y.y, z.y);
    MulCommutes(y.y, z.z);
    MulCommutes(y.z, z.x);
    MulCommutes(y.z, z.y);
    MulCommutes(y.z, z.z);
  }

  // ---------------------------------------------------------------- determinants

  function Triple3(a: Vec, b: Vec, c: Vec): real { Inner(a, Outer(b, c)) }

  lemma TripleTerms(a: Vec, b: Vec, c: Vec)
    ensures Triple3(a, b, c)
      == Mul(a.x, Mul(b.y, c.z)) - Mul(a.x, Mul(b.z, c.y)) + Mul(a.y, Mul(b.z, c.x)) - Mul(a.y, Mul(b.x, c.z))
      + Mul(a.z, Mul(b.x, c.y)) - Mul(a.z, Mul(b.y, c.x))
  {
    var w := Outer(b, c);
    MulDifference(a.x, Mul(b.y, c.z), Mul(b.z, c.y), w.x);
    MulDifference(a.y, Mul(b.z, c.x), Mul(b.x, c.z), w.y);
    MulDifference(a.z, Mul(b.x, c.y), Mul(b.y, c.x), w.z);
  }

  lemma Rotate3(a: real, b: real, c: real)
    ensures Mul(a, Mul(b, c)) == Mul(b, Mul(c, a)) == Mul(c, Mul(a, b))
  {
    MulSwap(a, b, c);
    MulCommutes(c, a);
    MulSwap(b, c, a);
    MulCommutes(a, b);
  }

  lemma TripleCycles(a: Vec, b: Vec, c: Vec)
    ensures Triple3(a, b, c) == Triple3(b, c, a)
  {
    TripleTerms(a, b, c);
    TripleTerms(b, c, a);
    Rotate3(a.x, b.y, c.z);
    Rotate3(a.x, b.z, c.y);
    Rotate3(a.y, b.z, c.x);
    Rotate3(a.y, b.x, c.z);
    Rotate3(a.z, b.x, c.y);
    Rotate3(a.z, b.y, c.x);
  }

  function ColumnX(m: Mat4): Vec { Vec(m[0], m[1], m[2]) }

  function ColumnY(m: Mat4): Vec { Vec(m[4], m[5], m[6]) }

  function ColumnZ(m: Mat4): Vec { Vec(m[8], m[9], m[10]) }

  /** The determinant of the turning part of a matrix. */
  function Determinant(m: Mat4): real { Triple3(ColumnX(m), ColumnY(m), ColumnZ(m)) }

  lemma SpinIsCombined(m: Mat4, v: Vec)
    ensures Spin(m, v) == Combined(v.x, ColumnX(m), v.y, ColumnY(m), v.z, ColumnZ(m))
  {
    CommuteAll(v, Vec(m[0], m[1], m[2]));
    CommuteAll(v, Vec(m[4], m[5], m[6]));
    CommuteAll(v, Vec(m[8], m[9], m[10]));
  }

  lemma InnerOfCombined(p: Vec, a: Vec, b: Vec, c: Vec, v: Vec)
    ensures Inner(Combined(p.x, a, p.y, b, p.z, c), v)
      == Mul(p.x, Inner(a, v)) + Mul(p.y, Inner(b, v)) + Mul(p.z, Inner(c, v))
  {
    CombinedTimes(p, a.x, b.x, c.x, v.x);
    CombinedTimes(p, a.y, b.y, c.y, v.y);
    CombinedTimes(p, a.z, b.z, c.z, v.z);
    MulSum3(p.x, Mul(a.x, v.x), Mul(a.y, v.y), Mul(a.z, v.z), Inner(a, v));
    MulSum3(p.y, Mul(b.x, v.x), Mul(b.y, v.y), Mul(b.z, v.z), Inner(b, v));
    MulSum3(p.z, Mul(c.x, v.x), Mul(c.y, v.y), Mul(c.z, v.z), Inner(c, v));
  }

  lemma CombinedTimes(p: Vec, a: real, b: real, c: real, v: real)
    ensures
      Mul(Mul(p.x, a) + Mul(p.y, b) + Mul(p.z, c), v) == Mul(p.x, Mul(a, v)) + Mul(p.y, Mul(b, v)) + Mul(p.z, Mul(c, v))
  {
    var s := Mul(p.x, a) + Mul(p.y, b) + Mul(p.z, c);
    MulSum(v, Mul(p.x, a) + Mul(p.y, b), Mul(p.z, c), s);
    MulSum(v, Mul(p.x, a), Mul(p.y, b), Mul(p.x, a) + Mul(p.y, b));
    MulSwap(p.x, a, v);
    MulSwap(p.y, b, v);
    MulSwap(p.z, c, v);
  }

  /** The outer product of two images: the same combination of outer products of the columns. */
  lemma OuterOfImages(m: Mat4, b: Vec, c: Vec, w: Vec)
    requires w == Outer(b, c)
    ensures Outer(Spin(m, b), Spin(m, c))
      == Combined(w.x, Outer(ColumnY(m), ColumnZ(m)), w.y, Outer(ColumnZ(m), ColumnX(m)), w.z,
        Outer(ColumnX(m), ColumnY(m)))
  {
    var rx, ry, rz := Vec(m[0], m[4], m[8]), Vec(m[1], m[5], m[9]), Vec(m[2], m[6], m[10]);
    RowsOfSpin(m, b, rx, ry, rz);
    RowsOfSpin(m, c, rx, ry, rz);
    BinetCauchy(b, c, ry, rz);
    BinetCauchy(b, c, rz, rx);
    BinetCauchy(b, c, rx, ry);
    CommuteAll(ry, rz);
    CommuteAll(rz, rx);
    CommuteAll(rx, ry);
  }

  lemma RowsOfSpin(m: Mat4, v: Vec, rx: Vec, ry: Vec, rz: Vec)
    requires rx == Vec(m[0], m[4], m[8]) && ry == Vec(m[1], m[5], m[9]) && rz == Vec(m[2], m[6], m[10])
    ensures Spin(m, v) == Vec(Inner(v, rx), Inner(v, ry), Inner(v, rz))
  {
    InnerCommutes(v, rx);
    InnerCommutes(v, ry);
    InnerCommutes(v, rz);
  }

  /** The triple product of three images is the determinant times the triple product. */
  lemma TripleOfImages(m: Mat4, a: Vec, b: Vec, c: Vec)
    ensures Triple3(Spin(m, a), Spin(m, b), Spin(m, c)) == Mul(Determinant(m), Triple3(a, b, c))
  {
    var x, y, z, w, d := ColumnX(m), ColumnY(m), ColumnZ(m), Outer(b, c), Determinant(m);
    var g := Combined(w.x, Outer(y, z), w.y, Outer(z, x), w.z, Outer(x, y));
    OuterOfImages(m, b, c, w);
    SpinIsCombined(m, a);
    InnerOfCombined(a, x, y, z, g);
    ColumnsAgainst(x, y, z, w, d);
    MulSum3(d, Mul(a.x, w.x), Mul(a.y, w.y), Mul(a.z, w.z), Inner(a, w));
    MulSwap(a.x, w.x, d);
    MulSwap(a.y, w.y, d);
    MulSwap(a.z, w.z, d);
    MulCommutes(d, Mul(a.x, w.x));
    MulCommutes(d, Mul(a.y, w.y));
    MulCommutes(d, Mul(a.z, w.z));
  }

  /** Each column meets only its own outer product. */
  lemma ColumnsAgainst(x: Vec, y: Vec, z: Vec, w: Vec, d: real)
    requires d == Triple3(x, y, z)
    ensures var g := Combined(w.x, Outer(y, z), w.y, Outer(z, x), w.z, Outer(x, y));
      Inner(x, g) == Mul(w.x, d) && Inner(y, g) == Mul(w.y, d) && Inner(z, g) == Mul(w.z, d)
  {
    var g := Combined(w.x, Outer(y, z), w.y, Outer(z, x), w.z, Outer(x, y));
    TripleCycles(x, y, z);
    TripleCycles(y, z, x);
    OuterIsOrthogonal(y, z, Outer(y, z));
    OuterIsOrthogonal(z, x, Outer(z, x));
    OuterIsOrthogonal(x, y, Outer(x, y));
    AgainstCombined(x, w, y, z, x);
    AgainstCombined(y, w, y, z, x);
    AgainstCombined(z, w, y, z, x);
    MulOfZero(w.x);
    MulOfZero(w.y);
    MulOfZero(w.z);
  }

  lemma AgainstCombined(v: Vec, w: Vec, y: Vec, z: Vec, x: Vec)
    ensures Inner(v, Combined(w.x, Outer(y, z), w.y, Outer(z, x), w.z, Outer(x, y)))
      == Mul(w.x, Inner(v, Outer(y, z))) + Mul(w.y, Inner(v, Outer(z, x))) + Mul(w.z, Inner(v, Outer(x, y)))
  {
    InnerOfCombined(w, Outer(y, z), Outer(z, x), Outer(x, y), v);
    InnerCommutes(v, Combined(w.x, Outer(y, z), w.y, Outer(z, x), w.z, Outer(x, y)));
    InnerCommutes(v, Outer(y, z));
    InnerCommutes(v, Outer(z, x));
    InnerCommutes(v, Outer(x, y));
  }

  // ---------------------------------------------------------------- rigid motions

  /** One coordinate of a double outer product; the others turn the axes. */
  lemma DoubleOuterX(a: Vec, b: Vec, c: Vec, w: Vec)
    requires w == Outer(b, c)
    ensures Outer(a, w).x == Mul(Inner(a, c), b.x) - Mul(Inner(a, b), c.x)
  {
    MulDifference(a.y, Mul(b.x, c.y), Mul(b.y, c.x), w.z);
    MulDifference(a.z, Mul(b.z, c.x), Mul(b.x, c.z), w.y);
    InnerTimes(a, c, b.x);
    InnerTimes(a, b, c.x);
    Exchange3(a.x, c.x, b.x);
    Exchange3(a.y, c.y, b.x);
    Exchange3(a.z, c.z, b.x);
  }

  lemma Exchange3(a: real, c: real, b: real)
    ensures Mul(a, Mul(c, b)) == Mul(a, Mul(b, c))
  {
    MulCommutes(b, c);
  }

  lemma InnerTimes(a: Vec, c: Vec, s: real)
    ensures Mul(Inner(a, c), s) == Mul(a.x, Mul(c.x, s)) + Mul(a.y, Mul(c.y, s)) + Mul(a.z, Mul(c.z, s))
  {
    CombinedTimes(a, c.x, c.y, c.z, s);
  }

  lemma DoubleOuter(a: Vec, b: Vec, c: Vec, w: Vec)
    requires w == Outer(b, c)
    ensures Outer(a, w) == Vec(Mul(Inner(a, c), b.x) - Mul(Inner(a, b), c.x),
                               Mul(Inner(a, c), b.y) - Mul(Inner(a, b), c.y),
                               Mul(Inner(a, c), b.z) - Mul(Inner(a, b), c.z))
  {
    DoubleOuterX(a, b, c, w);
    DoubleOuterX(Turn(a), Turn(b), Turn(c), Turn(w));
    DoubleOuterX(Turn(Turn(a)), Turn(Turn(b)), Turn(Turn(c)), Turn(Turn(w)));
  }

  /** The three unit vectors along the axes. */
  predicate Units(x: Vec, y: Vec, z: Vec) {
    && x.x == 1.0 && x.y == 0.0 && x.z == 0.0
    && y.x == 0.0 && y.y == 1.0 && y.z == 0.0
    && z.x == 0.0 && z.y == 0.0 && z.z == 1.0
  }

  lemma UnitVectors() returns (x: Vec, y: Vec, z: Vec)
    ensures Units(x, y, z)
  {
    x, y, z := Vec(1.0, 0.0, 0.0), Vec(0.0, 1.0, 0.0), Vec(0.0, 0.0, 1.0);
  }

  lemma AlongUnits(k: Vec, x: Vec, y: Vec, z: Vec)
    requires Units(x, y, z)
    ensures Inner(k, x) == k.x && Inner(k, y) == k.y && Inner(k, z) == k.z
  {
    MulOfOne(k.x);
    MulOfOne(k.y);
    MulOfOne(k.z);
    MulOfZero(k.x);
    MulOfZero(k.y);
    MulOfZero(k.z);
  }

  lemma ColumnsAreImages(m: Mat4, x: Vec, y: Vec, z: Vec)
    requires Units(x, y, z)
    ensures Spin(m, x) == ColumnX(m) && Spin(m, y) == ColumnY(m) && Spin(m, z) == ColumnZ(m)
  {
    forall i: nat | i < 11 ensures Mul(m[i], 1.0) == m[i] && Mul(m[i], 0.0) == 0.0 {
      MulOfOne(m[i]);
      MulOfZero(m[i]);
    }
  }

  predicate Orthonormal(x: Vec, y: Vec, z: Vec) {
    && Norm2(x) == 1.0 && Norm2(y) == 1.0 && Norm2(z) == 1.0
    && Inner(x, y) == 0.0 && Inner(y, z) == 0.0 && Inner(x, z) == 0.0
  }

  lemma UnitsAreOrthonormal(x: Vec, y: Vec, z: Vec)
    requires Units(x, y, z)
    ensures Orthonormal(x, y, z)
  {
    AlongUnits(x, x, y, z);
    AlongUnits(y, x, y, z);
    AlongUnits(z, x, y, z);
    NormIsInner(x);
    NormIsInner(y);
    NormIsInner(z);
  }

  lemma NormIsInner(v: Vec)
    ensures Norm2(v) == Inner(v, v)
  {
  }

  lemma ColumnsAreOrthonormal(m: Mat4)
    requires KeepsNorm(m)
    ensures Orthonormal(ColumnX(m), ColumnY(m), ColumnZ(m))
  {
    var x, y, z := UnitVectors();
    ColumnsAreImages(m, x, y, z);
    UnitsAreOrthonormal(x, y, z);
    KeepsInner(m, x, y);
    KeepsInner(m, y, z);
    KeepsInner(m, x, z);
    assert Norm2(Spin(m, x)) == Norm2(x) && Norm2(Spin(m, y)) == Norm2(y) && Norm2(Spin(m, z)) == Norm2(z);
  }

  /** Three orthonormal vectors span a cube of volume one. */
  lemma OrthonormalTriple(x: Vec, y: Vec, z: Vec)
    requires Orthonormal(x, y, z)
    ensures Square(Triple3(x, y, z)) == 1.0
  {
    var w := Outer(y, z);
    Lagrange(y, z, w);
    DoubleOuter(x, y, z, w);
    ZeroTimes(y);
    ZeroTimes(z);
    Lagrange(x, w, Outer(x, w));
    MulOfZero(0.0);
    MulOfOne(1.0);
  }

  lemma ZeroTimes(v: Vec)
    ensures Mul(0.0, v.x) == 0.0 && Mul(0.0, v.y) == 0.0 && Mul(0.0, v.z) == 0.0
  {
  }

  /** A rigid motion has determinant one or minus one. */
  lemma DeterminantIsUnit(m: Mat4)
    requires KeepsNorm(m)
    ensures Determinant(m) == 1.0 || Determinant(m) == -1.0
  {
    ColumnsAreOrthonormal(m);
    OrthonormalTriple(ColumnX(m), ColumnY(m), ColumnZ(m));
    UnitSquare(Determinant(m));
  }

  lemma UnitSquare(d: real)
    requires Square(d) == 1.0
    ensures d == 1.0 || d == -1.0
  {
    var p, q := d - 1.0, d + 1.0;
    assert p * q == d * d - 1.0;
  }

  lemma ColumnsOfTimes(a: Mat4, b: Mat4)
    requires Affine(b)
    ensures var m := Times(a, b);
      ColumnX(m) == Spin(a, ColumnX(b)) && ColumnY(m) == Spin(a, ColumnY(b)) && ColumnZ(m) == Spin(a, ColumnZ(b))
  {
    var x, y, z := UnitVectors();
    ColumnsAreImages(Times(a, b), x, y, z);
    ColumnsAreImages(b, x, y, z);
    SpinTimes(a, b, x);
    SpinTimes(a, b, y);
    SpinTimes(a, b, z);
  }

  /** Determinants multiply. */
  lemma DeterminantOfTimes(a: Mat4, b: Mat4)
    requires Affine(b)
    ensures Determinant(Times(a, b)) == Mul(Determinant(a), Determinant(b))
  {
    ColumnsOfTimes(a, b);
    TripleOfImages(a, ColumnX(b), ColumnY(b), ColumnZ(b));
  }

  // ---------------------------------------------------------------- the skeleton's motions

  /** Two vectors turned in their plane span the same area. */
  lemma TurnedOuter(s: real, c: real, b: Vec, g: Vec, p: Vec, q: Vec)
    requires Square(s) + Square(c) == 1.0
    requires p == Vec(Mul(c, b.x) + Mul(s, g.x), Mul(c, b.y) + Mul(s, g.y), Mul(c, b.z) + Mul(s, g.z))
    requires q == Vec(Mul(c, g.x) - Mul(s, b.x), Mul(c, g.y) - Mul(s, b.y), Mul(c, g.z) - Mul(s, b.z))
    ensures Outer(p, q) == Outer(b, g)
  {
    TurnedMinor(s, c, b.y, b.z, g.y, g.z);
    TurnedMinor(s, c, b.z, b.x, g.z, g.x);
    TurnedMinor(s, c, b.x, b.y, g.x, g.y);
  }

  lemma TurnedMinor(s: real, c: real, b: real, b': real, g: real, g': real)
    requires Square(s) + Square(c) == 1.0
    ensures Mul(Mul(c, b) + Mul(s, g), Mul(c, g') - Mul(s, b')) - Mul(Mul(c, b') + Mul(s, g'), Mul(c, g) - Mul(s, b))
      == Mul(b, g') - Mul(b', g)
  {
    TurnedProduct(s, c, b, g, g', b');
    TurnedProduct(s, c, b', g', g, b);
    MulCommutes(g, b');
    MulCommutes(g', b);
    MulCommutes(g, g');
    MulCommutes(b, b');
    var e := Mul(b, g') - Mul(b', g);
    MulDifference(Square(c), Mul(b, g'), Mul(b', g), e);
    MulDifference(Square(s), Mul(b, g'), Mul(b', g), e);
    MulSum(e, Square(s), Square(c), 1.0);
    MulOfOne(e);
  }

  lemma TurnedProduct(s: real, c: real, b: real, g: real, u: real, v: real)
    ensures Mul(Mul(c, b) + Mul(s, g), Mul(c, u) - Mul(s, v))
      == Mul(Square(c), Mul(b, u)) - Mul(Mul(c, s), Mul(b, v)) + Mul(Mul(c, s), Mul(g, u)) - Mul(Square(s), Mul(g, v))
  {
    var f := Mul(c, u) - Mul(s, v);
    MulSum(f, Mul(c, b), Mul(s, g), Mul(c, b) + Mul(s, g));
    MulDifference(Mul(c, b), Mul(c, u), Mul(s, v), f);
    MulDifference(Mul(s, g), Mul(c, u), Mul(s, v), f);
    MulPairs(c, b, c, u);
    MulPairs(c, b, s, v);
    MulPairs(s, g, c, u);
    MulPairs(s, g, s, v);
    MulCommutes(s, c);
  }

  /** A unit axis, a vector across it and the outer product of the two. */
  predicate Across(k: Vec, b: Vec, g: Vec) { Norm2(k) == 1.0 && Inner(k, b) == 0.0 && g == Outer(k, b) }

  lemma RodriguesAcross(k: Vec, b: Vec, g: Vec, s: real, c: real, t: real)
    requires Across(k, b, g) && t == 1.0 - c
    ensures var m := Rodrigues(k, s, c, t);
      && Spin(m, k) == k
      && Spin(m, b) == Vec(Mul(c, b.x) + Mul(s, g.x), Mul(c, b.y) + Mul(s, g.y), Mul(c, b.z) + Mul(s, g.z))
      && Spin(m, g) == Vec(Mul(c, g.x) - Mul(s, b.x), Mul(c, g.y) - Mul(s, b.y), Mul(c, g.z) - Mul(s, b.z))
  {
    RodriguesSpin(k, s, c, t, k);
    RodriguesSpin(k, s, c, t, b);
    RodriguesSpin(k, s, c, t, g);
    OuterIsOrthogonal(k, b, g);
    DoubleOuter(k, k, b, g);
    AxisImage(k, c, t, s);
    MulOfZero(t);
    ZeroTimes(k);
    OneTimes(b);
    NegatedTimes(s, b);
  }

  lemma AxisImage(k: Vec, c: real, t: real, s: real)
    requires Norm2(k) == 1.0 && t == 1.0 - c
    ensures Combined(c, k, Mul(t, Inner(k, k)), k, s, Outer(k, k)) == k
  {
    MulOfOne(t);
    CommuteAll(k, k);
    MulOfZero(s);
    MulSum(k.x, c, t, 1.0);
    MulSum(k.y, c, t, 1.0);
    MulSum(k.z, c, t, 1.0);
    OneTimes(k);
  }

  lemma OneTimes(v: Vec)
    ensures Mul(1.0, v.x) == v.x && Mul(1.0, v.y) == v.y && Mul(1.0, v.z) == v.z
  {
  }

  lemma NegatedTimes(s: real, b: Vec)
    ensures Mul(s, -b.x) == -Mul(s, b.x) && Mul(s, -b.y) == -Mul(s, b.y) && Mul(s, -b.z) == -Mul(s, b.z)
  {
    MulNegated(b.x, s, -b.x);
    MulNegated(b.y, s, -b.y);
    MulNegated(b.z, s, -b.z);
  }

  lemma UnitsFor(k: Vec) returns (x: Vec, y: Vec)
    ensures Norm2(x) == 1.0 && Norm2(y) == 1.0 && Inner(k, x) == k.x && Inner(k, y) == k.y
  {
    var z;
    x, y, z := UnitVectors();
    AlongUnits(k, x, y, z);
    UnitsAreOrthonormal(x, y, z);
  }

  lemma SomeUnitAcross(k: Vec) returns (e: Vec)
    requires Norm2(k) == 1.0
    ensures Norm2(e) == 1.0 && Square(Inner(k, e)) < 1.0
  {
    var x, y := UnitsFor(k);
    SquareSign(k.x);
    SquareSign(k.y);
    SquareSign(k.z);
    e := if Square(k.x) < 1.0 then x else y;
  }

  /** Some vector across a unit axis is not zero. */
  lemma AcrossExists(k: Vec) returns (b: Vec, g: Vec)
    requires Norm2(k) == 1.0
    ensures Across(k, b, g) && Norm2(b) > 0.0
  {
    var e := SomeUnitAcross(k);
    b := AcrossFrom(k, e);
    g := Outer(k, b);
  }

  lemma AcrossFrom(k: Vec, e: Vec) returns (b: Vec)
    requires Norm2(k) == 1.0 && Norm2(e) == 1.0 && Square(Inner(k, e)) < 1.0
    ensures Inner(k, b) == 0.0 && Norm2(b) > 0.0
  {
    b := Outer(k, e);
    OuterIsOrthogonal(k, e, b);
    Lagrange(k, e, b);
    MulOfOne(1.0);
  }

  /** The turn about a unit axis has determinant one. */
  lemma RodriguesDeterminant(k: Vec, s: real, c: real, t: real)
    requires Norm2(k) == 1.0 && Square(s) + Square(c) == 1.0 && t == 1.0 - c
    ensures Determinant(Rodrigues(k, s, c, t)) == 1.0
  {
    var m := Rodrigues(k, s, c, t);
    var b, g := AcrossExists(k);
    RodriguesAcross(k, b, g, s, c, t);
    TurnedOuter(s, c, b, g, Spin(m, b), Spin(m, g));
    TripleOfImages(m, k, b, g);
    TripleCycles(g, k, b);
    Lagrange(k, b, g);
    MulOfZero(0.0);
    MulOfOne(Norm2(b));
    CancelFactor(Determinant(m), Triple3(k, b, g));
  }

  lemma CancelFactor(d: real, n: real)
    requires n > 0.0 && n == Mul(d, n)
    ensures d == 1.0
  {
    MulDifference(n, d, 1.0, d - 1.0);
    MulOfOne(n);
    var e := d - 1.0;
    assert e * n == 0.0;
  }

  lemma TripleOfTurn(s: real, c: real, x: Vec, y: Vec, z: Vec)
    requires Square(s) + Square(c) == 1.0 && x.x == 1.0 && x.y == 0.0 && x.z == 0.0
    requires y.y == c && y.z == s && z.y == -s && z.z == c
    ensures Triple3(x, y, z) == 1.0
  {
    var w := Outer(y, z);
    MulNegated(s, s, -s);
    MulOfOne(w.x);
    ZeroTimes(w);
  }

  lemma DeterminantX(m: Mat4, s: real, c: real)
    requires Square(s) + Square(c) == 1.0 && m == RotX(s, c)
    ensures Determinant(m) == 1.0
  {
    TripleOfTurn(s, c, ColumnX(m), ColumnY(m), ColumnZ(m));
  }

  lemma DeterminantY(m: Mat4, s: real, c: real)
    requires Square(s) + Square(c) == 1.0 && m == RotY(s, c)
    ensures Determinant(m) == 1.0
  {
    var x, y, z := ColumnX(m), ColumnY(m), ColumnZ(m);
    TripleOfTurn(s, c, Turn(y), Turn(z), Turn(x));
    TurnedTriple(y, z, x);
    TripleCycles(x, y, z);
  }

  lemma DeterminantZ(m: Mat4, s: real, c: real)
    requires Square(s) + Square(c) == 1.0 && m == RotZ(s, c)
    ensures Determinant(m) == 1.0
  {
    var x, y, z := ColumnX(m), ColumnY(m), ColumnZ(m);
    TripleOfTurn(s, c, Turn(Turn(z)), Turn(Turn(x)), Turn(Turn(y)));
    TurnedTriple(z, x, y);
    TurnedTriple(Turn(z), Turn(x), Turn(y));
    TripleCycles(z, x, y);
  }

  lemma TurnedTriple(a: Vec, b: Vec, c: Vec)
    ensures Triple3(Turn(a), Turn(b), Turn(c)) == Triple3(a, b, c)
  {
  }

  lemma DeterminantOfUnits(m: Mat4, p: Vec)
    requires m == Identity() || m == Translation(p)
    ensures Determinant(m) == 1.0
  {
    UnitTriple(ColumnX(m), ColumnY(m), ColumnZ(m));
  }

  lemma UnitTriple(x: Vec, y: Vec, z: Vec)
    requires Units(x, y, z)
    ensures Triple3(x, y, z) == 1.0
  {
    MulOfZero(0.0);
    MulOfOne(1.0);
    TripleOfTurn(0.0, 1.0, x, y, z);
  }
}
