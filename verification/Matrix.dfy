/** Column-major 4 x 4 matrices: products, points and directions, rigid motions. */
module Matrix {
  import opened RealProduct
  import opened TriangleTest

  /** Column c holds the entries 4 * c to 4 * c + 3. */
  type Mat4 = m: seq<real> | |m| == 16 witness seq(16, i => 0.0)

  datatype Four = Four(x: real, y: real, z: real, w: real)

  function Column(m: Mat4, c: nat): Four
    requires c < 4
  {
    Four(m[4 * c], m[4 * c + 1], m[4 * c + 2], m[4 * c + 3])
  }

  function Row(m: Mat4, r: nat): Four
    requires r < 4
  {
    Four(m[r], m[4 + r], m[8 + r], m[12 + r])
  }

  function Dot4(a: Four, b: Four): real { Mul(a.x, b.x) + Mul(a.y, b.y) + Mul(a.z, b.z) + Mul(a.w, b.w) }

  function Times(a: Mat4, b: Mat4): Mat4 { seq(16, i requires 0 <= i < 16 => Dot4(Row(a, i % 4), Column(b, i / 4))) }

  function Identity(): Mat4 {
    [1.0, 0.0, 0.0, 0.0,
     0.0, 1.0, 0.0, 0.0,
     0.0, 0.0, 1.0, 0.0,
     0.0, 0.0, 0.0, 1.0]
  }

  // ---------------------------------------------------------------- the triple loop

  /** The sum over the first k terms of one entry of the product. */
  function Partial(a: Mat4, b: Mat4, r: nat, c: nat, k: nat): real
    requires r < 4 && c < 4 && k <= 4
  {
    if k == 0 then 0.0 else Partial(a, b, r, c, k - 1) + Mul(a[(k - 1) * 4 + r], b[c * 4 + k - 1])
  }

  lemma PartialIsDot(a: Mat4, b: Mat4, r: nat, c: nat)
    requires r < 4 && c < 4
    ensures Partial(a, b, r, c, 4) == Dot4(Row(a, r), Column(b, c))
  {
    assert Partial(a, b, r, c, 1) == Mul(a[r], b[c * 4]);
    assert Partial(a, b, r, c, 2) == Partial(a, b, r, c, 1) + Mul(a[4 + r], b[c * 4 + 1]);
    assert Partial(a, b, r, c, 3) == Partial(a, b, r, c, 2) + Mul(a[8 + r], b[c * 4 + 2]);
  }

  /** The triple loop computes the rows of one matrix against the columns of the other. */
  method Multiply(a: Mat4, b: Mat4) returns (o: Mat4)
    ensures o == Times(a, b)
  {
    var out := new real[16];
    for c := 0 to 4
      invariant forall i :: 0 <= i < 4 * c ==> out[i] == Times(a, b)[i]
    {
      for r := 0 to 4
        invariant forall i :: 0 <= i < 4 * c + r ==> out[i] == Times(a, b)[i]
      {
        var s := 0.0;
        for k := 0 to 4
          invariant s == Partial(a, b, r, c, k)
        {
          s := s + Mul(a[k * 4 + r], b[c * 4 + k]);
        }
        PartialIsDot(a, b, r, c);
        assert (4 * c + r) % 4 == r && (4 * c + r) / 4 == c;
        out[c * 4 + r] := s;
      }
    }
    o := out[..];
  }

  // ---------------------------------------------------------------- the action on vectors

  function Apply(m: Mat4, v: Four): Four {
    Four(Dot4(Row(m, 0), v), Dot4(Row(m, 1), v), Dot4(Row(m, 2), v), Dot4(Row(m, 3), v))
  }

  /** u times (a row against v), term by term. */
  lemma TimesDot(u: real, a: Four, v: Four)
    ensures Mul(u, Dot4(a, v))
      == Mul(u, Mul(a.x, v.x)) + Mul(u, Mul(a.y, v.y)) + Mul(u, Mul(a.z, v.z)) + Mul(u, Mul(a.w, v.w))
  {
    MulSum4(u, Mul(a.x, v.x), Mul(a.y, v.y), Mul(a.z, v.z), Mul(a.w, v.w), Dot4(a, v));
  }

  /** (u against a column) times s, term by term. */
  lemma DotTimes(u: Four, a: Four, s: real)
    ensures Mul(Dot4(u, a), s)
      == Mul(u.x, Mul(a.x, s)) + Mul(u.y, Mul(a.y, s)) + Mul(u.z, Mul(a.z, s)) + Mul(u.w, Mul(a.w, s))
  {
    MulSum4(s, Mul(u.x, a.x), Mul(u.y, a.y), Mul(u.z, a.z), Mul(u.w, a.w), Dot4(u, a));
    MulSwap(u.x, a.x, s);
    MulSwap(u.y, a.y, s);
    MulSwap(u.z, a.z, s);
    MulSwap(u.w, a.w, s);
  }

  function RowTimes(u: Four, b: Mat4): Four {
    Four(Dot4(u, Column(b, 0)), Dot4(u, Column(b, 1)), Dot4(u, Column(b, 2)), Dot4(u, Column(b, 3)))
  }

  /** A row through a matrix and then against v, or against the matrix applied to v. */
  lemma RowThroughMatrix(u: Four, b: Mat4, v: Four)
    ensures Dot4(RowTimes(u, b), v) == Dot4(u, Apply(b, v))
  {
    DotTimes(u, Column(b, 0), v.x);
    DotTimes(u, Column(b, 1), v.y);
    DotTimes(u, Column(b, 2), v.z);
    DotTimes(u, Column(b, 3), v.w);
    TimesDot(u.x, Row(b, 0), v);
    TimesDot(u.y, Row(b, 1), v);
    TimesDot(u.z, Row(b, 2), v);
    TimesDot(u.w, Row(b, 3), v);
  }

  lemma RowOfTimes(a: Mat4, b: Mat4, r: nat)
    requires r < 4
    ensures Row(Times(a, b), r) == RowTimes(Row(a, r), b)
  {
  }

  lemma ColumnOfTimes(a: Mat4, b: Mat4, c: nat)
    requires c < 4
    ensures Column(Times(a, b), c) == Apply(a, Column(b, c))
  {
    assert (4 * c) / 4 == (4 * c + 1) / 4 == (4 * c + 2) / 4 == (4 * c + 3) / 4 == c;
  }

  /** A product applies its second factor first. */
  lemma ApplyTimes(a: Mat4, b: Mat4, v: Four)
    ensures Apply(Times(a, b), v) == Apply(a, Apply(b, v))
  {
    forall r: nat | r < 4 ensures Dot4(Row(Times(a, b), r), v) == Dot4(Row(a, r), Apply(b, v)) {
      RowOfTimes(a, b, r);
      RowThroughMatrix(Row(a, r), b, v);
    }
  }

  lemma SameColumns(a: Mat4, b: Mat4)
    requires forall c: nat :: c < 4 ==> Column(a, c) == Column(b, c)
    ensures a == b
  {
    assert
      && Column(a, 0) == Column(b, 0) && Column(a, 1) == Column(b, 1) && Column(a, 2) == Column(b, 2)
      && Column(a, 3) == Column(b, 3);
  }

  /** The product is associative. */
  lemma TimesAssociates(a: Mat4, b: Mat4, c: Mat4)
    ensures Times(Times(a, b), c) == Times(a, Times(b, c))
  {
    forall k: nat | k < 4 ensures Column(Times(Times(a, b), c), k) == Column(Times(a, Times(b, c)), k) {
      ColumnOfTimes(Times(a, b), c, k);
      ColumnOfTimes(a, Times(b, c), k);
      ColumnOfTimes(b, c, k);
      ApplyTimes(a, b, Column(c, k));
    }
    SameColumns(Times(Times(a, b), c), Times(a, Times(b, c)));
  }

  lemma ApplyIdentity(v: Four)
    ensures Apply(Identity(), v) == v
  {
    MulOfOne(v.x);
    MulOfOne(v.y);
    MulOfOne(v.z);
    MulOfOne(v.w);
    MulOfZero(v.x);
    MulOfZero(v.y);
    MulOfZero(v.z);
    MulOfZero(v.w);
  }

  lemma IdentityTimes(m: Mat4)
    ensures Times(Identity(), m) == m
  {
    forall c: nat | c < 4 ensures Column(Times(Identity(), m), c) == Column(m, c) {
      ColumnOfTimes(Identity(), m, c);
      ApplyIdentity(Column(m, c));
    }
    SameColumns(Times(Identity(), m), m);
  }

  // ---------------------------------------------------------------- points and directions

  function TransformPoint(m: Mat4, p: Vec): Vec {
    Vec(Mul(m[0], p.x) + Mul(m[4], p.y) + Mul(m[8], p.z) + m[12],
        Mul(m[1], p.x) + Mul(m[5], p.y) + Mul(m[9], p.z) + m[13],
        Mul(m[2], p.x) + Mul(m[6], p.y) + Mul(m[10], p.z) + m[14])
  }

  function WorldMap(m: Mat4): Vec -> Vec { (p: Vec) => TransformPoint(m, p) }

  /** What the matrix does to a difference of points. */
  function Spin(m: Mat4, v: Vec): Vec {
    Vec(Mul(m[0], v.x) + Mul(m[4], v.y) + Mul(m[8], v.z),
        Mul(m[1], v.x) + Mul(m[5], v.y) + Mul(m[9], v.z),
        Mul(m[2], v.x) + Mul(m[6], v.y) + Mul(m[10], v.z))
  }

  function Shift(m: Mat4): Vec { Vec(m[12], m[13], m[14]) }

  predicate Affine(m: Mat4) { Row(m, 3) == Four(0.0, 0.0, 0.0, 1.0) }

  lemma PointIsSpin(m: Mat4, p: Vec)
    ensures TransformPoint(m, p) == Add(Spin(m, p), Shift(m))
  {
  }

  function Lift(v: Vec, w: real): Four { Four(v.x, v.y, v.z, w) }

  /** An affine matrix keeps the fourth coordinate and adds it times the shift. */
  lemma ApplyLifted(m: Mat4, v: Vec, w: real)
    requires w == 0.0 || w == 1.0
    ensures
      var s := Apply(m, Lift(v, w)); Vec(s.x, s.y, s.z) == if w == 0.0 then Spin(m, v) else Add(Spin(m, v), Shift(m))
    ensures Affine(m) ==> Apply(m, Lift(v, w)).w == w
  {
    MulOfZero(m[12]);
    MulOfZero(m[13]);
    MulOfZero(m[14]);
    MulOfOne(m[12]);
    MulOfOne(m[13]);
    MulOfOne(m[14]);
    MulOfOne(w);
    MulOfZero(v.x);
    MulOfZero(v.y);
    MulOfZero(v.z);
  }

  lemma SpinTimes(a: Mat4, b: Mat4, v: Vec)
    requires Affine(b)
    ensures Spin(Times(a, b), v) == Spin(a, Spin(b, v))
  {
    ApplyTimes(a, b, Lift(v, 0.0));
    ApplyLifted(b, v, 0.0);
    ApplyLifted(a, Spin(b, v), 0.0);
    ApplyLifted(Times(a, b), v, 0.0);
    assert Apply(b, Lift(v, 0.0)) == Lift(Spin(b, v), 0.0);
  }

  /** A point through a product is a point through each factor in turn. */
  lemma PointThroughTimes(a: Mat4, b: Mat4, p: Vec)
    requires Affine(b)
    ensures TransformPoint(Times(a, b), p) == TransformPoint(a, TransformPoint(b, p))
  {
    var q := TransformPoint(b, p);
    PointIsSpin(b, p);
    PointIsSpin(a, q);
    PointIsSpin(Times(a, b), p);
    ApplyTimes(a, b, Lift(p, 1.0));
    ApplyLifted(b, p, 1.0);
    ApplyLifted(a, q, 1.0);
    ApplyLifted(Times(a, b), p, 1.0);
    assert Apply(b, Lift(p, 1.0)) == Lift(q, 1.0);
  }

  lemma AffineTimes(a: Mat4, b: Mat4)
    requires Affine(a) && Affine(b)
    ensures Affine(Times(a, b))
  {
    RowOfTimes(a, b, 3);
    forall c: nat | c < 4 ensures Dot4(Row(a, 3), Column(b, c)) == Column(b, c).w {
      var v := Column(b, c);
      MulOfZero(v.x);
      MulOfZero(v.y);
      MulOfZero(v.z);
      MulOfOne(v.w);
    }
  }

  // ---------------------------------------------------------------- rigid motions

  function Norm2(v: Vec): real { Square(v.x) + Square(v.y) + Square(v.z) }

  ghost predicate KeepsNorm(m: Mat4) { forall v: Vec :: Norm2(Spin(m, v)) == Norm2(v) }

  ghost predicate Rigid(m: Mat4) { Affine(m) && KeepsNorm(m) }

  lemma SpinDifference(m: Mat4, p: Vec, q: Vec)
    ensures Spin(m, Sub(p, q)) == Sub(Spin(m, p), Spin(m, q))
  {
    var d := Sub(p, q);
    forall i: nat | i < 11
      ensures Mul(m[i], d.x) == Mul(m[i], p.x) - Mul(m[i], q.x)
    {
      MulDifference(m[i], p.x, q.x, d.x);
    }
    forall i: nat | i < 11
      ensures Mul(m[i], d.y) == Mul(m[i], p.y) - Mul(m[i], q.y)
    {
      MulDifference(m[i], p.y, q.y, d.y);
    }
    forall i: nat | i < 11
      ensures Mul(m[i], d.z) == Mul(m[i], p.z) - Mul(m[i], q.z)
    {
      MulDifference(m[i], p.z, q.z, d.z);
    }
  }

  /** A rigid motion keeps the distance of any two points. */
  lemma RigidKeepsDistance(m: Mat4, p: Vec, q: Vec)
    requires Rigid(m)
    ensures Norm2(Sub(TransformPoint(m, p), TransformPoint(m, q))) == Norm2(Sub(p, q))
  {
    PointIsSpin(m, p);
    PointIsSpin(m, q);
    SpinDifference(m, p, q);
    var v := Sub(p, q);
    assert Norm2(Spin(m, v)) == Norm2(v);
  }

  lemma RigidTimes(a: Mat4, b: Mat4)
    requires Rigid(a) && Rigid(b)
    ensures Rigid(Times(a, b))
  {
    AffineTimes(a, b);
    forall v: Vec ensures Norm2(Spin(Times(a, b), v)) == Norm2(v) {
      SpinTimes(a, b, v);
      assert Norm2(Spin(b, v)) == Norm2(v);
      var u := Spin(b, v);
      assert Norm2(Spin(a, u)) == Norm2(u);
    }
  }
}
