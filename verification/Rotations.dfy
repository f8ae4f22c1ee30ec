/** The rotations a skeleton is posed with, and what they make of world transforms. */
module Rotations {
  import opened Common
  import opened RealProduct
  import opened TriangleTest
  import opened Matrix
  import opened Skeleton
  import opened SkeletonTheorems

  /** Sine, cosine and square root are the platform's. */
  datatype Trig = Trig(sin: real -> real, cos: real -> real, root: real -> real)

  ghost predicate Lawful(g: Trig) {
    && (forall a :: Square(g.sin(a)) + Square(g.cos(a)) == 1.0)
    && (forall q :: 0.0 <= q ==> 0.0 <= g.root(q) && Square(g.root(q)) == q)
  }

  function RotX(s: real, c: real): Mat4 { [1.0, 0.0, 0.0, 0.0, 0.0, c, s, 0.0, 0.0, -s, c, 0.0, 0.0, 0.0, 0.0, 1.0] }

  function RotY(s: real, c: real): Mat4 { [c, 0.0, -s, 0.0, 0.0, 1.0, 0.0, 0.0, s, 0.0, c, 0.0, 0.0, 0.0, 0.0, 1.0] }

  function RotZ(s: real, c: real): Mat4 { [c, s, 0.0, 0.0, -s, c, 0.0, 0.0, 0.0, 0.0, 1.0, 0.0, 0.0, 0.0, 0.0, 1.0] }

  function Translation(p: Vec): Mat4 {
    [1.0, 0.0, 0.0, 0.0, 0.0, 1.0, 0.0, 0.0, 0.0, 0.0, 1.0, 0.0, p.x, p.y, p.z, 1.0]
  }

  /** Translation, then the turns about y, x and z. */
  function Trs(g: Trig, pos: Vec, rot: Vec): Mat4 {
    Times(Translation(pos),
      Times(RotY(g.sin(rot.y), g.cos(rot.y)),
        Times(RotX(g.sin(rot.x), g.cos(rot.x)), RotZ(g.sin(rot.z), g.cos(rot.z)))))
  }

  /** The turn about a unit axis k, with t = 1 - c. */
  function Rodrigues(k: Vec, s: real, c: real, t: real): Mat4 {
    [Mul(Mul(t, k.x), k.x) + c, Mul(Mul(t, k.x), k.y) + Mul(s, k.z), Mul(Mul(t, k.x), k.z) - Mul(s, k.y), 0.0,
     Mul(Mul(t, k.x), k.y) - Mul(s, k.z), Mul(Mul(t, k.y), k.y) + c, Mul(Mul(t, k.y), k.z) + Mul(s, k.x), 0.0,
     Mul(Mul(t, k.x), k.z) + Mul(s, k.y), Mul(Mul(t, k.y), k.z) - Mul(s, k.x), Mul(Mul(t, k.z), k.z) + c, 0.0,
     0.0, 0.0, 0.0, 1.0]
  }

  /** An axis that is too short turns nothing. */
  function AxisAngle(g: Trig, axis: Vec, angle: real): Mat4 {
    var len := g.root(Norm2(axis));
    if len < Eps then Identity()
    else
      var c := g.cos(angle);
      Rodrigues(Vec(axis.x / len, axis.y / len, axis.z / len), g.sin(angle), c, 1.0 - c)
  }

  /** A driver's body pose: a place in the plane and a heading. */
  function BodyOffset(g: Trig, x: real, z: real, heading: real): Mat4 {
    var (s, c) := (g.sin(heading), g.cos(heading));
    [c, 0.0, -s, 0.0, 0.0, 1.0, 0.0, 0.0, s, 0.0, c, 0.0, x, 0.0, z, 1.0]
  }

  // ---------------------------------------------------------------- turns in a plane

  /** A turn keeps the sum of the squares of its two coordinates. */
  lemma PlaneTurn(s: real, c: real, a: real, b: real, p: real, q: real)
    requires Square(s) + Square(c) == 1.0 && p == Mul(c, a) - Mul(s, b) && q == Mul(s, a) + Mul(c, b)
    ensures Square(p) + Square(q) == Square(a) + Square(b)
  {
    var ca, sb, sa, cb := Mul(c, a), Mul(s, b), Mul(s, a), Mul(c, b);
    SquareOfSum(sa, cb, q);
    SquareOfSum(p, sb, ca);
    MulDifference(sb, ca, sb, p);
    MulPairs(c, a, s, b);
    MulPairs(s, a, c, b);
    MulCommutes(c, s);
    MulCommutes(ca, sb);
    MulCommutes(p, sb);
    SquareOfProduct(c, a);
    SquareOfProduct(s, b);
    SquareOfProduct(s, a);
    SquareOfProduct(c, b);
    MulSum(Square(a), Square(s), Square(c), 1.0);
    MulSum(Square(b), Square(s), Square(c), 1.0);
    MulOfOne(Square(a));
    MulOfOne(Square(b));
  }

  lemma Trivial(v: Vec)
    ensures Mul(0.0, v.x) == 0.0 && Mul(0.0, v.y) == 0.0 && Mul(0.0, v.z) == 0.0
    ensures Mul(1.0, v.x) == v.x && Mul(1.0, v.y) == v.y && Mul(1.0, v.z) == v.z
  {
  }

  lemma RotXIsRigid(s: real, c: real)
    requires Square(s) + Square(c) == 1.0
    ensures Rigid(RotX(s, c))
  {
    forall v: Vec ensures Norm2(Spin(RotX(s, c), v)) == Norm2(v) {
      var w := Spin(RotX(s, c), v);
      Trivial(v);
      MulNegated(s, v.z, -s);
      PlaneTurn(s, c, v.y, v.z, w.y, w.z);
    }
  }

  lemma RotYIsRigid(s: real, c: real)
    requires Square(s) + Square(c) == 1.0
    ensures Rigid(RotY(s, c))
  {
    forall v: Vec ensures Norm2(Spin(RotY(s, c), v)) == Norm2(v) {
      var w := Spin(RotY(s, c), v);
      Trivial(v);
      MulNegated(s, v.x, -s);
      PlaneTurn(s, c, v.z, v.x, w.z, w.x);
    }
  }

  lemma RotZIsRigid(s: real, c: real)
    requires Square(s) + Square(c) == 1.0
    ensures Rigid(RotZ(s, c))
  {
    forall v: Vec ensures Norm2(Spin(RotZ(s, c), v)) == Norm2(v) {
      var w := Spin(RotZ(s, c), v);
      Trivial(v);
      MulNegated(s, v.y, -s);
      PlaneTurn(s, c, v.x, v.y, w.x, w.y);
    }
  }

  lemma TranslationIsRigid(p: Vec)
    ensures Rigid(Translation(p))
  {
    forall v: Vec ensures Norm2(Spin(Translation(p), v)) == Norm2(v) { Trivial(v); }
  }

  lemma IdentityIsRigid()
    ensures Rigid(Identity())
  {
    forall v: Vec ensures Norm2(Spin(Identity(), v)) == Norm2(v) { Trivial(v); }
  }

  lemma BodyOffsetIsRigid(g: Trig, x: real, z: real, heading: real)
    requires Lawful(g)
    ensures Rigid(BodyOffset(g, x, z, heading))
  {
    var m, r := BodyOffset(g, x, z, heading), RotY(g.sin(heading), g.cos(heading));
    RotYIsRigid(g.sin(heading), g.cos(heading));
    forall v: Vec ensures Norm2(Spin(m, v)) == Norm2(v) {
      assert Spin(m, v) == Spin(r, v);
      assert Norm2(Spin(r, v)) == Norm2(v);
    }
  }

  lemma TrsIsRigid(g: Trig, pos: Vec, rot: Vec)
    requires Lawful(g)
    ensures Rigid(Trs(g, pos, rot))
  {
    var x, y, z := RotX(g.sin(rot.x), g.cos(rot.x)), RotY(g.sin(rot.y), g.cos(rot.y)), RotZ(g.sin(rot.z), g.cos(rot.z));
    RotXIsRigid(g.sin(rot.x), g.cos(rot.x));
    RotYIsRigid(g.sin(rot.y), g.cos(rot.y));
    RotZIsRigid(g.sin(rot.z), g.cos(rot.z));
    TranslationIsRigid(pos);
    RigidTimes(x, z);
    RigidTimes(y, Times(x, z));
    RigidTimes(Translation(pos), Times(y, Times(x, z)));
  }

  // ---------------------------------------------------------------- turns about an axis

  function Inner(a: Vec, b: Vec): real { Mul(a.x, b.x) + Mul(a.y, b.y) + Mul(a.z, b.z) }

  function Outer(a: Vec, b: Vec): Vec {
    Vec(Mul(a.y, b.z) - Mul(a.z, b.y), Mul(a.z, b.x) - Mul(a.x, b.z), Mul(a.x, b.y) - Mul(a.y, b.x))
  }

  /** The outer product is orthogonal to both factors. */
  lemma OuterIsOrthogonal(k: Vec, v: Vec, w: Vec)
    requires w == Outer(k, v)
    ensures Inner(k, w) == 0.0 && Inner(v, w) == 0.0
  {
    MulDifference(k.x, Mul(k.y, v.z), Mul(k.z, v.y), w.x);
    MulDifference(k.y, Mul(k.z, v.x), Mul(k.x, v.z), w.y);
    MulDifference(k.z, Mul(k.x, v.y), Mul(k.y, v.x), w.z);
    MulSwap(k.x, k.y, v.z);
    MulSwap(k.x, k.z, v.y);
    MulSwap(k.y, k.z, v.x);
    MulDifference(v.x, Mul(k.y, v.z), Mul(k.z, v.y), w.x);
    MulDifference(v.y, Mul(k.z, v.x), Mul(k.x, v.z), w.y);
    MulDifference(v.z, Mul(k.x, v.y), Mul(k.y, v.x), w.z);
    Slide(v.x, k.y, v.z);
    Slide(v.x, k.z, v.y);
    Slide(v.y, k.x, v.z);
  }

  lemma Slide(a: real, k: real, b: real)
    ensures Mul(a, Mul(k, b)) == Mul(b, Mul(k, a)) == Mul(k, Mul(a, b))
  {
    MulSwap(a, k, b);
    MulSwap(b, k, a);
    MulCommutes(a, b);
  }

  lemma SquareOfDifference(a: real, b: real, c: real)
    requires c == a - b
    ensures Square(c) == Square(a) - 2.0 * Mul(a, b) + Square(b)
  {
    SquareOfSum(c, b, a);
    MulDifference(b, a, b, c);
    MulCommutes(a, b);
    MulCommutes(c, b);
  }

  /** One coordinate of the outer product, squared. */
  lemma OuterSquare(a: real, b: real, p: real, q: real, w: real)
    requires w == Mul(a, q) - Mul(b, p)
    ensures Square(w) == Mul(Square(a), Square(q)) - 2.0 * Mul(Mul(a, p), Mul(b, q)) + Mul(Square(b), Square(p))
  {
    SquareOfDifference(Mul(a, q), Mul(b, p), w);
    SquareOfProduct(a, q);
    SquareOfProduct(b, p);
    MulPairs(a, q, b, p);
    MulPairs(a, p, b, q);
    MulCommutes(p, q);
  }

  lemma SquareOfThree(a: real, b: real, c: real, d: real)
    requires d == a + b + c
    ensures Square(d) == Square(a) + Square(b) + Square(c) + 2.0 * (Mul(a, b) + Mul(a, c) + Mul(b, c))
  {
    SquareOfSum(a + b, c, d);
    SquareOfSum(a, b, a + b);
    MulSum(c, a, b, a + b);
  }

  lemma ProductOfNorms(k: Vec, v: Vec)
    ensures
      Mul(Norm2(k), Norm2(v)) == Mul(Square(k.x), Norm2(v)) + Mul(Square(k.y), Norm2(v)) + Mul(Square(k.z), Norm2(v))
    ensures forall a :: Mul(a, Norm2(v)) == Mul(a, Square(v.x)) + Mul(a, Square(v.y)) + Mul(a, Square(v.z))
  {
    var n := Norm2(v);
    MulCommutes(Norm2(k), n);
    MulSum3(n, Square(k.x), Square(k.y), Square(k.z), Norm2(k));
    MulCommutes(n, Square(k.x));
    MulCommutes(n, Square(k.y));
    MulCommutes(n, Square(k.z));
    forall a ensures Mul(a, n) == Mul(a, Square(v.x)) + Mul(a, Square(v.y)) + Mul(a, Square(v.z)) {
      MulSum3(a, Square(v.x), Square(v.y), Square(v.z), n);
    }
  }

  /** The outer product's norm: what the inner product leaves of the norms. */
  lemma Lagrange(k: Vec, v: Vec, w: Vec)
    requires w == Outer(k, v)
    ensures Norm2(w) == Mul(Norm2(k), Norm2(v)) - Square(Inner(k, v))
  {
    OuterSquare(k.y, k.z, v.y, v.z, w.x);
    OuterSquare(k.z, k.x, v.z, v.x, w.y);
    OuterSquare(k.x, k.y, v.x, v.y, w.z);
    MulCommutes(Mul(k.z, v.z), Mul(k.x, v.x));
    SquareOfThree(Mul(k.x, v.x), Mul(k.y, v.y), Mul(k.z, v.z), Inner(k, v));
    SquareOfProduct(k.x, v.x);
    SquareOfProduct(k.y, v.y);
    SquareOfProduct(k.z, v.z);
    ProductOfNorms(k, v);
  }

  /** One row of the turn: c v + t (k . v) k + s (k x v), in one coordinate. */
  lemma RodriguesRow(tx: real, x: real, y: real, z: real, s: real, c: real, v: Vec, d: real, e: real)
    requires d == Mul(x, v.x) + Mul(y, v.y) + Mul(z, v.z) && e == Mul(y, v.z) - Mul(z, v.y)
    ensures Mul(Mul(tx, x) + c, v.x) + Mul(Mul(tx, y) - Mul(s, z), v.y) + Mul(Mul(tx, z) + Mul(s, y), v.z)
      == Mul(c, v.x) + Mul(tx, d) + Mul(s, e)
  {
    MulSum(v.x, Mul(tx, x), c, Mul(tx, x) + c);
    MulDifference(v.y, Mul(tx, y), Mul(s, z), Mul(tx, y) - Mul(s, z));
    MulSum(v.z, Mul(tx, z), Mul(s, y), Mul(tx, z) + Mul(s, y));
    MulSum3(tx, Mul(x, v.x), Mul(y, v.y), Mul(z, v.z), d);
    MulDifference(s, Mul(y, v.z), Mul(z, v.y), e);
    MulSwap(tx, x, v.x);
    MulSwap(tx, y, v.y);
    MulSwap(tx, z, v.z);
    MulSwap(s, z, v.y);
    MulSwap(s, y, v.z);
  }

  function Combined(a: real, u: Vec, b: real, v: Vec, c: real, w: Vec): Vec {
    Vec(Mul(a, u.x) + Mul(b, v.x) + Mul(c, w.x), Mul(a, u.y) + Mul(b, v.y) + Mul(c, w.y),
      Mul(a, u.z) + Mul(b, v.z) + Mul(c, w.z))
  }

  lemma Exchange(t: real, x: real, y: real)
    ensures Mul(Mul(t, x), y) == Mul(Mul(t, y), x)
  {
    MulSwap(t, x, y);
    MulSwap(t, y, x);
    MulCommutes(x, y);
  }

  lemma RodriguesSpin(k: Vec, s: real, c: real, t: real, v: Vec)
    ensures Spin(Rodrigues(k, s, c, t), v) == Combined(c, v, Mul(t, Inner(k, v)), k, s, Outer(k, v))
  {
    var d, w := Inner(k, v), Outer(k, v);
    RodriguesRow(Mul(t, k.x), k.x, k.y, k.z, s, c, v, d, w.x);
    RodriguesRow(Mul(t, k.y), k.y, k.z, k.x, s, c, Vec(v.y, v.z, v.x), d, w.y);
    RodriguesRow(Mul(t, k.z), k.z, k.x, k.y, s, c, Vec(v.z, v.x, v.y), d, w.z);
    Exchange(t, k.x, k.y);
    Exchange(t, k.x, k.z);
    Exchange(t, k.y, k.z);
    Exchange(t, k.x, d);
    Exchange(t, k.y, d);
    Exchange(t, k.z, d);
  }

  /** The square of one coordinate of a combination. */
  lemma CombinedSquare(a: real, u: real, b: real, v: real, c: real, w: real, r: real)
    requires r == Mul(a, u) + Mul(b, v) + Mul(c, w)
    ensures Square(r) == Mul(Square(a), Square(u)) + Mul(Square(b), Square(v)) + Mul(Square(c), Square(w))
      + 2.0 * (Mul(Mul(a, b), Mul(u, v)) + Mul(Mul(a, c), Mul(u, w)) + Mul(Mul(b, c), Mul(v, w)))
  {
    SquareOfThree(Mul(a, u), Mul(b, v), Mul(c, w), r);
    SquareOfProduct(a, u);
    SquareOfProduct(b, v);
    SquareOfProduct(c, w);
    MulPairs(a, u, b, v);
    MulPairs(a, u, c, w);
    MulPairs(b, v, c, w);
  }

  lemma CombinedNorm(a: real, u: Vec, b: real, v: Vec, c: real, w: Vec, r: Vec)
    requires r == Combined(a, u, b, v, c, w)
    ensures Norm2(r) == Mul(Square(a), Norm2(u)) + Mul(Square(b), Norm2(v)) + Mul(Square(c), Norm2(w))
      + 2.0 * (Mul(Mul(a, b), Inner(u, v)) + Mul(Mul(a, c), Inner(u, w)) + Mul(Mul(b, c), Inner(v, w)))
  {
    CombinedSquare(a, u.x, b, v.x, c, w.x, r.x);
    CombinedSquare(a, u.y, b, v.y, c, w.y, r.y);
    CombinedSquare(a, u.z, b, v.z, c, w.z, r.z);
    MulSum3(Square(a), Square(u.x), Square(u.y), Square(u.z), Norm2(u));
    MulSum3(Square(b), Square(v.x), Square(v.y), Square(v.z), Norm2(v));
    MulSum3(Square(c), Square(w.x), Square(w.y), Square(w.z), Norm2(w));
    MulSum3(Mul(a, b), Mul(u.x, v.x), Mul(u.y, v.y), Mul(u.z, v.z), Inner(u, v));
    MulSum3(Mul(a, c), Mul(u.x, w.x), Mul(u.y, w.y), Mul(u.z, w.z), Inner(u, w));
    MulSum3(Mul(b, c), Mul(v.x, w.x), Mul(v.y, w.y), Mul(v.z, w.z), Inner(v, w));
  }

  /** The terms along the axis cancel: t^2 + 2 c t = s^2. */
  lemma AxisTermsCancel(s: real, c: real, t: real, d: real)
    requires Square(s) + Square(c) == 1.0 && t == 1.0 - c
    ensures Square(Mul(t, d)) + 2.0 * Mul(Mul(c, Mul(t, d)), d) == Mul(Square(s), Square(d))
  {
    var q := Square(d);
    SquareOfProduct(t, d);
    MulSwap(c, t, d);
    MulSwap(Mul(c, t), d, d);
    SquareOfDifference(1.0, c, t);
    MulOfOne(c);
    MulOfOne(1.0);
    MulDifference(c, 1.0, c, t);
    MulTwice(Mul(c, t), q, 2.0 * Mul(c, t));
    MulSum(q, Square(t), 2.0 * Mul(c, t), Square(s));
  }

  /** The turn about a unit axis is rigid. */
  lemma RodriguesIsRigid(k: Vec, s: real, c: real, t: real)
    requires Norm2(k) == 1.0 && Square(s) + Square(c) == 1.0 && t == 1.0 - c
    ensures Rigid(Rodrigues(k, s, c, t))
  {
    forall v: Vec ensures Norm2(Spin(Rodrigues(k, s, c, t), v)) == Norm2(v) { RodriguesKeepsNorm(k, s, c, t, v); }
  }

  lemma RodriguesKeepsNorm(k: Vec, s: real, c: real, t: real, v: Vec)
    requires Norm2(k) == 1.0 && Square(s) + Square(c) == 1.0 && t == 1.0 - c
    ensures Norm2(Spin(Rodrigues(k, s, c, t), v)) == Norm2(v)
  {
    var d, w, n := Inner(k, v), Outer(k, v), Norm2(v);
    var b := Mul(t, d);
    RodriguesSpin(k, s, c, t, v);
    CombinedNorm(c, v, b, k, s, w, Spin(Rodrigues(k, s, c, t), v));
    OuterIsOrthogonal(k, v, w);
    Lagrange(k, v, w);
    AxisTermsCancel(s, c, t, d);
    InnerCommutes(k, v);
    MulOfOne(n);
    MulOfOne(Square(b));
    MulOfZero(Mul(c, s));
    MulOfZero(Mul(b, s));
    MulDifference(Square(s), n, Square(d), Norm2(w));
    MulSum(n, Square(s), Square(c), 1.0);
  }

  lemma InnerCommutes(a: Vec, b: Vec)
    ensures Inner(a, b) == Inner(b, a)
  {
    MulCommutes(a.x, b.x);
    MulCommutes(a.y, b.y);
    MulCommutes(a.z, b.z);
  }

  /** Dividing a vector by its length gives length one. */
  lemma UnitLength(a: Vec, len: real, k: Vec)
    requires len != 0.0 && Square(len) == Norm2(a) && k == Vec(a.x / len, a.y / len, a.z / len)
    ensures Norm2(k) == 1.0
  {
    var q := Square(len);
    SquareSign(len);
    QuotientSquare(a.x, len, k.x);
    QuotientSquare(a.y, len, k.y);
    QuotientSquare(a.z, len, k.z);
    MulSum3(q, Square(k.x), Square(k.y), Square(k.z), Norm2(k));
    Cancel(q, Norm2(k));
  }

  lemma QuotientSquare(a: real, len: real, k: real)
    requires len != 0.0 && k == a / len
    ensures Mul(Square(len), Square(k)) == Square(a)
  {
    assert Mul(len, k) == a;
    SquareOfProduct(len, k);
  }

  lemma Cancel(q: real, n: real)
    requires q > 0.0 && Mul(q, n) == q
    ensures n == 1.0
  {
  }

  lemma AxisAngleIsRigid(g: Trig, axis: Vec, angle: real)
    requires Lawful(g)
    ensures Rigid(AxisAngle(g, axis, angle))
  {
    SquareSign(axis.x);
    SquareSign(axis.y);
    SquareSign(axis.z);
    var len := g.root(Norm2(axis));
    if len < Eps {
      IdentityIsRigid();
    } else {
      var k := Vec(axis.x / len, axis.y / len, axis.z / len);
      UnitLength(axis, len, k);
      RodriguesIsRigid(k, g.sin(angle), g.cos(angle), 1.0 - g.cos(angle));
    }
  }

  // ---------------------------------------------------------------- world transforms

  function Matrices(g: Trig): Transforms<Mat4> {
    Transforms(Identity(), (a: Mat4, b: Mat4) => Times(a, b), (pos: Vec, rot: Vec) => Trs(g, pos, rot),
      (axis: Vec, angle: real) => AxisAngle(g, axis, angle))
  }

  /** Roots start from a rigid motion and every node's own transform is one. */
  ghost predicate RigidRig(rig: Rig<Mat4>) {
    Rigid(rig.root) && (forall a, b :: rig.mul(a, b) == Times(a, b)) && forall n :: Rigid(rig.local(n))
  }

  lemma {:induction false} ChainIsRigid(rig: Rig<Mat4>, path: seq<Node>)
    requires RigidRig(rig) && path != []
    ensures Rigid(Product(rig, path))
    decreases |path|
  {
    var local := rig.local(path[0]);
    if |path| == 1 {
      RigidTimes(rig.root, local);
    } else {
      ChainIsRigid(rig, path[1..]);
      RigidTimes(Product(rig, path[1..]), local);
    }
  }

  ghost predicate KeepsDistances(m: Mat4) {
    forall p, q :: Norm2(Sub(TransformPoint(m, p), TransformPoint(m, q))) == Norm2(Sub(p, q))
  }

  /** Every world transform is a rigid motion: distances between points survive it. */
  ghost predicate RigidWorld(w: World<Mat4>) { forall name :: name in w ==> Affine(w[name]) && KeepsDistances(w[name]) }

  lemma WorldsAreRigid(rig: Rig<Mat4>, skeleton: seq<Node>)
    requires RigidRig(rig) && Worlds(rig, skeleton).Ok?
    ensures RigidWorld(Worlds(rig, skeleton).value)
  {
    OutcomeOf(rig, skeleton);
    var (w, kept) := Settle(rig, map[], skeleton);
    forall name | name in w ensures Affine(w[name]) && KeepsDistances(w[name]) {
      var path: seq<Node> :| IsChain(skeleton, path) && path[0].name == name && w[name] == Product(rig, path);
      ChainIsRigid(rig, path);
      forall p, q ensures Norm2(Sub(TransformPoint(w[name], p), TransformPoint(w[name], q))) == Norm2(Sub(p, q)) {
        RigidKeepsDistance(w[name], p, q);
      }
    }
  }

  /** Joint angles and a rigid body offset give rigid world transforms, for every skeleton. */
  lemma JointWorldsAreRigid(g: Trig, angles: map<string, real>, offset: Option<Mat4>, skeleton: seq<Node>,
                            w: World<Mat4>)
    requires
      && Lawful(g) && (offset.Some? ==> Rigid(offset.value))
      && Worlds(JointRig(Matrices(g), angles, offset), skeleton) == Ok(w)
    ensures RigidWorld(w)
  {
    var rig := JointRig(Matrices(g), angles, offset);
    IdentityIsRigid();
    forall n ensures Rigid(rig.local(n)) {
      TrsIsRigid(g, n.pos, n.rot);
      if n.name in angles {
        var axis := if n.axis.Some? then n.axis.value else Vec(0.0, 1.0, 0.0);
        AxisAngleIsRigid(g, axis, angles[n.name]);
        RigidTimes(Trs(g, n.pos, n.rot), AxisAngle(g, axis, angles[n.name]));
      }
    }
    WorldsAreRigid(rig, skeleton);
  }

  /** Animation channels give rigid world transforms, for every skeleton. */
  lemma PosedWorldsAreRigid(g: Trig, poses: map<string, (Vec, Vec)>, skeleton: seq<Node>, w: World<Mat4>)
    requires Lawful(g) && Worlds(PosedRig(Matrices(g), poses), skeleton) == Ok(w)
    ensures RigidWorld(w)
  {
    var rig := PosedRig(Matrices(g), poses);
    IdentityIsRigid();
    forall n ensures Rigid(rig.local(n)) {
      if n.name in poses {
        TrsIsRigid(g, Add(n.pos, poses[n.name].1), Add(n.rot, poses[n.name].0));
      } else {
        TrsIsRigid(g, n.pos, n.rot);
      }
    }
    WorldsAreRigid(rig, skeleton);
  }

  lemma MatricesAssociate(g: Trig)
    ensures Associative(Matrices(g).mul) && forall m :: Matrices(g).mul(Matrices(g).one, m) == m
  {
    forall a: Mat4, b: Mat4, c: Mat4
      ensures Times(Times(a, b), c) == Times(a, Times(b, c))
    {
      TimesAssociates(a, b, c);
    }
    forall m: Mat4 ensures Times(Identity(), m) == m { IdentityTimes(m); }
  }

  /** Wherever a node takes a point, the moved node takes it there and on through the offset. */
  ghost predicate MovedBy(offset: Mat4, still: World<Mat4>, moved: World<Mat4>) {
    && moved.Keys == still.Keys
    && forall name, p ::
         name in moved ==> TransformPoint(moved[name], p) == TransformPoint(offset, TransformPoint(still[name], p))
  }

  /** A root offset, any matrix at all, moves every point of every node by that matrix. */
  lemma OffsetMovesPoints(g: Trig, angles: map<string, real>, offset: Mat4, skeleton: seq<Node>, moved: World<Mat4>)
    requires
      && Lawful(g) && Agreeing(JointRig(Matrices(g), angles, None), skeleton)
      && Worlds(JointRig(Matrices(g), angles, Some(offset)), skeleton) == Ok(moved)
    ensures Worlds(JointRig(Matrices(g), angles, None), skeleton).Ok?
    ensures MovedBy(offset, Worlds(JointRig(Matrices(g), angles, None), skeleton).value, moved)
  {
    MatricesAssociate(g);
    RootOffsetPremultiplies(Matrices(g), angles, offset, skeleton);
    var still := Worlds(JointRig(Matrices(g), angles, None), skeleton).value;
    JointWorldsAreRigid(g, angles, None, skeleton, still);
    forall name, p | name in moved
      ensures TransformPoint(moved[name], p) == TransformPoint(offset, TransformPoint(still[name], p))
    {
      PointThroughTimes(offset, still[name], p);
    }
  }
}
