/** The mass properties of a mesh under a rigid motion: the volume is kept up to the sign of the
    determinant, the centre of mass moves with the mesh, and the inertia tensor turns with it. */
module MassRotation {
  import opened Common
  import opened RealProduct
  import opened TriangleTest
  import opened ClosedMesh
  import opened MassProps
  import opened MassTheorems
  import opened MassMotion
  import opened Matrix
  import opened Rotations
  import opened LinearMaps
  import Tet = MassIdentities

  // ---------------------------------------------------------------- sums over faces

  /** The tetrahedron term of one integral, on the face itself. */
  function TetAlong(kind: Kind, k: Axis): Tri -> real { (t: Tri) => Mul(Tet.Det(t), Tet.Density(kind, Turned(t, k))) }

  lemma DetOfTurned(t: Tri, k: Axis)
    ensures Tet.Det(Turned(t, k)) == Tet.Det(t)
  {
    DetOfTurn(t, Turned(t, Y));
    DetOfTurn(Turned(t, Y), Turned(t, Z));
  }

  lemma IntegralIsFaceSum(faces: seq<Tri>, kind: Kind, k: Axis)
    requires Closed(faces)
    ensures Integral(faces, kind, k) == Sum(faces, TetAlong(kind, k))
  {
    IntegralIsTetrahedra(faces, kind, k);
    forall t ensures TetAlong(kind, k)(t) == TetTerm(kind)(MapTri(t, TurnMap(k))) {
      TurnedIsMapped(t, k);
      DetOfTurned(t, k);
    }
    SumOfMapped(faces, TurnMap(k), TetTerm(kind), TetAlong(kind, k));
  }

  lemma {:induction false} SumOfScaled(faces: seq<Tri>, f: Tri -> real, c: real, g: Tri -> real)
    requires forall t :: f(t) == Mul(c, g(t))
    ensures Sum(faces, f) == Mul(c, Sum(faces, g))
  {
    if faces == [] {
      MulOfZero(c);
    } else {
      var init, t := faces[..|faces| - 1], faces[|faces| - 1];
      SumOfScaled(init, f, c, g);
      MulSum(c, Sum(init, g), g(t), Sum(faces, g));
    }
  }

  /** One face term is a combination of three others. */
  ghost predicate Combines(f: Tri -> real, p: Vec, g: Tri -> real, h: Tri -> real, k: Tri -> real) {
    forall t :: f(t) == Mul(p.x, g(t)) + Mul(p.y, h(t)) + Mul(p.z, k(t))
  }

  lemma SumOfMultiples(faces: seq<Tri>, f: Tri -> real, p: Vec, g: Tri -> real, h: Tri -> real, k: Tri -> real)
    requires Combines(f, p, g, h, k)
    ensures Sum(faces, f) == Mul(p.x, Sum(faces, g)) + Mul(p.y, Sum(faces, h)) + Mul(p.z, Sum(faces, k))
  {
    var e := (t: Tri) => Mul(p.x, g(t));
    SumOfScaled(faces, e, p.x, g);
    SumOfCombination(faces, f, e, p.y, h, p.z, k);
  }

  // ---------------------------------------------------------------- determinants of images

  function Linear(m: Mat4): Vec -> Vec { (p: Vec) => Spin(m, p) }

  function Image(t: Tri, m: Mat4): Tri { MapTri(t, Linear(m)) }

  lemma DetIsTriple(t: Tri)
    ensures Tet.Det(t) == Triple3(t.a, t.b, t.c)
  {
    TripleTerms(t.a, t.b, t.c);
    DetSummand(t.a, t.b, t.c);
    DetSummand(t.b, t.c, t.a);
    DetSummand(t.c, t.a, t.b);
    MulCommutes(t.b.z, t.c.y);
    Rotate3(t.b.x, t.c.y, t.a.z);
    Rotate3(t.a.y, t.b.x, t.c.z);
    Rotate3(t.c.x, t.a.y, t.b.z);
    Rotate3(t.c.x, t.b.y, t.a.z);
    MulCommutes(t.b.y, t.c.x);
    MulCommutes(t.b.x, t.c.y);
    MulCommutes(t.b.z, t.c.x);
    MulCommutes(t.b.x, t.c.z);
    MulCommutes(t.c.z, t.a.y);
    MulCommutes(t.a.z, t.b.y);
    MulCommutes(t.a.z, t.c.y);
  }

  lemma DetOfImage(m: Mat4, t: Tri)
    ensures Tet.Det(Image(t, m)) == Mul(Determinant(m), Tet.Det(t))
  {
    DetIsTriple(t);
    DetIsTriple(Image(t, m));
    TripleOfImages(m, t.a, t.b, t.c);
  }

  /** A face term whose density is kept is multiplied by the determinant. */
  lemma WeightedImage(m: Mat4, t: Tri, x: real)
    ensures Mul(Tet.Det(Image(t, m)), x) == Mul(Determinant(m), Mul(Tet.Det(t), x))
  {
    DetOfImage(m, t);
    MulSwap(Determinant(m), Tet.Det(t), x);
  }

  // ---------------------------------------------------------------- the sums of a turned mesh

  function ImageAll(faces: seq<Tri>, m: Mat4): seq<Tri> { MapAll(faces, Linear(m)) }

  /** A face sum whose terms are multiplied by one number. */
  lemma SumOfImages(faces: seq<Tri>, m: Mat4, f: Tri -> real, g: Tri -> real, d: real)
    requires forall t :: f(Image(t, m)) == Mul(d, g(t))
    ensures Sum(ImageAll(faces, m), f) == Mul(d, Sum(faces, g))
  {
    var h := (t: Tri) => f(Image(t, m));
    SumOfMapped(faces, Linear(m), f, h);
    SumOfScaled(faces, h, d, g);
  }

  lemma VolumeOfImages(faces: seq<Tri>, m: Mat4)
    requires Closed(faces)
    ensures Integral(ImageAll(faces, m), Volume, X) == Mul(Determinant(m), Integral(faces, Volume, X))
  {
    MappedIsClosed(faces, Linear(m));
    IntegralIsFaceSum(faces, Volume, X);
    IntegralIsFaceSum(ImageAll(faces, m), Volume, X);
    var f := TetAlong(Volume, X);
    forall t ensures f(Image(t, m)) == Mul(Determinant(m), f(t)) { WeightedImage(m, t, 1.0); }
    SumOfImages(faces, m, f, f, Determinant(m));
  }

  /** The sum of a face's vertices. */
  function Total(t: Tri): Vec { Add(Add(t.a, t.b), t.c) }

  lemma TotalOfImage(m: Mat4, t: Tri)
    ensures Total(Image(t, m)) == Spin(m, Total(t))
  {
    SpinSum(m, t.a, t.b);
    SpinSum(m, Add(t.a, t.b), t.c);
  }

  lemma FirstDensity(t: Tri, k: Axis)
    ensures Tet.Density(First, Turned(t, k)) == Along(Total(t), k)
  {
  }

  /** The first moments as a vector. */
  function FirstSum(faces: seq<Tri>): Vec {
    Vec(Integral(faces, First, X), Integral(faces, First, Y), Integral(faces, First, Z))
  }

  /** One row of a matrix against the first moments. */
  function RowOf(m: Mat4, k: Axis): Vec {
    match k
    case X => Vec(m[0], m[4], m[8])
    case Y => Vec(m[1], m[5], m[9])
    case Z => Vec(m[2], m[6], m[10])
  }

  lemma FirstTerm(t: Tri, k: Axis)
    ensures TetAlong(First, k)(t) == Mul(Tet.Det(t), Along(Total(t), k))
  {
    FirstDensity(t, k);
  }

  lemma RowAgainst(m: Mat4, v: Vec, k: Axis)
    ensures Along(Spin(m, v), k) == Inner(RowOf(m, k), v)
  {
  }

  lemma WeightedRow(d: real, r: Vec, s: Vec)
    ensures Mul(d, Inner(r, s)) == Mul(r.x, Mul(d, s.x)) + Mul(r.y, Mul(d, s.y)) + Mul(r.z, Mul(d, s.z))
  {
    MulSum3(d, Mul(r.x, s.x), Mul(r.y, s.y), Mul(r.z, s.z), Inner(r, s));
    MulSwap(d, r.x, s.x);
    MulSwap(d, r.y, s.y);
    MulSwap(d, r.z, s.z);
  }

  /** The first-moment term along a direction. */
  function FirstAlong(r: Vec): Tri -> real { (t: Tri) => Mul(Tet.Det(t), Inner(r, Total(t))) }

  lemma FirstTermOfImage(m: Mat4, t: Tri, k: Axis)
    ensures TetAlong(First, k)(Image(t, m)) == Mul(Determinant(m), FirstAlong(RowOf(m, k))(t))
  {
    FirstTerm(Image(t, m), k);
    TotalOfImage(m, t);
    RowAgainst(m, Total(t), k);
    WeightedImage(m, t, Inner(RowOf(m, k), Total(t)));
  }

  lemma FirstAlongAt(r: Vec, t: Tri)
    ensures FirstAlong(r)(t)
      == Mul(r.x, TetAlong(First, X)(t)) + Mul(r.y, TetAlong(First, Y)(t)) + Mul(r.z, TetAlong(First, Z)(t))
  {
    FirstTerm(t, X);
    FirstTerm(t, Y);
    FirstTerm(t, Z);
    WeightedRow(Tet.Det(t), r, Total(t));
  }

  lemma FirstAlongCombines(r: Vec)
    ensures Combines(FirstAlong(r), r, TetAlong(First, X), TetAlong(First, Y), TetAlong(First, Z))
  {
    forall t
      ensures FirstAlong(r)(t)
        == Mul(r.x, TetAlong(First, X)(t)) + Mul(r.y, TetAlong(First, Y)(t)) + Mul(r.z, TetAlong(First, Z)(t))
    {
      FirstAlongAt(r, t);
    }
  }

  lemma FirstAlongIsInner(faces: seq<Tri>, r: Vec)
    requires Closed(faces)
    ensures Sum(faces, FirstAlong(r)) == Inner(r, FirstSum(faces))
  {
    FirstAlongCombines(r);
    SumOfMultiples(faces, FirstAlong(r), r, TetAlong(First, X), TetAlong(First, Y), TetAlong(First, Z));
    IntegralIsFaceSum(faces, First, X);
    IntegralIsFaceSum(faces, First, Y);
    IntegralIsFaceSum(faces, First, Z);
  }

  lemma FirstOfImages(faces: seq<Tri>, m: Mat4, k: Axis)
    requires Closed(faces)
    ensures Integral(ImageAll(faces, m), First, k) == Mul(Determinant(m), Inner(RowOf(m, k), FirstSum(faces)))
  {
    var d, r := Determinant(m), RowOf(m, k);
    MappedIsClosed(faces, Linear(m));
    IntegralIsFaceSum(ImageAll(faces, m), First, k);
    FirstAlongIsInner(faces, r);
    forall t ensures TetAlong(First, k)(Image(t, m)) == Mul(d, FirstAlong(r)(t)) { FirstTermOfImage(m, t, k); }
    SumOfImages(faces, m, TetAlong(First, k), FirstAlong(r), d);
  }

  // ---------------------------------------------------------------- symmetric tensors

  /** A symmetric tensor by its six entries. */
  datatype Sym = Sym(xx: real, yy: real, zz: real, xy: real, yz: real, zx: real)

  /** The coefficients of the entries in the bilinear form at two directions. */
  function Pair(u: Vec, w: Vec): Sym {
    Sym(Mul(u.x, w.x), Mul(u.y, w.y), Mul(u.z, w.z),
        Mul(u.x, w.y) + Mul(u.y, w.x), Mul(u.y, w.z) + Mul(u.z, w.y), Mul(u.z, w.x) + Mul(u.x, w.z))
  }

  function Dot6(s: Sym, k: Sym): real {
    Mul(s.xx, k.xx) + Mul(s.yy, k.yy) + Mul(s.zz, k.zz) + Mul(s.xy, k.xy) + Mul(s.yz, k.yz) + Mul(s.zx, k.zx)
  }

  function Outer6(v: Vec): Sym {
    Sym(Square(v.x), Square(v.y), Square(v.z), Mul(v.x, v.y), Mul(v.y, v.z), Mul(v.z, v.x))
  }

  /** The tensor of a vector with itself, as a form. */
  lemma OuterForm(v: Vec, u: Vec, w: Vec)
    ensures Dot6(Outer6(v), Pair(u, w)) == Mul(Inner(u, v), Inner(w, v))
  {
    ProductOfInners(u, w, v, v);
    CommuteAll(v, v);
    MulCommutes(Square(v.x), Mul(u.x, w.x));
    MulCommutes(Square(v.y), Mul(u.y, w.y));
    MulCommutes(Square(v.z), Mul(u.z, w.z));
    OffDiagonal(Mul(v.x, v.y), Mul(u.x, w.y), Mul(u.y, w.x));
    OffDiagonal(Mul(v.y, v.z), Mul(u.y, w.z), Mul(u.z, w.y));
    OffDiagonal(Mul(v.z, v.x), Mul(u.z, w.x), Mul(u.x, w.z));
  }

  lemma OffDiagonal(a: real, p: real, q: real)
    ensures Mul(a, p + q) == Mul(p, a) + Mul(q, a)
  {
    MulSum(a, p, q, p + q);
  }

  function AddSym(s: Sym, t: Sym): Sym {
    Sym(s.xx + t.xx, s.yy + t.yy, s.zz + t.zz, s.xy + t.xy, s.yz + t.yz, s.zx + t.zx)
  }

  lemma DotOfSum(s: Sym, t: Sym, k: Sym)
    ensures Dot6(AddSym(s, t), k) == Dot6(s, k) + Dot6(t, k)
  {
    MulSum(k.xx, s.xx, t.xx, s.xx + t.xx);
    MulSum(k.yy, s.yy, t.yy, s.yy + t.yy);
    MulSum(k.zz, s.zz, t.zz, s.zz + t.zz);
    MulSum(k.xy, s.xy, t.xy, s.xy + t.xy);
    MulSum(k.yz, s.yz, t.yz, s.yz + t.yz);
    MulSum(k.zx, s.zx, t.zx, s.zx + t.zx);
  }

  function ScaleSym(c: real, s: Sym): Sym {
    Sym(Mul(c, s.xx), Mul(c, s.yy), Mul(c, s.zz), Mul(c, s.xy), Mul(c, s.yz), Mul(c, s.zx))
  }

  lemma DotOfScaled(c: real, s: Sym, k: Sym)
    ensures Dot6(ScaleSym(c, s), k) == Mul(c, Dot6(s, k))
  {
    var a, b :=
      Mul(s.xx, k.xx) + Mul(s.yy, k.yy) + Mul(s.zz, k.zz), Mul(s.xy, k.xy) + Mul(s.yz, k.yz) + Mul(s.zx, k.zx);
    MulSum(c, a, b, Dot6(s, k));
    MulSum3(c, Mul(s.xx, k.xx), Mul(s.yy, k.yy), Mul(s.zz, k.zz), a);
    MulSum3(c, Mul(s.xy, k.xy), Mul(s.yz, k.yz), Mul(s.zx, k.zx), b);
    MulSwap(c, s.xx, k.xx);
    MulSwap(c, s.yy, k.yy);
    MulSwap(c, s.zz, k.zz);
    MulSwap(c, s.xy, k.xy);
    MulSwap(c, s.yz, k.yz);
    MulSwap(c, s.zx, k.zx);
  }

  // ---------------------------------------------------------------- second moments

  /** What one face contributes to the second moments, per unit of its determinant. */
  function FaceTensor(t: Tri): Sym {
    AddSym(Outer6(Total(t)), AddSym(Outer6(t.a), AddSym(Outer6(t.b), Outer6(t.c))))
  }

  function FaceForm(u: Vec, w: Vec, t: Tri): real {
    var s := Total(t);
    Mul(Inner(u, s), Inner(w, s)) + Mul(Inner(u, t.a), Inner(w, t.a))
    + Mul(Inner(u, t.b), Inner(w, t.b)) + Mul(Inner(u, t.c), Inner(w, t.c))
  }

  lemma FaceFormIsDot(t: Tri, u: Vec, w: Vec)
    ensures Dot6(FaceTensor(t), Pair(u, w)) == FaceForm(u, w, t)
  {
    var k := Pair(u, w);
    DotOfSum(Outer6(t.b), Outer6(t.c), k);
    DotOfSum(Outer6(t.a), AddSym(Outer6(t.b), Outer6(t.c)), k);
    DotOfSum(Outer6(Total(t)), AddSym(Outer6(t.a), AddSym(Outer6(t.b), Outer6(t.c))), k);
    OuterForm(Total(t), u, w);
    OuterForm(t.a, u, w);
    OuterForm(t.b, u, w);
    OuterForm(t.c, u, w);
  }

  /** Twice the density of a second moment is a sum of squares. */
  lemma TwiceF2(p: real, q: real, r: real)
    ensures 2.0 * F2(p, q, r) == Square(p + q + r) + Square(p) + Square(q) + Square(r)
  {
    var f := F1(p, q, r);
    SquareOfThree(p, q, r, f);
    MulSum(q, p, q, p + q);
    MulSum3(r, p, q, r, f);
    MulCommutes(q, p);
    MulCommutes(r, p);
    MulCommutes(r, q);
  }

  /** The entries of a face's tensor are the densities of the integrals. */
  lemma FaceTensorIsDensity(t: Tri)
    ensures FaceTensor(t) == Sym(
      2.0 * Tet.Density(Second, Turned(t, X)),
      2.0 * Tet.Density(Second, Turned(t, Y)),
      2.0 * Tet.Density(Second, Turned(t, Z)),
      Tet.Density(Product, Turned(t, X)), Tet.Density(Product, Turned(t, Y)), Tet.Density(Product, Turned(t, Z)))
  {
    TwiceF2(t.a.x, t.b.x, t.c.x);
    TwiceF2(t.a.y, t.b.y, t.c.y);
    TwiceF2(t.a.z, t.b.z, t.c.z);
  }

  const ZeroSym: Sym := Sym(0.0, 0.0, 0.0, 0.0, 0.0, 0.0)

  function SumSym(faces: seq<Tri>, f: Tri -> Sym): Sym {
    if faces == [] then ZeroSym else AddSym(SumSym(faces[..|faces| - 1], f), f(faces[|faces| - 1]))
  }

  /** A linear reading of tensors commutes with the sum. */
  lemma {:induction false} ReadSum(faces: seq<Tri>, f: Tri -> Sym, read: Sym -> real, g: Tri -> real)
    requires Additive(read) && Reads(f, read, g)
    ensures Sum(faces, g) == read(SumSym(faces, f))
  {
    if faces != [] {
      var init, t := faces[..|faces| - 1], faces[|faces| - 1];
      ReadSum(init, f, read, g);
      assert read(AddSym(SumSym(init, f), f(t))) == read(SumSym(init, f)) + read(f(t));
    }
  }

  ghost predicate Additive(read: Sym -> real) {
    read(ZeroSym) == 0.0 && forall s, t :: read(AddSym(s, t)) == read(s) + read(t)
  }

  ghost predicate Reads(f: Tri -> Sym, read: Sym -> real, g: Tri -> real) { forall t :: g(t) == read(f(t)) }

  /** A face's tensor times its determinant. */
  function WeightedTensor(): Tri -> Sym { (t: Tri) => ScaleSym(Tet.Det(t), FaceTensor(t)) }

  function TensorSum(faces: seq<Tri>): Sym { SumSym(faces, WeightedTensor()) }

  // ---------------------------------------------------------------- three readings

  function FormTerm(u: Vec, w: Vec): Tri -> real { (t: Tri) => Mul(Tet.Det(t), FaceForm(u, w, t)) }

  function FormAt(k: Sym): Sym -> real { (s: Sym) => Dot6(s, k) }

  lemma FormIsAdditive(k: Sym)
    ensures Additive(FormAt(k))
  {
    forall s, t ensures FormAt(k)(AddSym(s, t)) == FormAt(k)(s) + FormAt(k)(t) { DotOfSum(s, t, k); }
    DotOfZero(k);
  }

  lemma DotOfZero(k: Sym)
    ensures Dot6(ZeroSym, k) == 0.0
  {
    MulOfZero(k.xx);
    MulOfZero(k.yy);
    MulOfZero(k.zz);
    MulOfZero(k.xy);
    MulOfZero(k.yz);
    MulOfZero(k.zx);
  }

  lemma FormReads(u: Vec, w: Vec)
    ensures Reads(WeightedTensor(), FormAt(Pair(u, w)), FormTerm(u, w))
  {
    forall t ensures FormTerm(u, w)(t) == FormAt(Pair(u, w))(WeightedTensor()(t)) {
      FaceFormIsDot(t, u, w);
      DotOfScaled(Tet.Det(t), FaceTensor(t), Pair(u, w));
    }
  }

  lemma FormSum(faces: seq<Tri>, u: Vec, w: Vec)
    ensures Sum(faces, FormTerm(u, w)) == Dot6(TensorSum(faces), Pair(u, w))
  {
    FormIsAdditive(Pair(u, w));
    FormReads(u, w);
    ReadSum(faces, WeightedTensor(), FormAt(Pair(u, w)), FormTerm(u, w));
  }

  function Trace6(s: Sym): real { s.xx + s.yy + s.zz }

  function TraceAt(): Sym -> real { (s: Sym) => Trace6(s) }

  function FaceTrace(t: Tri): real { Norm2(Total(t)) + Norm2(t.a) + Norm2(t.b) + Norm2(t.c) }

  function TraceTerm(): Tri -> real { (t: Tri) => Mul(Tet.Det(t), FaceTrace(t)) }

  lemma TraceReads()
    ensures Reads(WeightedTensor(), TraceAt(), TraceTerm()) && Additive(TraceAt())
  {
    forall t ensures TraceTerm()(t) == TraceAt()(WeightedTensor()(t)) {
      var f := FaceTensor(t);
      MulSum3(Tet.Det(t), f.xx, f.yy, f.zz, FaceTrace(t));
    }
  }

  lemma TraceSum(faces: seq<Tri>)
    ensures Sum(faces, TraceTerm()) == Trace6(TensorSum(faces))
  {
    TraceReads();
    ReadSum(faces, WeightedTensor(), TraceAt(), TraceTerm());
  }

  // ---------------------------------------------------------------- the tensor of a turned mesh

  lemma FormOfImage(m: Mat4, u: Vec, w: Vec, t: Tri)
    requires KeepsNorm(m)
    ensures FaceForm(Spin(m, u), Spin(m, w), Image(t, m)) == FaceForm(u, w, t)
  {
    TotalOfImage(m, t);
    KeepsInner(m, u, Total(t));
    KeepsInner(m, u, t.a);
    KeepsInner(m, u, t.b);
    KeepsInner(m, u, t.c);
    KeepsInner(m, w, Total(t));
    KeepsInner(m, w, t.a);
    KeepsInner(m, w, t.b);
    KeepsInner(m, w, t.c);
  }

  lemma TraceOfImage(m: Mat4, t: Tri)
    requires KeepsNorm(m)
    ensures FaceTrace(Image(t, m)) == FaceTrace(t)
  {
    TotalOfImage(m, t);
    assert Norm2(Spin(m, Total(t))) == Norm2(Total(t));
    assert Norm2(Spin(m, t.a)) == Norm2(t.a) && Norm2(Spin(m, t.b)) == Norm2(t.b) && Norm2(Spin(m, t.c)) == Norm2(t.c);
  }

  /** Turned with the mesh, the second-moment form is multiplied by the determinant. */
  lemma FormOfImages(faces: seq<Tri>, m: Mat4, u: Vec, w: Vec)
    requires KeepsNorm(m)
    ensures Dot6(TensorSum(ImageAll(faces, m)), Pair(Spin(m, u), Spin(m, w)))
      == Mul(Determinant(m), Dot6(TensorSum(faces), Pair(u, w)))
  {
    var u', w', d := Spin(m, u), Spin(m, w), Determinant(m);
    FormSum(faces, u, w);
    FormSum(ImageAll(faces, m), u', w');
    forall t ensures FormTerm(u', w')(Image(t, m)) == Mul(d, FormTerm(u, w)(t)) {
      FormOfImage(m, u, w, t);
      WeightedImage(m, t, FaceForm(u, w, t));
    }
    SumOfImages(faces, m, FormTerm(u', w'), FormTerm(u, w), d);
  }

  lemma TraceOfImages(faces: seq<Tri>, m: Mat4)
    requires KeepsNorm(m)
    ensures Trace6(TensorSum(ImageAll(faces, m))) == Mul(Determinant(m), Trace6(TensorSum(faces)))
  {
    TraceSum(faces);
    TraceSum(ImageAll(faces, m));
    forall t ensures TraceTerm()(Image(t, m)) == Mul(Determinant(m), TraceTerm()(t)) {
      TraceOfImage(m, t);
      WeightedImage(m, t, FaceTrace(t));
    }
    SumOfImages(faces, m, TraceTerm(), TraceTerm(), Determinant(m));
  }

  // ---------------------------------------------------------------- the tensor as integrals

  /** The second integrals and products of a mesh. */
  function IntegralTensor(faces: seq<Tri>): Sym {
    Sym(2.0 * Integral(faces, Second, X), 2.0 * Integral(faces, Second, Y), 2.0 * Integral(faces, Second, Z),
        Integral(faces, Product, X), Integral(faces, Product, Y), Integral(faces, Product, Z))
  }

  /** One entry of a tensor. */
  function EntryOf(s: Sym, kind: Kind, k: Axis): real {
    match (kind, k)
    case (Second, X) => s.xx
    case (Second, Y) => s.yy
    case (Second, Z) => s.zz
    case (_, X) => s.xy
    case (_, Y) => s.yz
    case (_, Z) => s.zx
  }

  function EntryAt(kind: Kind, k: Axis): Sym -> real { (s: Sym) => EntryOf(s, kind, k) }

  function Multiplicity(kind: Kind): real { if kind == Second then 2.0 else 1.0 }

  function EntryTerm(kind: Kind, k: Axis): Tri -> real { (t: Tri) => Mul(Multiplicity(kind), TetAlong(kind, k)(t)) }

  lemma EntryReads(kind: Kind, k: Axis)
    requires kind == Second || kind == Product
    ensures Reads(WeightedTensor(), EntryAt(kind, k), EntryTerm(kind, k)) && Additive(EntryAt(kind, k))
  {
    forall t ensures EntryTerm(kind, k)(t) == EntryAt(kind, k)(WeightedTensor()(t)) { EntryTermAt(kind, k, t); }
  }

  lemma EntryScaled(c: real, s: Sym, kind: Kind, k: Axis)
    ensures EntryOf(ScaleSym(c, s), kind, k) == Mul(c, EntryOf(s, kind, k))
  {
  }

  lemma EntryDensity(t: Tri, kind: Kind, k: Axis)
    requires kind == Second || kind == Product
    ensures EntryOf(FaceTensor(t), kind, k)
      == if kind == Second then 2.0 * Tet.Density(kind, Turned(t, k)) else Tet.Density(kind, Turned(t, k))
  {
    FaceTensorIsDensity(t);
  }

  lemma WithMultiplicity(kind: Kind, d: real, x: real, e: real)
    requires e == if kind == Second then 2.0 * x else x
    ensures Mul(Multiplicity(kind), Mul(d, x)) == Mul(d, e)
  {
    if kind == Second { MulTwice(x, d, e); }
  }

  lemma EntryTermAt(kind: Kind, k: Axis, t: Tri)
    requires kind == Second || kind == Product
    ensures EntryTerm(kind, k)(t) == EntryAt(kind, k)(WeightedTensor()(t))
  {
    var d, x, f := Tet.Det(t), Tet.Density(kind, Turned(t, k)), FaceTensor(t);
    EntryScaled(d, f, kind, k);
    EntryDensity(t, kind, k);
    WithMultiplicity(kind, d, x, EntryOf(f, kind, k));
    assert TetAlong(kind, k)(t) == Mul(d, x);
    assert EntryTerm(kind, k)(t) == Mul(Multiplicity(kind), Mul(d, x));
    assert EntryAt(kind, k)(WeightedTensor()(t)) == EntryOf(ScaleSym(d, f), kind, k);
  }

  function Doubled(kind: Kind, x: real): real { if kind == Second then 2.0 * x else x }

  lemma EntrySum(faces: seq<Tri>, kind: Kind, k: Axis)
    requires kind == Second || kind == Product
    ensures EntryOf(TensorSum(faces), kind, k) == Mul(Multiplicity(kind), Sum(faces, TetAlong(kind, k)))
  {
    EntryReads(kind, k);
    ReadSum(faces, WeightedTensor(), EntryAt(kind, k), EntryTerm(kind, k));
    SumOfScaled(faces, EntryTerm(kind, k), Multiplicity(kind), TetAlong(kind, k));
  }

  lemma Multiplied(kind: Kind, x: real)
    ensures Mul(Multiplicity(kind), x) == Doubled(kind, x)
  {
  }

  lemma EntryIsIntegral(faces: seq<Tri>, kind: Kind, k: Axis)
    requires Closed(faces) && (kind == Second || kind == Product)
    ensures EntryOf(TensorSum(faces), kind, k) == Doubled(kind, Integral(faces, kind, k))
  {
    EntrySum(faces, kind, k);
    IntegralIsFaceSum(faces, kind, k);
    Multiplied(kind, Integral(faces, kind, k));
  }

  lemma IntegralEntry(faces: seq<Tri>, kind: Kind, k: Axis)
    requires kind == Second || kind == Product
    ensures EntryOf(IntegralTensor(faces), kind, k) == Doubled(kind, Integral(faces, kind, k))
  {
  }

  lemma SameEntries(s: Sym, t: Sym)
    requires forall kind, k :: kind == Second || kind == Product ==> EntryOf(s, kind, k) == EntryOf(t, kind, k)
    ensures s == t
  {
    assert EntryOf(s, Second, X) == EntryOf(t, Second, X) && EntryOf(s, Second, Y) == EntryOf(t, Second, Y);
    assert EntryOf(s, Second, Z) == EntryOf(t, Second, Z) && EntryOf(s, Product, X) == EntryOf(t, Product, X);
    assert EntryOf(s, Product, Y) == EntryOf(t, Product, Y) && EntryOf(s, Product, Z) == EntryOf(t, Product, Z);
  }

  lemma TensorIsIntegrals(faces: seq<Tri>)
    requires Closed(faces)
    ensures TensorSum(faces) == IntegralTensor(faces)
  {
    var s, t := TensorSum(faces), IntegralTensor(faces);
    forall kind, k | kind == Second || kind == Product ensures EntryOf(s, kind, k) == EntryOf(t, kind, k) {
      EntryIsIntegral(faces, kind, k);
      IntegralEntry(faces, kind, k);
    }
    SameEntries(s, t);
  }

  // ---------------------------------------------------------------- about the centre of mass

  /** The inertia tensor as a form on two directions. */
  function Inertia(p: MassProperties, u: Vec, w: Vec): real {
    Dot6(Sym(p.moments.x, p.moments.y, p.moments.z, p.products.x, p.products.y, p.products.z), Pair(u, w))
  }

  function Diagonal(t: real): Sym { Sym(t, t, t, 0.0, 0.0, 0.0) }

  lemma DotOfDiagonal(t: real, u: Vec, w: Vec)
    ensures Dot6(Diagonal(t), Pair(u, w)) == Mul(t, Inner(u, w))
  {
    var k := Pair(u, w);
    MulOfZero(k.xy);
    MulOfZero(k.yz);
    MulOfZero(k.zx);
    MulSum3(t, k.xx, k.yy, k.zz, Inner(u, w));
  }

  /** The scaled second moments and products as a tensor. */
  function MomentTensor(s: Vec, p: Vec): Sym { Sym(s.x, s.y, s.z, p.x, p.y, p.z) }

  /** The trace of the second moments about the centre of mass. */
  function CentralTrace(v: real, c: Vec, s: Sym): real { Trace6(s) - Mul(v, Norm2(c)) }

  lemma InertiaTensor(v: real, m: Vec, s: Vec, p: Vec, c: Vec)
    requires c == CentreOf(v, m)
    ensures var q := AboutCentre(v, m, s, p); var t := MomentTensor(s, p);
      Sym(q.moments.x, q.moments.y, q.moments.z, q.products.x, q.products.y, q.products.z)
      == AddSym(Diagonal(CentralTrace(v, c, t)), AddSym(ScaleSym(-1.0, t), ScaleSym(v, Outer6(c))))
  {
    MulSum3(v, Square(c.x), Square(c.y), Square(c.z), Norm2(c));
    SplitMoments(v, c);
    MulSwap(v, c.x, c.y);
    MulSwap(v, c.y, c.z);
    CommuteCentre(v, c.z, c.x);
    MulSwap(v, c.z, c.x);
    MinusOne(s);
    MinusOne(p);
  }

  lemma MinusOne(s: Vec)
    ensures Mul(-1.0, s.x) == -s.x && Mul(-1.0, s.y) == -s.y && Mul(-1.0, s.z) == -s.z
  {
  }

  /** The inertia form, free of coordinates. */
  function CentralForm(v: real, c: Vec, s: Sym, u: Vec, w: Vec): real {
    Mul(CentralTrace(v, c, s), Inner(u, w)) - Dot6(s, Pair(u, w)) + Mul(v, Mul(Inner(u, c), Inner(w, c)))
  }

  lemma InertiaIsCentralForm(v: real, m: Vec, s: Vec, p: Vec, u: Vec, w: Vec)
    ensures Inertia(AboutCentre(v, m, s, p), u, w) == CentralForm(v, CentreOf(v, m), MomentTensor(s, p), u, w)
  {
    var c, t, k := CentreOf(v, m), MomentTensor(s, p), Pair(u, w);
    var d := Diagonal(CentralTrace(v, c, t));
    InertiaTensor(v, m, s, p, c);
    DotOfSum(d, AddSym(ScaleSym(-1.0, t), ScaleSym(v, Outer6(c))), k);
    DotOfSum(ScaleSym(-1.0, t), ScaleSym(v, Outer6(c)), k);
    DotOfDiagonal(CentralTrace(v, c, t), u, w);
    DotOfScaled(-1.0, t, k);
    DotOfScaled(v, Outer6(c), k);
    OuterForm(c, u, w);
    assert Mul(-1.0, Dot6(t, k)) == -Dot6(t, k);
  }

  /** Turned with the mesh, the inertia form is multiplied by the determinant. */
  lemma CentralFormTurns(m: Mat4, d: real, v: real, c: Vec, s: Sym, v': real, s': Sym, u: Vec, w: Vec)
    requires KeepsNorm(m) && v' == Mul(d, v) && Trace6(s') == Mul(d, Trace6(s))
    requires Dot6(s', Pair(Spin(m, u), Spin(m, w))) == Mul(d, Dot6(s, Pair(u, w)))
    ensures CentralForm(v', Spin(m, c), s', Spin(m, u), Spin(m, w)) == Mul(d, CentralForm(v, c, s, u, w))
  {
    var t, a, q := CentralTrace(v, c, s), Inner(u, w), Mul(Inner(u, c), Inner(w, c));
    KeepsInner(m, u, w);
    KeepsInner(m, u, c);
    KeepsInner(m, w, c);
    assert Norm2(Spin(m, c)) == Norm2(c);
    MulSwap(d, v, Norm2(c));
    MulDifference(d, Trace6(s), Mul(v, Norm2(c)), t);
    MulSwap(d, t, a);
    MulSwap(d, v, q);
    var f := Dot6(s, Pair(u, w));
    MulDifference(d, Mul(t, a), f, Mul(t, a) - f);
    MulSum(d, Mul(t, a) - f, Mul(v, q), Mul(t, a) - f + Mul(v, q));
  }

  lemma QuotientIs(a: real, b: real, q: real)
    requires b != 0.0 && Mul(b, q) == a
    ensures a / b == q
  {
    assert b * (a / b) == b * q;
  }

  lemma CentreCoordinate(d: real, v: real, m: Vec, c: Vec, r: Vec, x: real)
    requires
      d != 0.0 && v != 0.0 && Mul(v, c.x) == m.x && Mul(v, c.y) == m.y && Mul(v, c.z) == m.z && x == Mul(d, Inner(r, m))
    ensures Mul(d, v) != 0.0 && x / Mul(d, v) == Inner(r, c)
  {
    WeightedRow(v, r, c);
    MulSwap(d, v, Inner(r, c));
    assert d * v != 0.0;
    QuotientIs(x, Mul(d, v), Inner(r, c));
  }

  lemma CentreTimes(v: real, m: Vec, c: Vec)
    requires Abs(v) > Negligible && c == CentreOf(v, m)
    ensures Mul(v, c.x) == m.x && Mul(v, c.y) == m.y && Mul(v, c.z) == m.z
  {
  }

  /** The centre of mass turns with the mesh. */
  lemma CentreTurns(n: Mat4, d: real, v: real, m: Vec, v': real, m': Vec)
    requires (d == 1.0 || d == -1.0) && Abs(v) > Negligible && v' == Mul(d, v)
    requires m' == Vec(Mul(d, Inner(RowOf(n, X), m)), Mul(d, Inner(RowOf(n, Y), m)), Mul(d, Inner(RowOf(n, Z), m)))
    ensures Abs(v') == Abs(v) && CentreOf(v', m') == Spin(n, CentreOf(v, m))
  {
    var c := CentreOf(v, m);
    CentreTimes(v, m, c);
    CentreCoordinate(d, v, m, c, RowOf(n, X), m'.x);
    CentreCoordinate(d, v, m, c, RowOf(n, Y), m'.y);
    CentreCoordinate(d, v, m, c, RowOf(n, Z), m'.z);
    RowAgainst(n, c, X);
    RowAgainst(n, c, Y);
    RowAgainst(n, c, Z);
    if d == -1.0 { MulNegated(1.0, v, d); }
    MulOfOne(v);
  }

  // ---------------------------------------------------------------- the turned mesh

  /** The ten integrals as a volume, a vector and a tensor. */
  predicate Grouped(i: seq<real>, v: real, f: Vec, t: Sym) {
    && |i| == 10 && v == i[0] && f == Vec(i[1], i[2], i[3])
    && t == Sym(2.0 * i[4], 2.0 * i[5], 2.0 * i[6], i[7], i[8], i[9])
  }

  lemma IntegralsAreGrouped(faces: seq<Tri>, i: seq<real>)
    requires i == Integrals(faces)
    ensures Grouped(i, Integral(faces, Volume, X), FirstSum(faces), IntegralTensor(faces))
  {
    FirstsAreGrouped(faces, i);
    SecondsAreGrouped(faces, i);
    IntegralAt(faces, i, 0, Volume, X);
  }

  lemma FirstsAreGrouped(faces: seq<Tri>, i: seq<real>)
    requires i == Integrals(faces)
    ensures |i| == 10 && FirstSum(faces) == Vec(i[1], i[2], i[3])
  {
    IntegralAt(faces, i, 1, First, X);
    IntegralAt(faces, i, 2, First, Y);
    IntegralAt(faces, i, 3, First, Z);
  }

  lemma EntryOfGroup(faces: seq<Tri>, i: seq<real>, n: nat, kind: Kind, k: Axis)
    requires i == Integrals(faces) && n < 10 && Slot(n) == (kind, k) && (kind == Second || kind == Product)
    ensures |i| == 10 && EntryOf(IntegralTensor(faces), kind, k) == Doubled(kind, i[n])
  {
    IntegralAt(faces, i, n, kind, k);
    IntegralEntry(faces, kind, k);
  }

  lemma SecondsAreGrouped(faces: seq<Tri>, i: seq<real>)
    requires i == Integrals(faces)
    ensures |i| == 10 && IntegralTensor(faces) == Sym(2.0 * i[4], 2.0 * i[5], 2.0 * i[6], i[7], i[8], i[9])
  {
    EntryOfGroup(faces, i, 4, Second, X);
    EntryOfGroup(faces, i, 5, Second, Y);
    EntryOfGroup(faces, i, 6, Second, Z);
    EntryOfGroup(faces, i, 7, Product, X);
    EntryOfGroup(faces, i, 8, Product, Y);
    EntryOfGroup(faces, i, 9, Product, Z);
    EntriesOf(IntegralTensor(faces));
  }

  lemma EntriesOf(t: Sym)
    ensures t
      == Sym(EntryOf(t, Second, X), EntryOf(t, Second, Y), EntryOf(t, Second, Z), EntryOf(t, Product, X),
        EntryOf(t, Product, Y), EntryOf(t, Product, Z))
  {
  }

  /** A sixth, a twenty-fourth and a hundred-and-twentieth of the grouped integrals. */
  predicate Portioned(v: real, f: Vec, t: Sym, v': real, f': Vec, t': Sym) {
    && v' == v * (1.0 / 6.0) && f' == Vec(f.x * (1.0 / 24.0), f.y * (1.0 / 24.0), f.z * (1.0 / 24.0))
    && t' == ScaleSym(1.0 / 120.0, t)
  }

  lemma FromGrouped(i: seq<real>, v: real, f: Vec, t: Sym, v': real, f': Vec, t': Sym)
    requires Grouped(i, v, f, t) && Portioned(v, f, t, v', f', t')
    ensures FromIntegrals(i) == AboutCentre(v', f', Vec(t'.xx, t'.yy, t'.zz), Vec(t'.xy, t'.yz, t'.zx))
  {
  }

  /** How the grouped integrals of a turned mesh relate to those of the mesh. */
  ghost predicate GroupTurned(m: Mat4, v: real, f: Vec, t: Sym, v': real, f': Vec, t': Sym) {
    && v' == Mul(Determinant(m), v)
    && f'
       == Vec(Mul(Determinant(m), Inner(RowOf(m, X), f)), Mul(Determinant(m), Inner(RowOf(m, Y), f)),
         Mul(Determinant(m), Inner(RowOf(m, Z), f)))
    && Trace6(t') == Mul(Determinant(m), Trace6(t))
    && FormsTurned(m, t, t')
  }

  ghost predicate FormsTurned(m: Mat4, t: Sym, t': Sym) {
    forall u, w :: Dot6(t', Pair(Spin(m, u), Spin(m, w))) == Mul(Determinant(m), Dot6(t, Pair(u, w)))
  }

  lemma IntegralsTurn(faces: seq<Tri>, m: Mat4)
    requires Closed(faces) && KeepsNorm(m)
    ensures var image := ImageAll(faces, m);
      GroupTurned(m, Integral(faces, Volume, X), FirstSum(faces), IntegralTensor(faces),
        Integral(image, Volume, X), FirstSum(image), IntegralTensor(image))
  {
    MappedIsClosed(faces, Linear(m));
    TensorIsIntegrals(faces);
    TensorIsIntegrals(ImageAll(faces, m));
    VolumeOfImages(faces, m);
    FirstOfImages(faces, m, X);
    FirstOfImages(faces, m, Y);
    FirstOfImages(faces, m, Z);
    TraceOfImages(faces, m);
    TensorsTurn(faces, m);
  }

  lemma TensorsTurn(faces: seq<Tri>, m: Mat4)
    requires KeepsNorm(m)
    ensures FormsTurned(m, TensorSum(faces), TensorSum(ImageAll(faces, m)))
  {
    var t, t' := TensorSum(faces), TensorSum(ImageAll(faces, m));
    forall u, w ensures Dot6(t', Pair(Spin(m, u), Spin(m, w))) == Mul(Determinant(m), Dot6(t, Pair(u, w))) {
      FormOfImages(faces, m, u, w);
    }
  }

  lemma ScaledRow(d: real, r: Vec, f: Vec, g: Vec)
    requires g == Vec(f.x * (1.0 / 24.0), f.y * (1.0 / 24.0), f.z * (1.0 / 24.0))
    ensures Mul(d, Inner(r, f)) * (1.0 / 24.0) == Mul(d, Inner(r, g))
  {
    Portion(r.x, f.x);
    Portion(r.y, f.y);
    Portion(r.z, f.z);
    Portion(d, Inner(r, f));
  }

  lemma TraceOfScaled(c: real, s: Sym)
    ensures Trace6(ScaleSym(c, s)) == Mul(c, Trace6(s))
  {
    MulSum3(c, s.xx, s.yy, s.zz, Trace6(s));
  }

  lemma FormsTurnScaled(m: Mat4, c: real, t: Sym, t': Sym)
    requires FormsTurned(m, t, t')
    ensures FormsTurned(m, ScaleSym(c, t), ScaleSym(c, t'))
  {
    var d := Determinant(m);
    forall u, w
      ensures Dot6(ScaleSym(c, t'), Pair(Spin(m, u), Spin(m, w))) == Mul(d, Dot6(ScaleSym(c, t), Pair(u, w)))
    {
      DotOfScaled(c, t', Pair(Spin(m, u), Spin(m, w)));
      DotOfScaled(c, t, Pair(u, w));
      assert Dot6(t', Pair(Spin(m, u), Spin(m, w))) == Mul(d, Dot6(t, Pair(u, w)));
      MulSwap(c, d, Dot6(t, Pair(u, w)));
    }
  }

  /** The relation survives the scaling. */
  lemma PortionsTurn(m: Mat4, v: real, f: Vec, t: Sym, v': real, f': Vec, t': Sym,
                     pv: real, pf: Vec, pt: Sym, pv': real, pf': Vec, pt': Sym)
    requires
      GroupTurned(m, v, f, t, v', f', t') && Portioned(v, f, t, pv, pf, pt) && Portioned(v', f', t', pv', pf', pt')
    ensures GroupTurned(m, pv, pf, pt, pv', pf', pt')
  {
    var d, c := Determinant(m), 1.0 / 120.0;
    Portion(d, v);
    ScaledRow(d, RowOf(m, X), f, pf);
    ScaledRow(d, RowOf(m, Y), f, pf);
    ScaledRow(d, RowOf(m, Z), f, pf);
    TraceOfScaled(c, t);
    TraceOfScaled(c, t');
    MulSwap(c, d, Trace6(t));
    FormsTurnScaled(m, c, t, t');
  }

  /** How mass properties relate to those of a moved body: the centre moved by the map, the
      inertia form turned, both up to the sign of the determinant. */
  ghost predicate Carried(m: Mat4, before: MassProperties, after: MassProperties, com: Vec) {
    && after.com == com
    && forall u, w :: Inertia(after, Spin(m, u), Spin(m, w)) == Mul(Determinant(m), Inertia(before, u, w))
  }

  /** The centre and the inertia read from turned integrals. */
  lemma AboutCentreTurns(m: Mat4, v: real, f: Vec, t: Sym, v': real, f': Vec, t': Sym, before: MassProperties,
                         after: MassProperties)
    requires KeepsNorm(m) && GroupTurned(m, v, f, t, v', f', t') && Abs(v) > Negligible
    requires before == AboutCentre(v, f, Vec(t.xx, t.yy, t.zz), Vec(t.xy, t.yz, t.zx))
    requires after == AboutCentre(v', f', Vec(t'.xx, t'.yy, t'.zz), Vec(t'.xy, t'.yz, t'.zx))
    ensures Carried(m, before, after, Spin(m, before.com))
  {
    var d := Determinant(m);
    DeterminantIsUnit(m);
    CentreTurns(m, d, v, f, v', f');
    forall u, w ensures Inertia(after, Spin(m, u), Spin(m, w)) == Mul(d, Inertia(before, u, w)) {
      InertiaIsCentralForm(v, f, Vec(t.xx, t.yy, t.zz), Vec(t.xy, t.yz, t.zx), u, w);
      InertiaIsCentralForm(v', f', Vec(t'.xx, t'.yy, t'.zz), Vec(t'.xy, t'.yz, t'.zx), Spin(m, u), Spin(m, w));
      CentralFormTurns(m, d, v, CentreOf(v, f), t, v', t', u, w);
    }
  }

  lemma PortionsOf(v: real, f: Vec, t: Sym) returns (pv: real, pf: Vec, pt: Sym)
    ensures Portioned(v, f, t, pv, pf, pt)
  {
    pv, pf, pt :=
      v * (1.0 / 6.0), Vec(f.x * (1.0 / 24.0), f.y * (1.0 / 24.0), f.z * (1.0 / 24.0)), ScaleSym(1.0 / 120.0, t);
  }

  /** The mass properties of a turned mesh. */
  ghost predicate Turning(m: Mat4, before: MassProperties, after: MassProperties) {
    && after.volume == Mul(Determinant(m), before.volume)
    && (Abs(before.volume) > Negligible ==> Carried(m, before, after, Spin(m, before.com)))
  }

  lemma PropertiesTurn(m: Mat4, i: seq<real>, v: real, f: Vec, t: Sym, i': seq<real>, v': real, f': Vec, t': Sym)
    requires KeepsNorm(m) && Grouped(i, v, f, t) && Grouped(i', v', f', t') && GroupTurned(m, v, f, t, v', f', t')
    ensures Turning(m, FromIntegrals(i), FromIntegrals(i'))
  {
    var pv, pf, pt := PortionsOf(v, f, t);
    var pv', pf', pt' := PortionsOf(v', f', t');
    FromGrouped(i, v, f, t, pv, pf, pt);
    FromGrouped(i', v', f', t', pv', pf', pt');
    PortionsTurn(m, v, f, t, v', f', t', pv, pf, pt, pv', pf', pt');
    if Abs(pv) > Negligible {
      AboutCentreTurns(m, pv, pf, pt, pv', pf', pt', FromIntegrals(i), FromIntegrals(i'));
    }
  }

  lemma MassPropertiesTurn(faces: seq<Tri>, m: Mat4)
    requires Closed(faces) && KeepsNorm(m)
    ensures Turning(m, PropertiesOf(faces), PropertiesOf(ImageAll(faces, m)))
  {
    var image := ImageAll(faces, m);
    IntegralsAreGrouped(faces, Integrals(faces));
    IntegralsAreGrouped(image, Integrals(image));
    IntegralsTurn(faces, m);
    PropertiesTurn(m, Integrals(faces), Integral(faces, Volume, X), FirstSum(faces), IntegralTensor(faces),
      Integrals(image), Integral(image, Volume, X), FirstSum(image), IntegralTensor(image));
  }

  // ---------------------------------------------------------------- rigid motions

  lemma WorldIsShiftedImage(faces: seq<Tri>, m: Mat4)
    ensures MapAll(faces, WorldMap(m)) == ShiftAll(ImageAll(faces, m), Shift(m))
  {
    forall i | 0 <= i < |faces|
      ensures MapTri(faces[i], WorldMap(m)) == MapTri(Image(faces[i], m), ShiftMap(Shift(m)))
    {
      PointIsSpin(m, faces[i].a);
      PointIsSpin(m, faces[i].b);
      PointIsSpin(m, faces[i].c);
    }
  }

  /** Under any rigid motion of a closed mesh the volume is kept up to the sign of the motion's
      determinant; unless it is negligible the centre of mass moves with the mesh and the inertia
      tensor about it turns with it, again up to that sign. */
  lemma MassPropertiesCarried(faces: seq<Tri>, m: Mat4)
    requires Closed(faces) && Rigid(m)
    ensures Determinant(m) == 1.0 || Determinant(m) == -1.0
    ensures var before, after := PropertiesOf(faces), PropertiesOf(MapAll(faces, WorldMap(m)));
      && after.volume == Mul(Determinant(m), before.volume)
      && (Abs(before.volume) > Negligible ==> Carried(m, before, after, TransformPoint(m, before.com)))
  {
    var image := ImageAll(faces, m);
    var before, turned, after := PropertiesOf(faces), PropertiesOf(image), PropertiesOf(MapAll(faces, WorldMap(m)));
    DeterminantIsUnit(m);
    MassPropertiesTurn(faces, m);
    MappedIsClosed(faces, Linear(m));
    WorldIsShiftedImage(faces, m);
    MassPropertiesMove(image, Shift(m));
    UnitMagnitude(Determinant(m), before.volume);
    PointIsSpin(m, before.com);
    if Abs(before.volume) > Negligible {
      SameInertia(turned, after);
      forall u, w ensures Inertia(after, Spin(m, u), Spin(m, w)) == Mul(Determinant(m), Inertia(before, u, w)) {
        assert Inertia(turned, Spin(m, u), Spin(m, w)) == Mul(Determinant(m), Inertia(before, u, w));
      }
    }
  }

  lemma UnitMagnitude(d: real, v: real)
    requires d == 1.0 || d == -1.0
    ensures Abs(Mul(d, v)) == Abs(v)
  {
  }

  lemma SameInertia(p: MassProperties, q: MassProperties)
    requires p.moments == q.moments && p.products == q.products
    ensures forall u, w :: Inertia(p, u, w) == Inertia(q, u, w)
  {
  }
}
