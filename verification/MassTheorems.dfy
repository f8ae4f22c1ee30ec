/** Mass properties of closed meshes: they are sums over signed tetrahedra, they move with the
    mesh, and reversing the faces negates them. */
module MassTheorems {
  import opened TriangleTest
  import opened ClosedMesh
  import opened MassProps
  import opened MassIdentities
  import opened MassShift
  import opened RealProduct

  function KernelOf(kind: Kind): Tri -> real { (t: Tri) => Kernel(kind, t) }

  /** An integral along x. */
  function Moment(faces: seq<Tri>, kind: Kind): real { Sum(faces, KernelOf(kind)) }

  // ---------------------------------------------------------------- signed tetrahedra

  /** The tetrahedron of a face and the origin: its determinant times a density. */
  function TetTerm(kind: Kind): Tri -> real { (t: Tri) => Mul(Det(t), Density(kind, t)) }

  function EdgeMap(kind: Kind): Edge -> real { (e: Edge) => EdgeTerm(kind, e.0, e.1) }

  lemma EdgeMapAntisymmetric(kind: Kind)
    ensures Antisymmetric(EdgeMap(kind))
  {
    forall a, b ensures EdgeMap(kind)((a, b)) == -EdgeMap(kind)((b, a)) { EdgeTermAntisymmetric(kind, a, b); }
  }

  /** Each integral of a closed mesh is the sum over the signed tetrahedra that its faces span
      with the origin. */
  lemma MomentIsTetrahedra(faces: seq<Tri>, kind: Kind)
    requires Closed(faces)
    ensures Moment(faces, kind) == Sum(faces, TetTerm(kind))
  {
    EdgeMapAntisymmetric(kind);
    forall t ensures KernelOf(kind)(t) == TetTerm(kind)(t) + Around(t, EdgeMap(kind)) { FaceIdentity(kind, t); }
    ClosedSum(faces, KernelOf(kind), TetTerm(kind), EdgeMap(kind));
  }

  // ---------------------------------------------------------------- turning the axes

  function TurnMap(k: Axis): Vec -> Vec { (v: Vec) => TurnTo(v, k) }

  function TurnAll(faces: seq<Tri>, k: Axis): seq<Tri> { MapAll(faces, TurnMap(k)) }

  lemma TurnedIsMapped(t: Tri, k: Axis)
    ensures MapTri(t, TurnMap(k)) == Turned(t, k)
  {
  }

  /** An integral along another axis is the integral along x of the turned mesh. */
  lemma IntegralIsMoment(faces: seq<Tri>, kind: Kind, k: Axis)
    ensures Integral(faces, kind, k) == Moment(TurnAll(faces, k), kind)
  {
    forall t ensures TermOf(kind, k)(t) == KernelOf(kind)(MapTri(t, TurnMap(k))) { TurnedIsMapped(t, k); }
    SumOfMapped(faces, TurnMap(k), KernelOf(kind), TermOf(kind, k));
  }

  lemma TurnTwice(faces: seq<Tri>, k: Axis)
    ensures TurnAll(TurnAll(faces, k), Y) == TurnAll(faces, Next(k))
  {
    var f, g := TurnAll(TurnAll(faces, k), Y), TurnAll(faces, Next(k));
    forall i | 0 <= i < |faces| ensures f[i] == g[i] { TurnTriTwice(faces[i], k); }
  }

  lemma TurnTriTwice(t: Tri, k: Axis)
    ensures MapTri(MapTri(t, TurnMap(k)), TurnMap(Y)) == MapTri(t, TurnMap(Next(k)))
  {
  }

  function Next(k: Axis): Axis { match k case X => Y case Y => Z case Z => X }

  lemma DetOfTurn(t: Tri, u: Tri)
    requires u == Tri(Turn(t.a), Turn(t.b), Turn(t.c))
    ensures Det(u) == Det(t)
  {
    DetSummand(t.a, t.b, t.c);
    DetSummand(t.b, t.c, t.a);
    DetSummand(t.c, t.a, t.b);
    DetSummand(u.a, u.b, u.c);
    DetSummand(u.b, u.c, u.a);
    DetSummand(u.c, u.a, u.b);
    Cycle(t.a.y, t.b.z, t.c.x);
    Cycle(t.a.y, t.c.z, t.b.x);
    Cycle(t.b.y, t.c.z, t.a.x);
    Cycle(t.b.y, t.a.z, t.c.x);
    Cycle(t.c.y, t.a.z, t.b.x);
    Cycle(t.c.y, t.b.z, t.a.x);
  }

  lemma DetSummand(p: Vec, a: Vec, b: Vec)
    ensures Mul(p.x, Wedge(a, b)) == Mul(p.x, Mul(a.y, b.z)) - Mul(p.x, Mul(b.y, a.z))
  {
    MulDifference(p.x, Mul(a.y, b.z), Mul(b.y, a.z), Wedge(a, b));
  }

  lemma Cycle(a: real, b: real, c: real)
    ensures Mul(a, Mul(b, c)) == Mul(c, Mul(a, b))
  {
    MulSwap(a, b, c);
    MulCommutes(Mul(a, b), c);
  }

  /** The tetrahedra of the first moment along y. */
  function TetAlongY(): Tri -> real { (t: Tri) => Mul(Det(t), F1(t.a.y, t.b.y, t.c.y)) }

  lemma FirstAlongY(faces: seq<Tri>)
    requires Closed(faces)
    ensures Moment(TurnAll(faces, Y), First) == Sum(faces, TetAlongY())
  {
    MappedIsClosed(faces, TurnMap(Y));
    MomentIsTetrahedra(TurnAll(faces, Y), First);
    forall t ensures TetAlongY()(t) == TetTerm(First)(MapTri(t, TurnMap(Y))) { DetOfTurn(t, MapTri(t, TurnMap(Y))); }
    SumOfMapped(faces, TurnMap(Y), TetTerm(First), TetAlongY());
  }

  /** The volume integral is the same along y as along x. */
  lemma VolumeAlongY(faces: seq<Tri>)
    requires Closed(faces)
    ensures Moment(TurnAll(faces, Y), Volume) == Moment(faces, Volume)
  {
    MappedIsClosed(faces, TurnMap(Y));
    MomentIsTetrahedra(TurnAll(faces, Y), Volume);
    MomentIsTetrahedra(faces, Volume);
    forall t
      ensures TetTerm(Volume)(t) == TetTerm(Volume)(MapTri(t, TurnMap(Y)))
    {
      DetOfTurn(t, MapTri(t, TurnMap(Y)));
    }
    SumOfMapped(faces, TurnMap(Y), TetTerm(Volume), TetTerm(Volume));
  }

  // ---------------------------------------------------------------- sums that cancel

  function NormalMap(): Tri -> real { (t: Tri) => NormalX(t) }

  function WedgeMap(): Edge -> real { (e: Edge) => Wedge(e.0, e.1) }

  /** The face normals of a closed mesh add up to zero. */
  lemma NormalsCancel(faces: seq<Tri>)
    requires Closed(faces)
    ensures Sum(faces, NormalMap()) == 0.0
  {
    forall t ensures NormalMap()(t) == Around(t, WedgeMap()) { NormalIsWedges(t); }
    SumAround(faces, WedgeMap(), NormalMap());
    EdgesCancel(faces, WedgeMap());
  }

  function NormalY1Map(): Tri -> real { (t: Tri) => NormalY1(t) }

  function HeightEdge(a: Vec, b: Vec): real { Mul(Wedge(a, b), a.y + b.y) }

  function HeightMap(): Edge -> real { (e: Edge) => HeightEdge(e.0, e.1) }

  lemma HeightEdges(t: Tri)
    ensures NormalY1(t) == HeightEdge(t.a, t.b) + HeightEdge(t.b, t.c) + HeightEdge(t.c, t.a)
  {
    var f, u, v, w := F1(t.a.y, t.b.y, t.c.y), Wedge(t.a, t.b), Wedge(t.b, t.c), Wedge(t.c, t.a);
    NormalIsWedges(t);
    FlatDeterminant(t);
    SumOfProducts(u, v, w, f, u + v + w);
    MulSum(u, t.a.y + t.b.y, t.c.y, f);
    MulSum(v, t.b.y + t.c.y, t.a.y, f);
    MulSum(w, t.c.y + t.a.y, t.b.y, f);
    MulCommutes(u, t.c.y);
    MulCommutes(v, t.a.y);
    MulCommutes(w, t.b.y);
  }

  lemma HeightMapAntisymmetric()
    ensures Antisymmetric(HeightMap())
  {
    forall a, b ensures HeightMap()((a, b)) == -HeightMap()((b, a)) {
      MulNegated(Wedge(b, a), b.y + a.y, Wedge(a, b));
      assert a.y + b.y == b.y + a.y;
    }
  }

  lemma NormalY1Cancels(faces: seq<Tri>)
    requires Closed(faces)
    ensures Sum(faces, NormalY1Map()) == 0.0
  {
    forall t ensures NormalY1Map()(t) == Around(t, HeightMap()) { HeightEdges(t); }
    SumAround(faces, HeightMap(), NormalY1Map());
    HeightMapAntisymmetric();
    EdgesCancel(faces, HeightMap());
  }

  // ---------------------------------------------------------------- the mixed sum

  function NormalDensityMap(): Tri -> real { (t: Tri) => NormalDensity(t) }

  function PairDensity(a: Vec, b: Vec): real { Mul(a.x + b.x, a.y + b.y) + (Mul(a.x, a.y) + Mul(b.x, b.y)) }

  function DensityEdge(a: Vec, b: Vec): real { Mul(Wedge(a, b), PairDensity(a, b)) }

  function DensityMap(): Edge -> real { (e: Edge) => DensityEdge(e.0, e.1) }

  lemma PeelDensity(a: Vec, b: Vec, c: Vec, f: real, g: real, d: real)
    requires
      f == a.x + b.x + c.x && g == a.y + b.y + c.y && d == Mul(f, g) + (Mul(a.x, a.y) + Mul(b.x, b.y) + Mul(c.x, c.y))
    ensures d == PairDensity(a, b) + Mul(c.x, g) + Mul(c.y, f)
  {
    var x, y := a.x + b.x, a.y + b.y;
    MulShifted(x, c.x, y, c.y);
    MulSum(c.x, y, c.y, g);
    MulSum(c.y, x, c.x, f);
    MulCommutes(x, c.y);
    MulCommutes(c.x, c.y);
  }

  lemma DensityEdges(t: Tri)
    ensures NormalDensity(t)
      == Mul(Det(t), F1(t.a.y, t.b.y, t.c.y)) + DensityEdge(t.a, t.b) + DensityEdge(t.b, t.c) + DensityEdge(t.c, t.a)
  {
    var f, g, d := F1(t.a.x, t.b.x, t.c.x), F1(t.a.y, t.b.y, t.c.y), Density(Product, t);
    PeelDensity(t.a, t.b, t.c, f, g, d);
    PeelDensity(t.b, t.c, t.a, f, g, d);
    PeelDensity(t.c, t.a, t.b, f, g, d);
    NormalIsWedges(t);
    FlatDeterminant(t);
    Weave(t, d, g, f, PairDensity(t.a, t.b), PairDensity(t.b, t.c), PairDensity(t.c, t.a), Wedge(t.a, t.b),
      Wedge(t.b, t.c), Wedge(t.c, t.a));
  }

  lemma DensityMapAntisymmetric()
    ensures Antisymmetric(DensityMap())
  {
    forall a, b ensures DensityMap()((a, b)) == -DensityMap()((b, a)) {
      assert a.x + b.x == b.x + a.x && a.y + b.y == b.y + a.y;
      assert PairDensity(a, b) == PairDensity(b, a);
      MulNegated(Wedge(b, a), PairDensity(b, a), Wedge(a, b));
    }
  }

  /** The mixed sum is the first moment along y. */
  lemma MixedSumIsFirst(faces: seq<Tri>)
    requires Closed(faces)
    ensures Sum(faces, NormalDensityMap()) == Moment(TurnAll(faces, Y), First)
  {
    DensityMapAntisymmetric();
    forall t ensures NormalDensityMap()(t) == TetAlongY()(t) + Around(t, DensityMap()) { DensityEdges(t); }
    ClosedSum(faces, NormalDensityMap(), TetAlongY(), DensityMap());
    FirstAlongY(faces);
  }

  // ---------------------------------------------------------------- moving the mesh

  function ShiftMap(d: Vec): Vec -> Vec { (v: Vec) => Add(v, d) }

  function ShiftAll(faces: seq<Tri>, d: Vec): seq<Tri> { MapAll(faces, ShiftMap(d)) }

  /** A sum of combinations is the combination of the sums. */
  lemma {:induction false} SumOfCombination(faces: seq<Tri>, f: Tri -> real, g: Tri -> real, c: real, h: Tri -> real,
                                            c': real, h': Tri -> real)
    requires forall t :: f(t) == g(t) + Mul(c, h(t)) + Mul(c', h'(t))
    ensures Sum(faces, f) == Sum(faces, g) + Mul(c, Sum(faces, h)) + Mul(c', Sum(faces, h'))
  {
    if faces == [] {
      MulOfZero(c);
      MulOfZero(c');
    } else {
      var init, t := faces[..|faces| - 1], faces[|faces| - 1];
      SumOfCombination(init, f, g, c, h, c', h');
      MulSum(c, Sum(init, h), h(t), Sum(faces, h));
      MulSum(c', Sum(init, h'), h'(t), Sum(faces, h'));
    }
  }

  /** The same when the second summand cancels. */
  lemma SumOfOne(faces: seq<Tri>, f: Tri -> real, g: Tri -> real, c: real, h: Tri -> real, e: real, z: Tri -> real)
    requires forall t :: f(t) == g(t) + Mul(c, h(t)) + Mul(e, z(t))
    requires Sum(faces, z) == 0.0
    ensures Sum(faces, f) == Sum(faces, g) + Mul(c, Sum(faces, h))
  {
    SumOfCombination(faces, f, g, c, h, e, z);
    MulOfZero(e);
  }

  /** The same with a third summand that cancels. */
  lemma SumOfTwo(faces: seq<Tri>, f: Tri -> real, g: Tri -> real, c: real, h: Tri -> real, c': real, h': Tri -> real,
                 e: real, z: Tri -> real)
    requires forall t :: f(t) == g(t) + Mul(c, h(t)) + Mul(c', h'(t)) + Mul(e, z(t))
    requires Sum(faces, z) == 0.0
    ensures Sum(faces, f) == Sum(faces, g) + Mul(c, Sum(faces, h)) + Mul(c', Sum(faces, h'))
  {
    var m := (t: Tri) => g(t) + Mul(c, h(t)) + Mul(c', h'(t));
    SumOfCombination(faces, m, g, c, h, c', h');
    forall t ensures f(t) == m(t) + Mul(0.0, z(t)) + Mul(e, z(t)) { MulOfZero(z(t)); }
    SumOfOne(faces, f, m, 0.0, z, e, z);
    MulOfZero(0.0);
  }

  /** The face term of the moved mesh. */
  function ShiftedKernel(kind: Kind, d: Vec): Tri -> real { (t: Tri) => Kernel(kind, Shift(t, d)) }

  lemma MomentOfShifted(faces: seq<Tri>, d: Vec, kind: Kind)
    ensures Moment(ShiftAll(faces, d), kind) == Sum(faces, ShiftedKernel(kind, d))
  {
    forall t ensures ShiftedKernel(kind, d)(t) == KernelOf(kind)(MapTri(t, ShiftMap(d))) {
      assert MapTri(t, ShiftMap(d)) == Shift(t, d);
    }
    SumOfMapped(faces, ShiftMap(d), KernelOf(kind), ShiftedKernel(kind, d));
  }

  lemma ShiftedVolume(faces: seq<Tri>, d: Vec)
    requires Closed(faces)
    ensures Moment(ShiftAll(faces, d), Volume) == Moment(faces, Volume)
  {
    MomentOfShifted(faces, d, Volume);
    var c := 3.0 * d.x;
    VolumePointwise(d, c);
    NormalsCancel(faces);
    var zero := 0.0;
    SumOfOne(faces, ShiftedKernel(Volume, d), KernelOf(Volume), zero, NormalMap(), c, NormalMap());
    MulOfZero(zero);
  }

  lemma VolumePointwise(d: Vec, c: real)
    requires c == 3.0 * d.x
    ensures
      forall t :: ShiftedKernel(Volume, d)(t) == KernelOf(Volume)(t) + Mul(0.0, NormalMap()(t)) + Mul(c, NormalMap()(t))
  {
    forall t
      ensures ShiftedKernel(Volume, d)(t) == KernelOf(Volume)(t) + Mul(0.0, NormalMap()(t)) + Mul(c, NormalMap()(t))
    {
      ShiftVolume(t, d, c);
      MulOfZero(NormalMap()(t));
    }
  }

  lemma ShiftedFirst(faces: seq<Tri>, d: Vec, c: real)
    requires Closed(faces) && c == 4.0 * d.x
    ensures Moment(ShiftAll(faces, d), First) == Moment(faces, First) + Mul(c, Moment(faces, Volume))
  {
    MomentOfShifted(faces, d, First);
    var tt := Mul(d.x, d.x);
    var e := 6.0 * tt;
    FirstPointwise(d, tt, c, e);
    NormalsCancel(faces);
    SumOfOne(faces, ShiftedKernel(First, d), KernelOf(First), c, KernelOf(Volume), e, NormalMap());
  }

  lemma FirstPointwise(d: Vec, tt: real, c: real, e: real)
    requires tt == Mul(d.x, d.x) && c == 4.0 * d.x && e == 6.0 * tt
    ensures forall t ::
        ShiftedKernel(First, d)(t) == KernelOf(First)(t) + Mul(c, KernelOf(Volume)(t)) + Mul(e, NormalMap()(t))
  {
    forall t
      ensures ShiftedKernel(First, d)(t) == KernelOf(First)(t) + Mul(c, KernelOf(Volume)(t)) + Mul(e, NormalMap()(t))
    {
      ShiftFirst(t, d, tt, c, e);
    }
  }

  lemma ShiftedSecond(faces: seq<Tri>, d: Vec, tt: real, c: real, c': real)
    requires Closed(faces) && tt == Mul(d.x, d.x) && c == 5.0 * d.x && c' == 10.0 * tt
    ensures Moment(ShiftAll(faces, d), Second)
      == Moment(faces, Second) + Mul(c, Moment(faces, First)) + Mul(c', Moment(faces, Volume))
  {
    MomentOfShifted(faces, d, Second);
    var ttt := Mul(d.x, tt);
    var e := 10.0 * ttt;
    SecondPointwise(d, tt, ttt, c, c', e);
    NormalsCancel(faces);
    SumOfTwo(faces, ShiftedKernel(Second, d), KernelOf(Second), c, KernelOf(First), c', KernelOf(Volume), e,
      NormalMap());
  }

  lemma SecondPointwise(d: Vec, tt: real, ttt: real, c: real, c': real, e: real)
    requires tt == Mul(d.x, d.x) && ttt == Mul(d.x, tt) && c == 5.0 * d.x && c' == 10.0 * tt && e == 10.0 * ttt
    ensures forall t ::
        ShiftedKernel(Second, d)(t)
        == KernelOf(Second)(t) + Mul(c, KernelOf(First)(t)) + Mul(c', KernelOf(Volume)(t)) + Mul(e, NormalMap()(t))
  {
    forall t
      ensures ShiftedKernel(Second, d)(t)
        == KernelOf(Second)(t) + Mul(c, KernelOf(First)(t)) + Mul(c', KernelOf(Volume)(t)) + Mul(e, NormalMap()(t))
    {
      ShiftSecond(t, d, tt, ttt, c, c', e);
    }
  }

  /** The part of a moved product term that carries the mixed sums. */
  function ProductPart(c: real, e: real): Tri -> real {
    (t: Tri) => KernelOf(Product)(t) + Mul(c, NormalDensityMap()(t)) + Mul(e, NormalY1Map()(t))
  }

  lemma ProductPartSum(faces: seq<Tri>, c: real, e: real)
    requires Closed(faces)
    ensures Sum(faces, ProductPart(c, e)) == Moment(faces, Product) + Mul(c, Moment(TurnAll(faces, Y), First))
  {
    NormalY1Cancels(faces);
    SumOfOne(faces, ProductPart(c, e), KernelOf(Product), c, NormalDensityMap(), e, NormalY1Map());
    MixedSumIsFirst(faces);
  }

  lemma ShiftedProduct(faces: seq<Tri>, d: Vec, tt: real, st: real, stt: real, c: Coefficients)
    requires Closed(faces) && ProductCoefficients(d, tt, st, stt, c)
    ensures Moment(ShiftAll(faces, d), Product) ==
      Moment(faces, Product) + Mul(c.mixed, Moment(TurnAll(faces, Y), First))
      + Mul(c.first, Moment(faces, First)) + Mul(c.volume, Moment(faces, Volume))
  {
    MomentOfShifted(faces, d, Product);
    ProductPointwise(d, tt, st, stt, c);
    NormalsCancel(faces);
    SumOfTwo(faces, ShiftedKernel(Product, d), ProductPart(c.mixed, c.height), c.first, KernelOf(First), c.volume,
      KernelOf(Volume), c.normal, NormalMap());
    ProductPartSum(faces, c.mixed, c.height);
  }

  lemma ProductPointwise(d: Vec, tt: real, st: real, stt: real, c: Coefficients)
    requires ProductCoefficients(d, tt, st, stt, c)
    ensures forall t ::
        ShiftedKernel(Product, d)(t)
        == ProductPart(c.mixed, c.height)(t) + Mul(c.first, KernelOf(First)(t))
        + Mul(c.volume, KernelOf(Volume)(t)) + Mul(c.normal, NormalMap()(t))
  {
    forall t
      ensures ShiftedKernel(Product, d)(t)
        == ProductPart(c.mixed, c.height)(t) + Mul(c.first, KernelOf(First)(t))
        + Mul(c.volume, KernelOf(Volume)(t)) + Mul(c.normal, NormalMap()(t))
    {
      ShiftProduct(t, d, tt, st, stt, c);
      ProductPartAt(c.mixed, c.height, t);
    }
  }

  lemma ProductPartAt(c: real, e: real, t: Tri)
    ensures ProductPart(c, e)(t) == Kernel(Product, t) + Mul(c, NormalDensity(t)) + Mul(e, NormalY1(t))
  {
    assert
      && KernelOf(Product)(t) == Kernel(Product, t) && NormalDensityMap()(t) == NormalDensity(t)
      && NormalY1Map()(t) == NormalY1(t);
  }
}
