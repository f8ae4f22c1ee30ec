/** Mass properties from the stored buffers: a closed mesh has the volume its coordinates say, and
    a tetrahedron wound outward has a positive volume and its centre in the middle. */
module MassCompute {
  import opened Common
  import opened RealProduct
  import opened TriangleTest
  import opened ClosedMesh
  import opened MassProps
  import opened MassTheorems
  import opened MassMotion
  import opened Rotations
  import opened LinearMaps
  import Turning = MassRotation
  import Tet = MassIdentities

  // ---------------------------------------------------------------- the stored determinants

  /** The determinant of the three coordinate triples stored at the indices 3k, 3k + 1, 3k + 2. */
  function StoredDeterminant(m: MeshBuffers, k: nat): real
    requires Indexed(m) && k < |m.indices| / 3
  {
    var p, a, b, c := m.positions, 3 * m.indices[3 * k], 3 * m.indices[3 * k + 1], 3 * m.indices[3 * k + 2];
    Triple3(Vec(p[a], p[a + 1], p[a + 2]), Vec(p[b], p[b + 1], p[b + 2]), Vec(p[c], p[c + 1], p[c + 2]))
  }

  function StoredSum(m: MeshBuffers, n: nat): real
    requires Indexed(m) && n <= |m.indices| / 3
  {
    if n == 0 then 0.0 else StoredSum(m, n - 1) + StoredDeterminant(m, n - 1)
  }

  lemma FaceIsStored(m: MeshBuffers, k: nat)
    requires Indexed(m) && k < |m.indices| / 3
    ensures Tet.Det(FaceAt(m, k)) == StoredDeterminant(m, k)
  {
    Turning.DetIsTriple(FaceAt(m, k));
  }

  lemma SumOfFirst(faces: seq<Tri>, n: nat, f: Tri -> real)
    requires 0 < n <= |faces|
    ensures Sum(faces[..n], f) == Sum(faces[..n - 1], f) + f(faces[n - 1])
  {
    assert faces[..n] == faces[..n - 1] + [faces[n - 1]];
    SumOfAppend(faces[..n - 1], faces[n - 1], f);
  }

  lemma {:induction false} SumIsStored(m: MeshBuffers, faces: seq<Tri>, n: nat)
    requires Indexed(m) && faces == Faces(m) && n <= |m.indices| / 3
    ensures Sum(faces[..n], DetMap()) == StoredSum(m, n)
  {
    if n > 0 {
      SumIsStored(m, faces, n - 1);
      SumOfFirst(faces, n, DetMap());
      FaceIsStored(m, n - 1);
    }
  }

  lemma VolumeOfIntegrals(i: seq<real>)
    requires |i| == 10
    ensures 6.0 * FromIntegrals(i).volume == i[0]
  {
  }

  lemma SixVolumes(faces: seq<Tri>)
    requires Closed(faces)
    ensures 6.0 * PropertiesOf(faces).volume == Sum(faces, DetMap())
  {
    VolumeIsDeterminants(faces, Integrals(faces));
    VolumeOfIntegrals(Integrals(faces));
  }

  lemma VolumeIsStored(m: MeshBuffers)
    requires Indexed(m) && Closed(Faces(m))
    ensures 6.0 * PropertiesOf(Faces(m)).volume == StoredSum(m, |m.indices| / 3)
  {
    SixVolumes(Faces(m));
    SumIsStoredWhole(m);
  }

  lemma SumIsStoredWhole(m: MeshBuffers)
    requires Indexed(m)
    ensures Sum(Faces(m), DetMap()) == StoredSum(m, |m.indices| / 3)
  {
    SumIsStored(m, Faces(m), |m.indices| / 3);
    assert Faces(m)[..|m.indices| / 3] == Faces(m);
  }

  // ---------------------------------------------------------------- the tetrahedron

  /** The buffers of a tetrahedron, its four faces wound outward when d lies on the side of the
      plane of a, b, c that their normal points to. */
  function Buffers(a: Vec, b: Vec, c: Vec, d: Vec): MeshBuffers {
    MeshBuffers([a.x, a.y, a.z, b.x, b.y, b.z, c.x, c.y, c.z, d.x, d.y, d.z], [0, 2, 1, 0, 1, 3, 0, 3, 2, 1, 2, 3])
  }

  function FourFaces(a: Vec, b: Vec, c: Vec, d: Vec): seq<Tri> {
    [Tri(a, c, b), Tri(a, b, d), Tri(a, d, c), Tri(b, c, d)]
  }

  lemma BuffersAreIndexed(a: Vec, b: Vec, c: Vec, d: Vec, m: MeshBuffers)
    requires m == Buffers(a, b, c, d)
    ensures Indexed(m) && |m.indices| / 3 == 4
  {
  }

  lemma FacesOfBuffers(a: Vec, b: Vec, c: Vec, d: Vec, m: MeshBuffers)
    requires m == Buffers(a, b, c, d)
    ensures Indexed(m) && Faces(m) == FourFaces(a, b, c, d)
  {
    BuffersAreIndexed(a, b, c, d, m);
    var f := Faces(m);
    assert f[0] == FaceAt(m, 0) && f[1] == FaceAt(m, 1) && f[2] == FaceAt(m, 2) && f[3] == FaceAt(m, 3);
  }

  function One(e: Edge, y: Edge): nat { if e == y then 1 else 0 }

  lemma CountOfOne(p: Edge, y: Edge)
    ensures multiset([p])[y] == One(p, y)
  {
  }

  lemma CountOfThree(p: Edge, q: Edge, r: Edge, y: Edge)
    ensures multiset([p, q, r])[y] == One(p, y) + One(q, y) + One(r, y)
  {
    CountOfOne(p, y);
    CountOfOne(q, y);
    CountOfOne(r, y);
    assert [p, q, r] == [p] + [q] + [r];
  }

  lemma ReversedEdges(t: Tri)
    ensures Reversed(EdgesOf(t)) == [(t.b, t.a), (t.c, t.b), (t.a, t.c)]
  {
  }

  lemma CountOfFace(t: Tri, y: Edge)
    ensures multiset(EdgesOf(t))[y] == One((t.a, t.b), y) + One((t.b, t.c), y) + One((t.c, t.a), y)
    ensures multiset(Reversed(EdgesOf(t)))[y] == One((t.b, t.a), y) + One((t.c, t.b), y) + One((t.a, t.c), y)
  {
    CountOfThree((t.a, t.b), (t.b, t.c), (t.c, t.a), y);
    CountOfThree((t.b, t.a), (t.c, t.b), (t.a, t.c), y);
    ReversedEdges(t);
  }

  lemma CountOfMore(faces: seq<Tri>, t: Tri, y: Edge)
    ensures multiset(Edges(faces + [t]))[y] == multiset(Edges(faces))[y] + multiset(EdgesOf(t))[y]
    ensures multiset(Reversed(Edges(faces + [t])))[y]
      == multiset(Reversed(Edges(faces)))[y] + multiset(Reversed(EdgesOf(t)))[y]
  {
    assert (faces + [t])[..|faces|] == faces;
    assert Reversed(Edges(faces) + EdgesOf(t)) == Reversed(Edges(faces)) + Reversed(EdgesOf(t));
  }

  /** How often an edge occurs among the edges of a face, forward less backward. */
  function Balance(y: Edge): Tri -> real {
    (t: Tri) => multiset(EdgesOf(t))[y] as real - multiset(Reversed(EdgesOf(t)))[y] as real
  }

  function Net(edges: seq<Edge>, y: Edge): real { multiset(edges)[y] as real - multiset(Reversed(edges))[y] as real }

  lemma NetOfMore(faces: seq<Tri>, t: Tri, y: Edge)
    ensures Net(Edges(faces + [t]), y) == Net(Edges(faces), y) + Balance(y)(t)
  {
    CountOfMore(faces, t, y);
  }

  /** What grows by one term a face is the sum of the terms. */
  lemma {:induction false} SumAccumulates(faces: seq<Tri>, f: Tri -> real, total: seq<Tri> -> real)
    requires total([]) == 0.0 && forall s, t :: total(s + [t]) == total(s) + f(t)
    ensures Sum(faces, f) == total(faces)
  {
    if faces != [] {
      var init, t := faces[..|faces| - 1], faces[|faces| - 1];
      SumAccumulates(init, f, total);
      assert init + [t] == faces;
    }
  }

  lemma BalanceIsSum(faces: seq<Tri>, y: Edge)
    ensures Sum(faces, Balance(y)) == Net(Edges(faces), y)
  {
    var total := (s: seq<Tri>) => Net(Edges(s), y);
    assert Reversed(Edges([])) == [];
    forall s, t ensures total(s + [t]) == total(s) + Balance(y)(t) { NetOfMore(s, t, y); }
    SumAccumulates(faces, Balance(y), total);
  }

  lemma SumOfFour(p: Tri, q: Tri, r: Tri, s: Tri, f: Tri -> real)
    ensures Sum([p, q, r, s], f) == f(p) + f(q) + f(r) + f(s)
  {
    SumOfAppend([p, q, r], s, f);
    SumOfAppend([p, q], r, f);
    SumOfAppend([p], q, f);
    SumOfAppend([], p, f);
    assert [] + [p] == [p] && [p] + [q] == [p, q] && [p, q] + [r] == [p, q, r] && [p, q, r] + [s] == [p, q, r, s];
  }

  lemma TetrahedronIsClosed(a: Vec, b: Vec, c: Vec, d: Vec)
    ensures Closed(FourFaces(a, b, c, d))
  {
    var faces := FourFaces(a, b, c, d);
    forall y ensures multiset(Edges(faces))[y] == multiset(Reversed(Edges(faces)))[y] {
      BalanceIsSum(faces, y);
      SumOfFour(Tri(a, c, b), Tri(a, b, d), Tri(a, d, c), Tri(b, c, d), Balance(y));
      BalanceOfFour(a, b, c, d, y);
    }
  }

  lemma BalanceOfFour(a: Vec, b: Vec, c: Vec, d: Vec, y: Edge)
    ensures Balance(y)(Tri(a, c, b)) + Balance(y)(Tri(a, b, d)) + Balance(y)(Tri(a, d, c)) + Balance(y)(Tri(b, c, d))
      == 0.0
  {
    CountOfFace(Tri(a, c, b), y);
    CountOfFace(Tri(a, b, d), y);
    CountOfFace(Tri(a, d, c), y);
    CountOfFace(Tri(b, c, d), y);
  }

  // ---------------------------------------------------------------- with one vertex at the origin

  const Origin: Vec := Vec(0.0, 0.0, 0.0)

  lemma DetWithOrigin(t: Tri, o: Vec)
    requires o.x == 0.0 && o.y == 0.0 && o.z == 0.0 && t.a == o
    ensures Tet.Det(t) == 0.0
  {
    ZeroTimes(t.b);
    ZeroTimes(t.c);
    ZeroTimes(Outer(t.b, t.c));
    Turning.DetIsTriple(t);
  }

  /** A face sum over a tetrahedron with a vertex at the origin is the term of the face opposite. */
  lemma OnlyOpposite(o: Vec, b: Vec, c: Vec, d: Vec, f: Tri -> real, g: Tri -> real)
    requires o.x == 0.0 && o.y == 0.0 && o.z == 0.0 && forall t :: f(t) == Mul(Tet.Det(t), g(t))
    ensures Sum(FourFaces(o, b, c, d), f) == f(Tri(b, c, d))
  {
    SumOfFour(Tri(o, c, b), Tri(o, b, d), Tri(o, d, c), Tri(b, c, d), f);
    DetWithOrigin(Tri(o, c, b), o);
    DetWithOrigin(Tri(o, b, d), o);
    DetWithOrigin(Tri(o, d, c), o);
    MulOfZero(g(Tri(o, c, b)));
    MulOfZero(g(Tri(o, b, d)));
    MulOfZero(g(Tri(o, d, c)));
  }

  function DensityMap(kind: Kind, k: Axis): Tri -> real { (t: Tri) => Tet.Density(kind, Turned(t, k)) }

  lemma OriginIntegral(o: Vec, b: Vec, c: Vec, d: Vec, kind: Kind, k: Axis)
    requires o.x == 0.0 && o.y == 0.0 && o.z == 0.0
    ensures Integral(FourFaces(o, b, c, d), kind, k)
      == Mul(Triple3(b, c, d), Tet.Density(kind, Turned(Tri(b, c, d), k)))
  {
    TetrahedronIsClosed(o, b, c, d);
    Turning.IntegralIsFaceSum(FourFaces(o, b, c, d), kind, k);
    OnlyOpposite(o, b, c, d, Turning.TetAlong(kind, k), DensityMap(kind, k));
    Turning.DetIsTriple(Tri(b, c, d));
  }

  lemma OriginVolume(o: Vec, b: Vec, c: Vec, d: Vec)
    requires o.x == 0.0 && o.y == 0.0 && o.z == 0.0
    ensures Integral(FourFaces(o, b, c, d), Volume, X) == Triple3(b, c, d)
  {
    OriginIntegral(o, b, c, d, Volume, X);
    MulOfOne(Triple3(b, c, d));
  }

  lemma OriginFirst(o: Vec, b: Vec, c: Vec, d: Vec, k: Axis)
    requires o.x == 0.0 && o.y == 0.0 && o.z == 0.0
    ensures Integral(FourFaces(o, b, c, d), First, k) == Mul(Triple3(b, c, d), Along(Turning.Total(Tri(b, c, d)), k))
  {
    OriginIntegral(o, b, c, d, First, k);
    Turning.FirstDensity(Tri(b, c, d), k);
  }

  function Scaled(n: real, s: Vec): Vec { Vec(Mul(n, s.x), Mul(n, s.y), Mul(n, s.z)) }

  lemma SameAlong(v: Vec, w: Vec)
    requires forall k :: Along(v, k) == Along(w, k)
    ensures v == w
  {
    assert Along(v, X) == Along(w, X) && Along(v, Y) == Along(w, Y) && Along(v, Z) == Along(w, Z);
  }

  lemma AlongScaled(n: real, s: Vec, k: Axis)
    ensures Along(Scaled(n, s), k) == Mul(n, Along(s, k))
  {
  }

  lemma AlongFirsts(faces: seq<Tri>, k: Axis)
    ensures Along(Turning.FirstSum(faces), k) == Integral(faces, First, k)
  {
  }

  lemma OriginFirsts(o: Vec, b: Vec, c: Vec, d: Vec)
    requires o.x == 0.0 && o.y == 0.0 && o.z == 0.0
    ensures Turning.FirstSum(FourFaces(o, b, c, d)) == Scaled(Triple3(b, c, d), Turning.Total(Tri(b, c, d)))
  {
    var v, w := Turning.FirstSum(FourFaces(o, b, c, d)), Scaled(Triple3(b, c, d), Turning.Total(Tri(b, c, d)));
    forall k ensures Along(v, k) == Along(w, k) {
      OriginFirst(o, b, c, d, k);
      AlongFirsts(FourFaces(o, b, c, d), k);
      AlongScaled(Triple3(b, c, d), Turning.Total(Tri(b, c, d)), k);
    }
    SameAlong(v, w);
  }

  lemma CentreOfProduct(n: real, x: real)
    requires Abs(n * (1.0 / 6.0)) > Negligible
    ensures (Mul(n, x) * (1.0 / 24.0)) / (n * (1.0 / 6.0)) == x / 4.0
  {
    Turning.QuotientIs(Mul(n, x) * (1.0 / 24.0), n * (1.0 / 6.0), x / 4.0);
  }

  lemma GroupedProperties(i: seq<real>, n: real, f: Vec, t: Turning.Sym)
    requires Turning.Grouped(i, n, f, t)
    ensures var p := FromIntegrals(i);
      && p.volume == n * (1.0 / 6.0)
      && p.com == CentreOf(n * (1.0 / 6.0), Vec(f.x * (1.0 / 24.0), f.y * (1.0 / 24.0), f.z * (1.0 / 24.0)))
  {
  }

  /** A sixth of the determinant for volume, and the centre unless the volume is negligible; the
      origin stands for the centre of such a body. */
  ghost predicate Centred(p: MassProperties, n: real, c: Vec) {
    && 6.0 * p.volume == n
    && (Abs(p.volume) > 0.000000000000000000000000000001 ==> p.com == c)
    && (Abs(p.volume) <= 0.000000000000000000000000000001 ==> p.com == Vec(0.0, 0.0, 0.0))
  }

  function Quarter(s: Vec): Vec { Vec(s.x / 4.0, s.y / 4.0, s.z / 4.0) }

  lemma CentredFrom(i: seq<real>, n: real, s: Vec, t: Turning.Sym)
    requires Turning.Grouped(i, n, Scaled(n, s), t)
    ensures Centred(FromIntegrals(i), n, Quarter(s))
  {
    GroupedProperties(i, n, Scaled(n, s), t);
    if Abs(n * (1.0 / 6.0)) > Negligible {
      CentreOfProduct(n, s.x);
      CentreOfProduct(n, s.y);
      CentreOfProduct(n, s.z);
    }
  }

  lemma OriginProperties(o: Vec, b: Vec, c: Vec, d: Vec)
    requires o.x == 0.0 && o.y == 0.0 && o.z == 0.0
    ensures Centred(PropertiesOf(FourFaces(o, b, c, d)), Triple3(b, c, d), Quarter(Turning.Total(Tri(b, c, d))))
  {
    var faces := FourFaces(o, b, c, d);
    OriginVolume(o, b, c, d);
    OriginFirsts(o, b, c, d);
    Turning.IntegralsAreGrouped(faces, Integrals(faces));
    CentredFrom(Integrals(faces), Triple3(b, c, d), Turning.Total(Tri(b, c, d)), Turning.IntegralTensor(faces));
  }

  // ---------------------------------------------------------------- anywhere

  lemma FourFacesMove(o: Vec, a: Vec, b: Vec, c: Vec, d: Vec)
    requires o.x == 0.0 && o.y == 0.0 && o.z == 0.0
    ensures ShiftAll(FourFaces(o, Sub(b, a), Sub(c, a), Sub(d, a)), a) == FourFaces(a, b, c, d)
  {
  }

  lemma CentreIfNegligible(i: seq<real>)
    requires |i| == 10
    ensures Abs(FromIntegrals(i).volume) <= Negligible ==> FromIntegrals(i).com == Vec(0.0, 0.0, 0.0)
  {
  }

  /** Moving a body moves its centre. */
  lemma CentredMoves(p: MassProperties, q: MassProperties, n: real, c: Vec, a: Vec)
    requires Centred(p, n, c) && q.volume == p.volume
    requires Abs(p.volume) > Negligible ==> q == p.(com := Add(p.com, a))
    requires Abs(p.volume) <= Negligible ==> q.com == Vec(0.0, 0.0, 0.0)
    ensures Centred(q, n, Add(c, a))
  {
  }

  function Mean(a: Vec, b: Vec, c: Vec, d: Vec): Vec {
    Vec((a.x + b.x + c.x + d.x) / 4.0, (a.y + b.y + c.y + d.y) / 4.0, (a.z + b.z + c.z + d.z) / 4.0)
  }

  lemma MeanFromVertex(a: Vec, b: Vec, c: Vec, d: Vec)
    ensures Add(Quarter(Turning.Total(Tri(Sub(b, a), Sub(c, a), Sub(d, a)))), a) == Mean(a, b, c, d)
  {
  }

  lemma FourFacesProperties(a: Vec, b: Vec, c: Vec, d: Vec)
    ensures Centred(PropertiesOf(FourFaces(a, b, c, d)), Triple3(Sub(b, a), Sub(c, a), Sub(d, a)), Mean(a, b, c, d))
  {
    var u, v, w := Sub(b, a), Sub(c, a), Sub(d, a);
    var near := FourFaces(Origin, u, v, w);
    FourFacesMove(Origin, a, b, c, d);
    TetrahedronIsClosed(Origin, u, v, w);
    OriginProperties(Origin, u, v, w);
    MassPropertiesMove(near, a);
    CentreIfNegligible(Integrals(FourFaces(a, b, c, d)));
    MeanFromVertex(a, b, c, d);
    CentredMoves(PropertiesOf(near), PropertiesOf(FourFaces(a, b, c, d)), Triple3(u, v, w),
      Quarter(Turning.Total(Tri(u, v, w))), a);
  }

  /** For all four vertices: the buffers of their tetrahedron give a sixth of the determinant of
      the edges from the first, positive when wound outward, and unless that is negligible the
      centre of mass is the mean of the vertices. */
  lemma TetrahedronProperties(m: MeshBuffers, a: Vec, b: Vec, c: Vec, d: Vec)
    requires m == Buffers(a, b, c, d)
    ensures Indexed(m)
    ensures Centred(PropertiesOf(Faces(m)), Triple3(Sub(b, a), Sub(c, a), Sub(d, a)), Mean(a, b, c, d))
  {
    FacesOfBuffers(a, b, c, d, m);
    FourFacesProperties(a, b, c, d);
  }

  // ---------------------------------------------------------------- the computation

  /** Accumulates over the faces, scales, and shifts to the centre of mass. From the buffers of a
      closed mesh six times the volume is the sum of the stored determinants; from those of a
      tetrahedron come its volume and its centre. */
  method Compute(m: MeshBuffers) returns (r: MassProperties)
    requires Indexed(m)
    ensures r == PropertiesOf(Faces(m))
    ensures Closed(Faces(m)) ==> 6.0 * r.volume == StoredSum(m, |m.indices| / 3)
    ensures forall a, b, c, d :: m == Buffers(a, b, c, d) ==>
      Centred(r, Triple3(Sub(b, a), Sub(c, a), Sub(d, a)), Mean(a, b, c, d))
  {
    ghost var faces := Faces(m);
    var intg := Tally(m, Increments, faces);
    ghost var total := intg[..];
    TotalsAreIntegrals(faces, total);
    ScaleAll(intg);
    r := Finish(intg, total);
    if Closed(faces) { VolumeIsStored(m); }
    forall a, b, c, d | m == Buffers(a, b, c, d)
      ensures Centred(r, Triple3(Sub(b, a), Sub(c, a), Sub(d, a)), Mean(a, b, c, d))
    {
      TetrahedronProperties(m, a, b, c, d);
    }
  }
}
