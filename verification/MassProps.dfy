/** The ten accumulated integrals of a triangle mesh and the mass properties read from them. */
module MassProps {
  import opened Common
  import opened TriangleTest
  import opened ClosedMesh
  import opened RealProduct

  datatype MeshBuffers = MeshBuffers(positions: seq<real>, indices: seq<nat>)

  /** Every index names three stored coordinates. */
  predicate Indexed(m: MeshBuffers) { forall k :: 0 <= k < |m.indices| ==> 3 * m.indices[k] + 2 < |m.positions| }

  function Point(m: MeshBuffers, i: nat): Vec
    requires 3 * i + 2 < |m.positions|
  {
    Vec(m.positions[3 * i], m.positions[3 * i + 1], m.positions[3 * i + 2])
  }

  function FaceAt(m: MeshBuffers, k: nat): Tri
    requires Indexed(m) && k < |m.indices| / 3
  {
    Tri(Point(m, m.indices[3 * k]), Point(m, m.indices[3 * k + 1]), Point(m, m.indices[3 * k + 2]))
  }

  /** The faces: whole groups of three indices; one or two left over are not a face. */
  function Faces(m: MeshBuffers): seq<Tri>
    requires Indexed(m)
  {
    seq(|m.indices| / 3, k requires 0 <= k < |m.indices| / 3 => FaceAt(m, k))
  }

  datatype Terms = Terms(f1: real, f2: real, f3: real, g0: real, g1: real, g2: real)

  function F1(w0: real, w1: real, w2: real): real { w0 + w1 + w2 }

  function E2(w0: real, w1: real): real { Mul(w0, w0) + Mul(w1, w0 + w1) }

  function F2(w0: real, w1: real, w2: real): real { E2(w0, w1) + Mul(w2, F1(w0, w1, w2)) }

  function E3(w0: real, w1: real): real { Mul(w0, Mul(w0, w0)) + Mul(w1, E2(w0, w1)) }

  function F3(w0: real, w1: real, w2: real): real { E3(w0, w1) + Mul(w2, F2(w0, w1, w2)) }

  function G(w: real, f1: real, f2: real): real { f2 + Mul(w, f1 + w) }

  function SubExpressions(w0: real, w1: real, w2: real): Terms {
    var f1, f2 := F1(w0, w1, w2), F2(w0, w1, w2);
    Terms(f1, f2, F3(w0, w1, w2), G(w0, f1, f2), G(w1, f1, f2), G(w2, f1, f2))
  }

  // ---------------------------------------------------------------- the ten integrals

  datatype Kind = Volume | First | Second | Product

  /** The x component of the face normal. */
  function NormalX(t: Tri): real { Mul(t.b.y - t.a.y, t.c.z - t.a.z) - Mul(t.c.y - t.a.y, t.b.z - t.a.z) }

  function NormalY(t: Tri): real { Mul(t.c.x - t.a.x, t.b.z - t.a.z) - Mul(t.b.x - t.a.x, t.c.z - t.a.z) }

  function NormalZ(t: Tri): real { Mul(t.b.x - t.a.x, t.c.y - t.a.y) - Mul(t.c.x - t.a.x, t.b.y - t.a.y) }

  /** The cross term of a product integral. */
  function Mixed(u0: real, u1: real, u2: real, s: Terms): real { Mul(u0, s.g0) + Mul(u1, s.g1) + Mul(u2, s.g2) }

  function Factor(kind: Kind, t: Tri): real {
    match kind
    case Volume => F1(t.a.x, t.b.x, t.c.x)
    case First => F2(t.a.x, t.b.x, t.c.x)
    case Second => F3(t.a.x, t.b.x, t.c.x)
    case Product => Mixed(t.a.y, t.b.y, t.c.y, SubExpressions(t.a.x, t.b.x, t.c.x))
  }

  function Kernel(kind: Kind, t: Tri): real { Mul(NormalX(t), Factor(kind, t)) }

  function TurnTo(v: Vec, k: Axis): Vec {
    match k case X => v case Y => Turn(v) case Z => Turn(Turn(v))
  }

  function Turned(t: Tri, k: Axis): Tri { Tri(TurnTo(t.a, k), TurnTo(t.b, k), TurnTo(t.c, k)) }

  /** The face term of one integral along one axis. */
  function TermOf(kind: Kind, k: Axis): Tri -> real { (t: Tri) => Kernel(kind, Turned(t, k)) }

  function Integral(faces: seq<Tri>, kind: Kind, k: Axis): real { Sum(faces, TermOf(kind, k)) }

  /** Which integral each of the ten accumulators holds. */
  function Slot(n: nat): (Kind, Axis)
    requires n < 10
  {
    match n
    case 0 => (Volume, X)
    case 1 => (First, X)
    case 2 => (First, Y)
    case 3 => (First, Z)
    case 4 => (Second, X)
    case 5 => (Second, Y)
    case 6 => (Second, Z)
    case 7 => (Product, X)
    case 8 => (Product, Y)
    case _ => (Product, Z)
  }

  function Weight(n: nat): real {
    if n == 0 then 1.0 / 6.0 else if n <= 3 then 1.0 / 24.0 else if n <= 6 then 1.0 / 60.0 else 1.0 / 120.0
  }

  datatype MassProperties = MassProperties(volume: real, com: Vec, moments: Vec, products: Vec)

  const Negligible: real := 0.000000000000000000000000000001

  /** The centre of mass, zero for a negligible volume. */
  function CentreOf(volume: real, first: Vec): Vec {
    if Abs(volume) > Negligible then Vec(first.x / volume, first.y / volume, first.z / volume) else Vec(0.0, 0.0, 0.0)
  }

  /** Second moments and products about the origin, shifted to the centre of mass. */
  function AboutCentre(volume: real, first: Vec, second: Vec, product: Vec): MassProperties {
    var c := CentreOf(volume, first);
    MassProperties(volume, c,
      Vec(second.y + second.z - Mul(volume, Mul(c.y, c.y) + Mul(c.z, c.z)),
          second.x + second.z - Mul(volume, Mul(c.x, c.x) + Mul(c.z, c.z)),
          second.x + second.y - Mul(volume, Mul(c.x, c.x) + Mul(c.y, c.y))),
      Vec(-product.x + Mul(Mul(volume, c.x), c.y),
          -product.y + Mul(Mul(volume, c.y), c.z),
          -product.z + Mul(Mul(volume, c.x), c.z)))
  }

  /** The properties from the ten integrals. */
  function FromIntegrals(i: seq<real>): MassProperties
    requires |i| == 10
  {
    AboutCentre(i[0] * (1.0 / 6.0),
      Vec(i[1] * (1.0 / 24.0), i[2] * (1.0 / 24.0), i[3] * (1.0 / 24.0)),
      Vec(i[4] * (1.0 / 60.0), i[5] * (1.0 / 60.0), i[6] * (1.0 / 60.0)),
      Vec(i[7] * (1.0 / 120.0), i[8] * (1.0 / 120.0), i[9] * (1.0 / 120.0)))
  }

  function Integrals(faces: seq<Tri>): seq<real> {
    seq(10, n requires 0 <= n < 10 => Integral(faces, Slot(n).0, Slot(n).1))
  }

  /** The mass properties of a list of faces. */
  function PropertiesOf(faces: seq<Tri>): MassProperties { FromIntegrals(Integrals(faces)) }

  // ---------------------------------------------------------------- the accumulator

  /** What one face adds to the ten accumulators. */
  function Increments(t: Tri): seq<real> {
    var d0, d1, d2 := NormalX(t), NormalY(t), NormalZ(t);
    var sx := SubExpressions(t.a.x, t.b.x, t.c.x);
    var sy := SubExpressions(t.a.y, t.b.y, t.c.y);
    var sz := SubExpressions(t.a.z, t.b.z, t.c.z);
    [ Mul(d0, sx.f1),
      Mul(d0, sx.f2), Mul(d1, sy.f2), Mul(d2, sz.f2),
      Mul(d0, sx.f3), Mul(d1, sy.f3), Mul(d2, sz.f3),
      Mul(d0, Mixed(t.a.y, t.b.y, t.c.y, sx)),
      Mul(d1, Mixed(t.a.z, t.b.z, t.c.z, sy)),
      Mul(d2, Mixed(t.a.x, t.b.x, t.c.x, sz)) ]
  }

  /** One entry of a list of increments. */
  function Entry(add: Tri -> seq<real>, n: nat): Tri -> real {
    (t: Tri) => if n < |add(t)| then add(t)[n] else 0.0
  }

  /** The accumulators hold the sums of the increments of the faces seen so far. */
  ghost predicate Accumulated(intg: seq<real>, faces: seq<Tri>, add: Tri -> seq<real>) {
    |intg| == 10 && forall n :: 0 <= n < 10 ==> intg[n] == Sum(faces, Entry(add, n))
  }

  lemma OneMoreFace(before: seq<real>, after: seq<real>, faces: seq<Tri>, k: nat, add: Tri -> seq<real>)
    requires k < |faces| && Accumulated(before, faces[..k], add) && |after| == 10 == |add(faces[k])|
    requires forall n :: 0 <= n < 10 ==> after[n] == before[n] + add(faces[k])[n]
    ensures Accumulated(after, faces[..k + 1], add)
  {
    assert faces[..k + 1] == faces[..k] + [faces[k]];
    forall n | 0 <= n < 10 ensures after[n] == Sum(faces[..k + 1], Entry(add, n)) {
      SumOfAppend(faces[..k], faces[k], Entry(add, n));
    }
  }

  /** The loop over the faces, for any list of ten increments. */
  method Tally(m: MeshBuffers, add: Tri -> seq<real>, ghost faces: seq<Tri>) returns (intg: array<real>)
    requires Indexed(m) && faces == Faces(m) && forall t :: |add(t)| == 10
    ensures fresh(intg) && Accumulated(intg[..], faces, add)
  {
    intg := new real[10](_ => 0.0);
    for k := 0 to |m.indices| / 3
      invariant Accumulated(intg[..], faces[..k], add)
    {
      ghost var before := intg[..];
      AddAll(intg, add(FaceAt(m, k)));
      OneMoreFace(before, intg[..], faces, k, add);
    }
    assert faces[..|faces|] == faces;
  }

  method AddAll(intg: array<real>, add: seq<real>)
    requires intg.Length == 10 == |add|
    modifies intg
    ensures forall n :: 0 <= n < 10 ==> intg[n] == old(intg[n]) + add[n]
  {
    for n := 0 to 10
      invariant forall i :: 0 <= i < 10 ==> intg[i] == if i < n then old(intg[i]) + add[i] else old(intg[i])
    {
      intg[n] := intg[n] + add[n];
    }
  }

  method ScaleAll(intg: array<real>)
    requires intg.Length == 10
    modifies intg
    ensures forall n :: 0 <= n < 10 ==> intg[n] == old(intg[n]) * Weight(n)
  {
    for n := 0 to 10
      invariant forall i :: 0 <= i < 10 ==> intg[i] == if i < n then old(intg[i]) * Weight(i) else old(intg[i])
    {
      intg[n] := intg[n] * Weight(n);
    }
  }

  method Finish(intg: array<real>, ghost total: seq<real>) returns (r: MassProperties)
    requires intg.Length == 10 == |total| && forall n :: 0 <= n < 10 ==> intg[n] == total[n] * Weight(n)
    ensures r == FromIntegrals(total)
  {
    r := AboutCentre(intg[0], Vec(intg[1], intg[2], intg[3]), Vec(intg[4], intg[5], intg[6]),
        Vec(intg[7], intg[8], intg[9]));
  }

  lemma TotalsAreIntegrals(faces: seq<Tri>, total: seq<real>)
    requires Accumulated(total, faces, Increments)
    ensures total == Integrals(faces)
  {
    forall n | 0 <= n < 10 ensures total[n] == Integral(faces, Slot(n).0, Slot(n).1) {
      SameTerms(n);
      SumOfEqual(faces, Entry(Increments, n), TermOf(Slot(n).0, Slot(n).1));
    }
  }

  lemma SameTerms(n: nat)
    requires n < 10
    ensures forall t :: Entry(Increments, n)(t) == TermOf(Slot(n).0, Slot(n).1)(t)
  {
    forall t ensures Entry(Increments, n)(t) == TermOf(Slot(n).0, Slot(n).1)(t) { IncrementIsKernel(n, t); }
  }

  lemma IncrementIsKernel(n: nat, t: Tri)
    requires n < 10
    ensures Increments(t)[n] == Kernel(Slot(n).0, Turned(t, Slot(n).1))
  {
    IncrementsAlongX(t, Turned(t, X), Increments(t));
    IncrementsAlongY(t, Turned(t, Y), Increments(t));
    IncrementsAlongZ(t, Turned(t, Z), Increments(t));
  }

  lemma IncrementsAlongX(t: Tri, u: Tri, i: seq<real>)
    requires u == Turned(t, X) && i == Increments(t)
    ensures
      i[0] == Kernel(Volume, u) && i[1] == Kernel(First, u) && i[4] == Kernel(Second, u) && i[7] == Kernel(Product, u)
  {
    assert u == t;
  }

  lemma IncrementsAlongY(t: Tri, u: Tri, i: seq<real>)
    requires u == Turned(t, Y) && i == Increments(t)
    ensures i[2] == Kernel(First, u) && i[5] == Kernel(Second, u) && i[8] == Kernel(Product, u)
  {
    NormalOfTurned(t);
  }

  lemma IncrementsAlongZ(t: Tri, u: Tri, i: seq<real>)
    requires u == Turned(t, Z) && i == Increments(t)
    ensures i[3] == Kernel(First, u) && i[6] == Kernel(Second, u) && i[9] == Kernel(Product, u)
  {
    NormalOfTurned(t);
  }

  lemma NormalOfTurned(t: Tri)
    ensures NormalX(Turned(t, Y)) == NormalY(t) && NormalX(Turned(t, Z)) == NormalZ(t)
  {
    MulCommutes(t.b.z - t.a.z, t.c.x - t.a.x);
    MulCommutes(t.c.z - t.a.z, t.b.x - t.a.x);
  }
}
