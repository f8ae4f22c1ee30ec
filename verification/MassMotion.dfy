/** The mass properties of a moved mesh and of a mesh with its faces reversed. */
module MassMotion {
  import opened Common
  import opened TriangleTest
  import opened ClosedMesh
  import opened MassProps
  import opened MassIdentities
  import opened MassShift
  import opened MassTheorems
  import opened RealProduct

  // ---------------------------------------------------------------- the integrals of a moved mesh

  lemma TurnOfShift(faces: seq<Tri>, d: Vec, k: Axis)
    ensures TurnAll(ShiftAll(faces, d), k) == ShiftAll(TurnAll(faces, k), TurnTo(d, k))
  {
    var f, g := TurnAll(ShiftAll(faces, d), k), ShiftAll(TurnAll(faces, k), TurnTo(d, k));
    forall i | 0 <= i < |faces| ensures f[i] == g[i] { TurnTriOfShift(faces[i], d, k); }
  }

  lemma TurnTriOfShift(t: Tri, d: Vec, k: Axis)
    ensures MapTri(MapTri(t, ShiftMap(d)), TurnMap(k)) == MapTri(MapTri(t, TurnMap(k)), ShiftMap(TurnTo(d, k)))
  {
  }

  lemma SameAround(f: Axis -> real, k: Axis)
    requires forall j :: f(Next(j)) == f(j)
    ensures f(k) == f(X)
  {
    assert f(Next(X)) == f(X) && f(Next(Y)) == f(Y);
  }

  /** The volume integral is the same along every axis. */
  lemma VolumeAlongAnyAxis(faces: seq<Tri>, k: Axis)
    requires Closed(faces)
    ensures Integral(faces, Volume, k) == Integral(faces, Volume, X)
  {
    var f := (j: Axis) => Integral(faces, Volume, j);
    forall j ensures f(Next(j)) == f(j) { VolumeAlongNext(faces, j); }
    SameAround(f, k);
  }

  lemma VolumeAlongNext(faces: seq<Tri>, k: Axis)
    requires Closed(faces)
    ensures Integral(faces, Volume, Next(k)) == Integral(faces, Volume, k)
  {
    IntegralIsMoment(faces, Volume, k);
    IntegralIsMoment(faces, Volume, Next(k));
    MappedIsClosed(faces, TurnMap(k));
    TurnTwice(faces, k);
    VolumeAlongY(TurnAll(faces, k));
  }

  /** The integral of a moved mesh along one axis, as a moment of the turned mesh. */
  lemma IntegralMoves(faces: seq<Tri>, d: Vec, kind: Kind, k: Axis)
    ensures Integral(ShiftAll(faces, d), kind, k) == Moment(ShiftAll(TurnAll(faces, k), TurnTo(d, k)), kind)
  {
    IntegralIsMoment(ShiftAll(faces, d), kind, k);
    TurnOfShift(faces, d, k);
  }

  lemma VolumeMoves(faces: seq<Tri>, d: Vec, k: Axis)
    requires Closed(faces)
    ensures Integral(ShiftAll(faces, d), Volume, k) == Integral(faces, Volume, k)
  {
    IntegralMoves(faces, d, Volume, k);
    IntegralIsMoment(faces, Volume, k);
    MappedIsClosed(faces, TurnMap(k));
    ShiftedVolume(TurnAll(faces, k), TurnTo(d, k));
  }

  predicate RawFirst(m: real, m': real, t: real, v: real) { m' == m + 4.0 * Mul(t, v) }

  predicate RawSecond(s: real, s': real, t: real, m: real, v: real) {
    s' == s + 5.0 * Mul(t, m) + 10.0 * Mul(Mul(t, t), v)
  }

  predicate RawProduct(p: real, p': real, t: real, s: real, mt: real, ms: real, v: real) {
    p' == p + 5.0 * Mul(t, ms) + 5.0 * Mul(s, mt) + 20.0 * Mul(Mul(s, t), v)
  }

  lemma Multiple(c: real, t: real, x: real)
    ensures c == 4.0 * t ==> Mul(c, x) == 4.0 * Mul(t, x)
    ensures c == 5.0 * t ==> Mul(c, x) == 5.0 * Mul(t, x)
    ensures c == 10.0 * t ==> Mul(c, x) == 10.0 * Mul(t, x)
    ensures c == 20.0 * t ==> Mul(c, x) == 20.0 * Mul(t, x)
  {
    MulMultiple(t, x);
  }

  lemma FirstMoves(faces: seq<Tri>, d: Vec, k: Axis, v: real)
    requires Closed(faces) && v == Integral(faces, Volume, X)
    ensures RawFirst(Integral(faces, First, k), Integral(ShiftAll(faces, d), First, k), TurnTo(d, k).x, v)
  {
    IntegralMoves(faces, d, First, k);
    IntegralIsMoment(faces, First, k);
    IntegralIsMoment(faces, Volume, k);
    VolumeAlongAnyAxis(faces, k);
    MappedIsClosed(faces, TurnMap(k));
    var t := TurnTo(d, k).x;
    var c := 4.0 * t;
    ShiftedFirst(TurnAll(faces, k), TurnTo(d, k), c);
    Multiple(c, t, v);
  }

  lemma SecondMoves(faces: seq<Tri>, d: Vec, k: Axis, v: real, m: real)
    requires Closed(faces) && v == Integral(faces, Volume, X) && m == Integral(faces, First, k)
    ensures RawSecond(Integral(faces, Second, k), Integral(ShiftAll(faces, d), Second, k), TurnTo(d, k).x, m, v)
  {
    IntegralMoves(faces, d, Second, k);
    IntegralIsMoment(faces, Second, k);
    IntegralIsMoment(faces, First, k);
    IntegralIsMoment(faces, Volume, k);
    VolumeAlongAnyAxis(faces, k);
    MappedIsClosed(faces, TurnMap(k));
    var t := TurnTo(d, k).x;
    var tt := Mul(t, t);
    var c, c' := 5.0 * t, 10.0 * tt;
    ShiftedSecond(TurnAll(faces, k), TurnTo(d, k), tt, c, c');
    Multiple(c, t, m);
    Multiple(c', tt, v);
  }

  lemma ProductMoves(faces: seq<Tri>, d: Vec, k: Axis, v: real, mt: real, ms: real)
    requires
      && Closed(faces) && v == Integral(faces, Volume, X) && mt == Integral(faces, First, k)
      && ms == Integral(faces, First, Next(k))
    ensures RawProduct(Integral(faces, Product, k), Integral(ShiftAll(faces, d), Product, k), TurnTo(d, k).x,
        TurnTo(d, k).y, mt, ms, v)
  {
    IntegralMoves(faces, d, Product, k);
    IntegralIsMoment(faces, Product, k);
    IntegralIsMoment(faces, First, k);
    IntegralIsMoment(faces, First, Next(k));
    IntegralIsMoment(faces, Volume, k);
    VolumeAlongAnyAxis(faces, k);
    MappedIsClosed(faces, TurnMap(k));
    TurnTwice(faces, k);
    var w := TurnTo(d, k);
    var tt, st := Mul(w.x, w.x), Mul(w.y, w.x);
    var stt := Mul(w.y, tt);
    var c := Coefficients(5.0 * w.x, 10.0 * tt, 5.0 * w.y, 20.0 * st, 30.0 * stt);
    ShiftedProduct(TurnAll(faces, k), w, tt, st, stt, c);
    Multiple(c.mixed, w.x, ms);
    Multiple(c.first, w.y, mt);
    Multiple(c.volume, st, v);
  }

  // ---------------------------------------------------------------- scaled to mass moments

  /** A first moment moves by the shift times the volume. */
  predicate FirstShifts(m: real, m': real, t: real, v: real) { m' == m + Mul(t, v) }

  predicate SecondShifts(s: real, s': real, t: real, m: real, v: real) { s' == s + 2.0 * Mul(t, m) + Mul(Mul(t, t), v) }

  predicate ProductShifts(p: real, p': real, t: real, s: real, mt: real, ms: real, v: real) {
    p' == p + Mul(t, ms) + Mul(s, mt) + Mul(Mul(s, t), v)
  }

  lemma Portion(t: real, a: real)
    ensures Mul(t, a * (1.0 / 6.0)) == Mul(t, a) * (1.0 / 6.0) && Mul(t, a * (1.0 / 24.0)) == Mul(t, a) * (1.0 / 24.0)
  {
  }

  lemma ScaleFirst(m: real, m': real, t: real, v: real)
    requires RawFirst(m, m', t, v)
    ensures FirstShifts(m * (1.0 / 24.0), m' * (1.0 / 24.0), t, v * (1.0 / 6.0))
  {
    Portion(t, v);
  }

  lemma ScaleSecond(s: real, s': real, t: real, m: real, v: real)
    requires RawSecond(s, s', t, m, v)
    ensures SecondShifts(s * (1.0 / 60.0), s' * (1.0 / 60.0), t, m * (1.0 / 24.0), v * (1.0 / 6.0))
  {
    Portion(t, m);
    Portion(Mul(t, t), v);
  }

  lemma ScaleProduct(p: real, p': real, t: real, s: real, mt: real, ms: real, v: real)
    requires RawProduct(p, p', t, s, mt, ms, v)
    ensures
      ProductShifts(p * (1.0 / 120.0), p' * (1.0 / 120.0), t, s, mt * (1.0 / 24.0), ms * (1.0 / 24.0), v * (1.0 / 6.0))
  {
    Portion(t, ms);
    Portion(s, mt);
    Portion(Mul(s, t), v);
  }

  // ---------------------------------------------------------------- about the centre of mass

  lemma CentreMoves(v: real, m: real, m': real, t: real)
    requires v != 0.0 && FirstShifts(m, m', t, v)
    ensures m' / v == m / v + t && Mul(v, m / v) == m
  {
    var c := m / v;
    assert c * v == m;
    assert (c + t) * v == m';
  }

  /** The parallel-axis shift cancels the move of a second moment. */
  lemma SteinerSecond(v: real, s: real, s': real, m: real, c: real, c': real, t: real)
    requires Mul(v, c) == m && c' == c + t && SecondShifts(s, s', t, m, v)
    ensures s' - Mul(v, Mul(c', c')) == s - Mul(v, Mul(c, c))
  {
    var cc, ct, tt := Mul(c, c), Mul(c, t), Mul(t, t);
    MulShifted(c, t, c, t);
    MulCommutes(c, t);
    assert Mul(c', c') == cc + 2.0 * ct + tt;
    MulSum3(v, cc, 2.0 * ct, tt, Mul(c', c'));
    MulOfMultiple(v, ct);
    MulCommutes(ct, v);
    MulSwap(v, t, c);
    MulCommutes(v, tt);
  }

  lemma SteinerProduct(v: real, p: real, p': real, mt: real, ms: real, c: real, e: real, c': real, e': real, t: real,
                       s: real)
    requires Mul(v, c) == mt && Mul(v, e) == ms && c' == c + t && e' == e + s && ProductShifts(p, p', t, s, mt, ms, v)
    ensures -p' + Mul(Mul(v, c'), e') == -p + Mul(Mul(v, c), e)
  {
    var vt := Mul(v, t);
    MulSum(v, c, t, c');
    MulShifted(mt, vt, e, s);
    MulCommutes(mt, s);
    MulCommutes(v, t);
    MulSwap(t, v, e);
    MulSwap(s, t, v);
    MulCommutes(vt, s);
  }

  lemma CommuteCentre(v: real, c: real, e: real)
    ensures Mul(Mul(v, c), e) == Mul(Mul(v, e), c)
  {
    MulSwap(v, c, e);
    MulSwap(v, e, c);
    MulCommutes(c, e);
  }

  lemma SplitMoment(v: real, a: real, b: real)
    ensures Mul(v, a + b) == Mul(v, a) + Mul(v, b)
  {
    MulSum(v, a, b, a + b);
  }

  /** How the scaled integrals of a moved mesh relate to those of the mesh. */
  predicate Moved(v: real, m: Vec, s: Vec, p: Vec, m': Vec, s': Vec, p': Vec, d: Vec) {
    && FirstShifts(m.x, m'.x, d.x, v) && FirstShifts(m.y, m'.y, d.y, v) && FirstShifts(m.z, m'.z, d.z, v)
    && SecondShifts(s.x, s'.x, d.x, m.x, v) && SecondShifts(s.y, s'.y, d.y, m.y, v)
    && SecondShifts(s.z, s'.z, d.z, m.z, v)
    && ProductShifts(p.x, p'.x, d.x, d.y, m.x, m.y, v) && ProductShifts(p.y, p'.y, d.y, d.z, m.y, m.z, v)
    && ProductShifts(p.z, p'.z, d.z, d.x, m.z, m.x, v)
  }

  lemma CentresMove(v: real, m: Vec, m': Vec, d: Vec, c: Vec, c': Vec)
    requires Abs(v) > Negligible && c == CentreOf(v, m) && c' == CentreOf(v, m')
    requires FirstShifts(m.x, m'.x, d.x, v) && FirstShifts(m.y, m'.y, d.y, v) && FirstShifts(m.z, m'.z, d.z, v)
    ensures c' == Add(c, d) && Mul(v, c.x) == m.x && Mul(v, c.y) == m.y && Mul(v, c.z) == m.z
  {
    CentreMoves(v, m.x, m'.x, d.x);
    CentreMoves(v, m.y, m'.y, d.y);
    CentreMoves(v, m.z, m'.z, d.z);
  }

  lemma AboutCentreMoves(v: real, m: Vec, s: Vec, p: Vec, m': Vec, s': Vec, p': Vec, d: Vec)
    requires Moved(v, m, s, p, m', s', p', d) && Abs(v) > Negligible
    ensures AboutCentre(v, m', s', p') == AboutCentre(v, m, s, p).(com := Add(CentreOf(v, m), d))
  {
    var c, c' := CentreOf(v, m), CentreOf(v, m');
    CentresMove(v, m, m', d, c, c');
    SteinerSecond(v, s.x, s'.x, m.x, c.x, c'.x, d.x);
    SteinerSecond(v, s.y, s'.y, m.y, c.y, c'.y, d.y);
    SteinerSecond(v, s.z, s'.z, m.z, c.z, c'.z, d.z);
    SplitMoments(v, c);
    SplitMoments(v, c');
    SteinerProduct(v, p.x, p'.x, m.x, m.y, c.x, c.y, c'.x, c'.y, d.x, d.y);
    SteinerProduct(v, p.y, p'.y, m.y, m.z, c.y, c.z, c'.y, c'.z, d.y, d.z);
    SteinerProduct(v, p.z, p'.z, m.z, m.x, c.z, c.x, c'.z, c'.x, d.z, d.x);
    CommuteCentre(v, c.z, c.x);
    CommuteCentre(v, c'.z, c'.x);
  }

  lemma SplitMoments(v: real, c: Vec)
    ensures Mul(v, Mul(c.y, c.y) + Mul(c.z, c.z)) == Mul(v, Mul(c.y, c.y)) + Mul(v, Mul(c.z, c.z))
    ensures Mul(v, Mul(c.x, c.x) + Mul(c.z, c.z)) == Mul(v, Mul(c.x, c.x)) + Mul(v, Mul(c.z, c.z))
    ensures Mul(v, Mul(c.x, c.x) + Mul(c.y, c.y)) == Mul(v, Mul(c.x, c.x)) + Mul(v, Mul(c.y, c.y))
  {
    SplitMoment(v, Mul(c.y, c.y), Mul(c.z, c.z));
    SplitMoment(v, Mul(c.x, c.x), Mul(c.z, c.z));
    SplitMoment(v, Mul(c.x, c.x), Mul(c.y, c.y));
  }

  // ---------------------------------------------------------------- the moved mesh

  /** The axis an accumulator other than the volume belongs to, and the place of its first moment. */
  function AxisOf(n: nat): Axis { if n % 3 == 1 then X else if n % 3 == 2 then Y else Z }

  function FirstPlace(n: nat): nat { if n % 3 == 1 then 1 else if n % 3 == 2 then 2 else 3 }

  /** How the ten integrals of a moved mesh relate to those of the mesh. */
  ghost predicate IntegralsMoved(i: seq<real>, i': seq<real>, d: Vec)
    requires |i| == 10 == |i'|
  {
    && i'[0] == i[0]
    && (forall n :: 1 <= n <= 3 ==> RawFirst(i[n], i'[n], TurnTo(d, AxisOf(n)).x, i[0]))
    && (forall n :: 4 <= n <= 6 ==> RawSecond(i[n], i'[n], TurnTo(d, AxisOf(n)).x, i[FirstPlace(n)], i[0]))
    && (forall n ::
          7 <= n <= 9 ==>
            RawProduct(i[n], i'[n], TurnTo(d, AxisOf(n)).x, TurnTo(d, AxisOf(n)).y, i[FirstPlace(n)],
              i[FirstPlace(n + 1)], i[0]))
  }

  lemma IntegralAt(faces: seq<Tri>, i: seq<real>, n: nat, kind: Kind, k: Axis)
    requires i == Integrals(faces) && n < 10 && Slot(n) == (kind, k)
    ensures |i| == 10 && i[n] == Integral(faces, kind, k)
  {
  }

  lemma SlotOf(n: nat)
    requires n < 10
    ensures n == 0 ==> Slot(n) == (Volume, X)
    ensures 1 <= n <= 3 ==> Slot(n) == (First, AxisOf(n))
    ensures 4 <= n <= 6 ==> Slot(n) == (Second, AxisOf(n))
    ensures 7 <= n <= 9 ==> Slot(n) == (Product, AxisOf(n)) && Slot(FirstPlace(n + 1)) == (First, Next(AxisOf(n)))
    ensures 1 <= n ==> Slot(FirstPlace(n)) == (First, AxisOf(n))
  {
  }

  lemma FirstMovesAt(faces: seq<Tri>, d: Vec, i: seq<real>, i': seq<real>, n: nat, k: Axis)
    requires
      Closed(faces) && i == Integrals(faces) && i' == Integrals(ShiftAll(faces, d)) && n < 10 && Slot(n) == (First, k)
    ensures |i| == 10 == |i'| && RawFirst(i[n], i'[n], TurnTo(d, k).x, i[0])
  {
    IntegralAt(faces, i, n, First, k);
    IntegralAt(ShiftAll(faces, d), i', n, First, k);
    IntegralAt(faces, i, 0, Volume, X);
    FirstMoves(faces, d, k, i[0]);
  }

  lemma SecondMovesAt(faces: seq<Tri>, d: Vec, i: seq<real>, i': seq<real>, n: nat, m: nat, k: Axis)
    requires Closed(faces) && i == Integrals(faces) && i' == Integrals(ShiftAll(faces, d))
    requires n < 10 && m < 10 && Slot(n) == (Second, k) && Slot(m) == (First, k)
    ensures |i| == 10 == |i'| && RawSecond(i[n], i'[n], TurnTo(d, k).x, i[m], i[0])
  {
    IntegralAt(faces, i, n, Second, k);
    IntegralAt(ShiftAll(faces, d), i', n, Second, k);
    IntegralAt(faces, i, m, First, k);
    IntegralAt(faces, i, 0, Volume, X);
    SecondMoves(faces, d, k, i[0], i[m]);
  }

  lemma ProductMovesAt(faces: seq<Tri>, d: Vec, i: seq<real>, i': seq<real>, n: nat, m: nat, m': nat, k: Axis)
    requires Closed(faces) && i == Integrals(faces) && i' == Integrals(ShiftAll(faces, d))
    requires
      n < 10 && m < 10 && m' < 10 && Slot(n) == (Product, k) && Slot(m) == (First, k) && Slot(m') == (First, Next(k))
    ensures |i| == 10 == |i'| && RawProduct(i[n], i'[n], TurnTo(d, k).x, TurnTo(d, k).y, i[m], i[m'], i[0])
  {
    IntegralAt(faces, i, n, Product, k);
    IntegralAt(ShiftAll(faces, d), i', n, Product, k);
    IntegralAt(faces, i, m, First, k);
    IntegralAt(faces, i, m', First, Next(k));
    IntegralAt(faces, i, 0, Volume, X);
    ProductMoves(faces, d, k, i[0], i[m], i[m']);
  }

  lemma VolumeMovesAt(faces: seq<Tri>, d: Vec, i: seq<real>, i': seq<real>)
    requires Closed(faces) && i == Integrals(faces) && i' == Integrals(ShiftAll(faces, d))
    ensures |i| == 10 == |i'| && i'[0] == i[0]
  {
    IntegralAt(faces, i, 0, Volume, X);
    IntegralAt(ShiftAll(faces, d), i', 0, Volume, X);
    VolumeMoves(faces, d, X);
  }

  lemma FirstsMove(faces: seq<Tri>, d: Vec, i: seq<real>, i': seq<real>)
    requires Closed(faces) && i == Integrals(faces) && i' == Integrals(ShiftAll(faces, d))
    ensures |i| == 10 == |i'| && forall n :: 1 <= n <= 3 ==> RawFirst(i[n], i'[n], TurnTo(d, AxisOf(n)).x, i[0])
  {
    forall n | 1 <= n <= 3 ensures RawFirst(i[n], i'[n], TurnTo(d, AxisOf(n)).x, i[0]) {
      SlotOf(n);
      FirstMovesAt(faces, d, i, i', n, AxisOf(n));
    }
  }

  lemma SecondsMove(faces: seq<Tri>, d: Vec, i: seq<real>, i': seq<real>)
    requires Closed(faces) && i == Integrals(faces) && i' == Integrals(ShiftAll(faces, d))
    ensures
      && |i| == 10 == |i'|
      && forall n :: 4 <= n <= 6 ==> RawSecond(i[n], i'[n], TurnTo(d, AxisOf(n)).x, i[FirstPlace(n)], i[0])
  {
    forall n | 4 <= n <= 6 ensures RawSecond(i[n], i'[n], TurnTo(d, AxisOf(n)).x, i[FirstPlace(n)], i[0]) {
      SlotOf(n);
      SecondMovesAt(faces, d, i, i', n, FirstPlace(n), AxisOf(n));
    }
  }

  lemma ProductsMove(faces: seq<Tri>, d: Vec, i: seq<real>, i': seq<real>)
    requires Closed(faces) && i == Integrals(faces) && i' == Integrals(ShiftAll(faces, d))
    ensures |i| == 10 == |i'|
    ensures forall n ::
        7 <= n <= 9 ==>
          RawProduct(i[n], i'[n], TurnTo(d, AxisOf(n)).x, TurnTo(d, AxisOf(n)).y, i[FirstPlace(n)],
            i[FirstPlace(n + 1)], i[0])
  {
    forall n | 7 <= n <= 9
      ensures RawProduct(i[n], i'[n], TurnTo(d, AxisOf(n)).x, TurnTo(d, AxisOf(n)).y, i[FirstPlace(n)],
          i[FirstPlace(n + 1)], i[0])
    {
      SlotOf(n);
      ProductMovesAt(faces, d, i, i', n, FirstPlace(n), FirstPlace(n + 1), AxisOf(n));
    }
  }

  lemma PropertiesMove(i: seq<real>, i': seq<real>, d: Vec)
    requires |i| == 10 == |i'| && IntegralsMoved(i, i', d)
    ensures FromIntegrals(i').volume == FromIntegrals(i).volume
    ensures Abs(FromIntegrals(i).volume) > Negligible ==>
        FromIntegrals(i') == FromIntegrals(i).(com := Add(FromIntegrals(i).com, d))
  {
    var v, m, s, p := ScaledParts(i);
    var v', m', s', p' := ScaledParts(i');
    if Abs(v) > Negligible {
      ScaledMoves(i, i', d, v, m, s, p, m', s', p');
      AboutCentreMoves(v, m, s, p, m', s', p', d);
    }
  }

  lemma ScaledParts(i: seq<real>) returns (v: real, m: Vec, s: Vec, p: Vec)
    requires |i| == 10
    ensures IsScaled(i, v, m, s, p) && FromIntegrals(i) == AboutCentre(v, m, s, p)
  {
    v := i[0] * (1.0 / 6.0);
    m := Vec(i[1] * (1.0 / 24.0), i[2] * (1.0 / 24.0), i[3] * (1.0 / 24.0));
    s := Vec(i[4] * (1.0 / 60.0), i[5] * (1.0 / 60.0), i[6] * (1.0 / 60.0));
    p := Vec(i[7] * (1.0 / 120.0), i[8] * (1.0 / 120.0), i[9] * (1.0 / 120.0));
  }

  predicate IsScaled(i: seq<real>, v: real, m: Vec, s: Vec, p: Vec)
    requires |i| == 10
  {
    && v == i[0] * (1.0 / 6.0)
    && m == Vec(i[1] * (1.0 / 24.0), i[2] * (1.0 / 24.0), i[3] * (1.0 / 24.0))
    && s == Vec(i[4] * (1.0 / 60.0), i[5] * (1.0 / 60.0), i[6] * (1.0 / 60.0))
    && p == Vec(i[7] * (1.0 / 120.0), i[8] * (1.0 / 120.0), i[9] * (1.0 / 120.0))
  }

  lemma ScaledMoves(i: seq<real>, i': seq<real>, d: Vec, v: real, m: Vec, s: Vec, p: Vec, m': Vec, s': Vec, p': Vec)
    requires |i| == 10 == |i'| && IntegralsMoved(i, i', d) && IsScaled(i, v, m, s, p) && IsScaled(i', v, m', s', p')
    ensures Moved(v, m, s, p, m', s', p', d)
  {
    assert FirstPlace(4) == 1 && FirstPlace(5) == 2 && FirstPlace(6) == 3;
    assert FirstPlace(7) == 1 && FirstPlace(8) == 2 && FirstPlace(9) == 3 && FirstPlace(10) == 1;
    ScaleFirst(i[1], i'[1], d.x, i[0]);
    ScaleFirst(i[2], i'[2], d.y, i[0]);
    ScaleFirst(i[3], i'[3], d.z, i[0]);
    ScaleSecond(i[4], i'[4], d.x, i[1], i[0]);
    ScaleSecond(i[5], i'[5], d.y, i[2], i[0]);
    ScaleSecond(i[6], i'[6], d.z, i[3], i[0]);
    ScaleProduct(i[7], i'[7], d.x, d.y, i[1], i[2], i[0]);
    ScaleProduct(i[8], i'[8], d.y, d.z, i[2], i[3], i[0]);
    ScaleProduct(i[9], i'[9], d.z, d.x, i[3], i[1], i[0]);
  }

  /** Moving a closed mesh keeps its volume; unless the volume is negligible the centre of
      mass moves with it and all six entries of the inertia tensor about it are unchanged. */
  lemma MassPropertiesMove(faces: seq<Tri>, d: Vec)
    requires Closed(faces)
    ensures var before, after := PropertiesOf(faces), PropertiesOf(ShiftAll(faces, d));
      && after.volume == before.volume
      && (Abs(before.volume) > Negligible ==> after == before.(com := Add(before.com, d)))
  {
    var i, i' := Integrals(faces), Integrals(ShiftAll(faces, d));
    VolumeMovesAt(faces, d, i, i');
    FirstsMove(faces, d, i, i');
    SecondsMove(faces, d, i, i');
    ProductsMove(faces, d, i, i');
    PropertiesMove(i, i', d);
  }

  /** The mesh with every stored coordinate moved. */
  function MovedMesh(m: MeshBuffers, d: Vec): MeshBuffers {
    m.(positions := seq(|m.positions|, i requires 0 <= i < |m.positions| =>
      m.positions[i] + (if i % 3 == 0 then d.x else if i % 3 == 1 then d.y else d.z)))
  }

  lemma PointMoves(m: MeshBuffers, d: Vec, i: nat)
    requires 3 * i + 2 < |m.positions|
    ensures Point(MovedMesh(m, d), i) == Add(Point(m, i), d)
  {
    assert (3 * i) % 3 == 0 && (3 * i + 1) % 3 == 1 && (3 * i + 2) % 3 == 2;
  }

  /** Moving the stored coordinates moves the faces. */
  lemma FacesMove(m: MeshBuffers, d: Vec)
    requires Indexed(m)
    ensures Indexed(MovedMesh(m, d)) && Faces(MovedMesh(m, d)) == ShiftAll(Faces(m), d)
  {
    forall k | 0 <= k < |m.indices| / 3 ensures FaceAt(MovedMesh(m, d), k) == MapTri(FaceAt(m, k), ShiftMap(d)) {
      PointMoves(m, d, m.indices[3 * k]);
      PointMoves(m, d, m.indices[3 * k + 1]);
      PointMoves(m, d, m.indices[3 * k + 2]);
    }
  }

  // ---------------------------------------------------------------- tetrahedra

  /** Each of the ten integrals of a closed mesh is the sum over signed tetrahedra. */
  lemma IntegralIsTetrahedra(faces: seq<Tri>, kind: Kind, k: Axis)
    requires Closed(faces)
    ensures Integral(faces, kind, k) == Sum(TurnAll(faces, k), TetTerm(kind))
  {
    IntegralIsMoment(faces, kind, k);
    MappedIsClosed(faces, TurnMap(k));
    MomentIsTetrahedra(TurnAll(faces, k), kind);
  }

  function DetMap(): Tri -> real { (t: Tri) => Det(t) }

  lemma TurnToX(faces: seq<Tri>)
    ensures TurnAll(faces, X) == faces
  {
    forall i | 0 <= i < |faces| ensures TurnAll(faces, X)[i] == faces[i] { TurnedIsMapped(faces[i], X); }
  }

  /** The accumulated volume of a closed mesh is a sixth of the sum of determinants. */
  lemma VolumeIsDeterminants(faces: seq<Tri>, i: seq<real>)
    requires Closed(faces) && i == Integrals(faces)
    ensures |i| == 10 && i[0] == Sum(faces, DetMap())
  {
    IntegralAt(faces, i, 0, Volume, X);
    IntegralIsTetrahedra(faces, Volume, X);
    TurnToX(faces);
    forall t ensures TetTerm(Volume)(t) == DetMap()(t) { MulOfOne(Det(t)); }
    SumOfEqual(faces, TetTerm(Volume), DetMap());
  }

  // ---------------------------------------------------------------- reversed faces

  function Flip(t: Tri): Tri { Tri(t.b, t.a, t.c) }

  function FlipAll(faces: seq<Tri>): seq<Tri> { seq(|faces|, i requires 0 <= i < |faces| => Flip(faces[i])) }

  lemma FlipNormal(t: Tri)
    ensures NormalX(Flip(t)) == -NormalX(t)
  {
    NormalIsWedges(t);
    NormalIsWedges(Flip(t));
  }

  lemma FlipFactor(kind: Kind, t: Tri)
    ensures Factor(kind, Flip(t)) == Factor(kind, t)
  {
    E2Symmetric(t.a.x, t.b.x);
    E3Symmetric(t.a.x, t.b.x);
    assert F1(t.b.x, t.a.x, t.c.x) == F1(t.a.x, t.b.x, t.c.x);
    assert F2(t.b.x, t.a.x, t.c.x) == F2(t.a.x, t.b.x, t.c.x);
  }

  lemma FlipKernel(kind: Kind, t: Tri)
    ensures Kernel(kind, Flip(t)) == -Kernel(kind, t)
  {
    FlipNormal(t);
    FlipFactor(kind, t);
    MulNegated(NormalX(t), Factor(kind, t), NormalX(Flip(t)));
  }

  lemma FlipTerm(kind: Kind, k: Axis, t: Tri)
    ensures TermOf(kind, k)(Flip(t)) == -TermOf(kind, k)(t)
  {
    assert Turned(Flip(t), k) == Flip(Turned(t, k));
    FlipKernel(kind, Turned(t, k));
  }

  lemma {:induction false} SumOfFlipped(faces: seq<Tri>, f: Tri -> real)
    requires forall t :: f(Flip(t)) == -f(t)
    ensures Sum(FlipAll(faces), f) == -Sum(faces, f)
  {
    if faces != [] {
      var init, t := faces[..|faces| - 1], faces[|faces| - 1];
      SumOfFlipped(init, f);
      assert FlipAll(faces) == FlipAll(init) + [Flip(t)];
      SumOfAppend(FlipAll(init), Flip(t), f);
    }
  }

  lemma IntegralFlips(faces: seq<Tri>, kind: Kind, k: Axis)
    ensures Integral(FlipAll(faces), kind, k) == -Integral(faces, kind, k)
  {
    forall t ensures TermOf(kind, k)(Flip(t)) == -TermOf(kind, k)(t) { FlipTerm(kind, k, t); }
    SumOfFlipped(faces, TermOf(kind, k));
  }

  lemma IntegralsFlip(faces: seq<Tri>, i: seq<real>, i': seq<real>)
    requires i == Integrals(faces) && i' == Integrals(FlipAll(faces))
    ensures |i| == 10 == |i'| && forall n :: 0 <= n < 10 ==> i'[n] == -i[n]
  {
    forall n | 0 <= n < 10 ensures i'[n] == -i[n] { IntegralFlips(faces, Slot(n).0, Slot(n).1); }
  }

  function Negated(v: Vec): Vec { Vec(-v.x, -v.y, -v.z) }

  lemma CentreFlips(v: real, m: real)
    requires v != 0.0
    ensures (-m) / (-v) == m / v
  {
    var c := m / v;
    assert c * v == m;
    assert c * (-v) == -m;
  }

  lemma CentresFlip(v: real, m: Vec)
    ensures CentreOf(-v, Negated(m)) == CentreOf(v, m)
  {
    if Abs(v) > Negligible {
      CentreFlips(v, m.x);
      CentreFlips(v, m.y);
      CentreFlips(v, m.z);
    }
  }

  lemma AboutCentreFlips(v: real, v': real, m: Vec, s: Vec, p: Vec, c: Vec)
    requires v' == -v && c == CentreOf(v, m) && c == CentreOf(v', Negated(m))
    ensures AboutCentre(v', Negated(m), Negated(s), Negated(p)) ==
      MassProperties(v', c, Negated(AboutCentre(v, m, s, p).moments), Negated(AboutCentre(v, m, s, p).products))
  {
    MulNegated(v, Mul(c.y, c.y) + Mul(c.z, c.z), v');
    MulNegated(v, Mul(c.x, c.x) + Mul(c.z, c.z), v');
    MulNegated(v, Mul(c.x, c.x) + Mul(c.y, c.y), v');
    MulNegated(v, c.x, v');
    MulNegated(v, c.y, v');
    MulNegated(Mul(v, c.x), c.y, Mul(v', c.x));
    MulNegated(Mul(v, c.y), c.z, Mul(v', c.y));
    MulNegated(Mul(v, c.x), c.z, Mul(v', c.x));
  }

  lemma PropertiesFlip(i: seq<real>, i': seq<real>, before: MassProperties, after: MassProperties)
    requires
      && |i| == 10 == |i'| && (forall n :: 0 <= n < 10 ==> i'[n] == -i[n]) && before == FromIntegrals(i)
      && after == FromIntegrals(i')
    ensures after == MassProperties(-before.volume, before.com, Negated(before.moments), Negated(before.products))
  {
    var v, m, s, p := ScaledParts(i);
    var v', m', s', p' := ScaledParts(i');
    assert m' == Negated(m) && s' == Negated(s) && p' == Negated(p);
    CentresFlip(v, m);
    AboutCentreFlips(v, v', m, s, p, CentreOf(v, m));
  }

  /** Volume and inertia negated, the centre of mass kept. */
  predicate Mirrored(before: MassProperties, after: MassProperties) {
    after == MassProperties(-before.volume, before.com, Negated(before.moments), Negated(before.products))
  }

  lemma FlipMirrors(i: seq<real>, i': seq<real>)
    requires |i| == 10 == |i'| && forall n :: 0 <= n < 10 ==> i'[n] == -i[n]
    ensures Mirrored(FromIntegrals(i), FromIntegrals(i'))
  {
    PropertiesFlip(i, i', FromIntegrals(i), FromIntegrals(i'));
  }

  /** Reversing every face negates the volume and the inertia and leaves the centre of mass. */
  lemma MassPropertiesFlip(faces: seq<Tri>)
    ensures Mirrored(PropertiesOf(faces), PropertiesOf(FlipAll(faces)))
  {
    var i, i' := Integrals(faces), Integrals(FlipAll(faces));
    IntegralsFlip(faces, i, i');
    FlipMirrors(i, i');
  }
}
