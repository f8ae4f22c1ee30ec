/** Triangles, their boxes, and the interval test for triangle pairs, over the reals. */
module TriangleTest {
  import opened Common

  datatype Vec = Vec(x: real, y: real, z: real)

  datatype Tri = Tri(a: Vec, b: Vec, c: Vec)

  datatype Axis = X | Y | Z

  function Along(v: Vec, axis: Axis): real {
    match axis case X => v.x case Y => v.y case Z => v.z
  }

  function Sub(a: Vec, b: Vec): Vec { Vec(a.x - b.x, a.y - b.y, a.z - b.z) }

  function Add(a: Vec, b: Vec): Vec { Vec(a.x + b.x, a.y + b.y, a.z + b.z) }

  /** Turning the axes: y takes the place of x, z of y and x of z. */
  function Turn(v: Vec): Vec { Vec(v.y, v.z, v.x) }

  function Cross(a: Vec, b: Vec): Vec {
    Vec(a.y * b.z - a.z * b.y, a.z * b.x - a.x * b.z, a.x * b.y - a.y * b.x)
  }

  function Dot(a: Vec, b: Vec): real { a.x * b.x + a.y * b.y + a.z * b.z }

  const Eps: real := 0.000000000001

  /** A value per vertex of a triangle. */
  datatype Triple = Triple(p: real, q: real, r: real)

  function Normal(t: Tri): Vec { Cross(Sub(t.b, t.a), Sub(t.c, t.a)) }

  /** The scaled signed distance of a point from the plane with normal `n` through `o`. */
  function Height(n: Vec, o: Vec, p: Vec): real { Dot(n, p) + -Dot(n, o) }

  function Heights(t: Tri, plane: Tri): Triple {
    var n := Normal(plane);
    Triple(Height(n, plane.a, t.a), Height(n, plane.a, t.b), Height(n, plane.a, t.c))
  }

  predicate OneSided(d: Triple) {
    || (d.p > Eps && d.q > Eps && d.r > Eps)
    || (d.p < -Eps && d.q < -Eps && d.r < -Eps)
  }

  predicate Coplanar(d: Triple) { Abs(d.p) <= Eps && Abs(d.q) <= Eps && Abs(d.r) <= Eps }

  /** The axis along which a direction moves most. */
  function Dominant(d: Vec): (k: Axis)
    ensures Abs(d.x) <= Abs(Along(d, k)) && Abs(d.y) <= Abs(Along(d, k)) && Abs(d.z) <= Abs(Along(d, k))
  {
    if Abs(d.x) >= Abs(d.y) && Abs(d.x) >= Abs(d.z) then X
    else if Abs(d.y) >= Abs(d.z) then Y
    else Z
  }

  function Projected(t: Tri, axis: Axis): Triple { Triple(Along(t.a, axis), Along(t.b, axis), Along(t.c, axis)) }

  /** Where the edge from (p, d) to the lone vertex (ps, ds) meets height zero. */
  function Crossing(p: real, d: real, ps: real, ds: real): real
    requires d - ds != 0.0
  {
    p + (ps - p) * (d / (d - ds))
  }

  /** The lone vertex comes last: the other two lie together on the other side. */
  function LoneLast<T>(d: Triple, p: T, q: T, r: T): (T, T, T) {
    if d.p * d.q > 0.0 then (p, q, r)
    else if d.p * d.r > 0.0 then (p, r, q)
    else (q, r, p)
  }

  function Interval(p: Triple, d: Triple): Option<(real, real)> {
    var (di, dj, ds) := LoneLast(d, d.p, d.q, d.r);
    var (pi, pj, ps) := LoneLast(d, p.p, p.q, p.r);
    if Abs(di - ds) <= Eps || Abs(dj - ds) <= Eps then None
    else
      var ti, tj := Crossing(pi, di, ps, ds), Crossing(pj, dj, ps, ds);
      Some((Min(ti, tj), Max(ti, tj)))
  }

  predicate Overlapping(i: Option<(real, real)>, j: Option<(real, real)>) {
    i.Some? && j.Some? && Max(i.value.0, j.value.0) <= Min(i.value.1, j.value.1)
  }

  predicate TriTri(t1: Tri, t2: Tri) {
    var d1, d2 := Heights(t1, t2), Heights(t2, t1);
    && !OneSided(d1)
    && !OneSided(d2)
    && !Coplanar(d1)
    && var axis := Dominant(Cross(Normal(t1), Normal(t2)));
       Overlapping(Interval(Projected(t1, axis), d1), Interval(Projected(t2, axis), d2))
  }

  // ---------------------------------------------------------------- boxes

  datatype Aabb = Aabb(min: Vec, max: Vec)

  function MinVec(a: Vec, b: Vec): Vec { Vec(Min(a.x, b.x), Min(a.y, b.y), Min(a.z, b.z)) }

  function MaxVec(a: Vec, b: Vec): Vec { Vec(Max(a.x, b.x), Max(a.y, b.y), Max(a.z, b.z)) }

  function BoxOf(t: Tri): Aabb {
    Aabb(MinVec(MinVec(t.a, t.b), t.c), MaxVec(MaxVec(t.a, t.b), t.c))
  }

  function Union(a: Aabb, b: Aabb): Aabb { Aabb(MinVec(a.min, b.min), MaxVec(a.max, b.max)) }

  predicate Overlaps(a: Aabb, b: Aabb) {
    forall k: Axis :: Along(a.min, k) <= Along(b.max, k) && Along(a.max, k) >= Along(b.min, k)
  }

  /** The axis along which a box extends most. */
  function LongestAxis(b: Aabb): (k: Axis)
    ensures var e := Sub(b.max, b.min); e.x <= Along(e, k) && e.y <= Along(e, k) && e.z <= Along(e, k)
  {
    var e := Sub(b.max, b.min);
    if e.x >= e.y && e.x >= e.z then X else if e.y >= e.z then Y else Z
  }

  /** The mean of the vertices: their deviations from it cancel. */
  function Centroid(t: Tri, axis: Axis): (c: real)
    ensures (Along(t.a, axis) - c) + (Along(t.b, axis) - c) + (Along(t.c, axis) - c) == 0.0
  {
    (Along(t.a, axis) + Along(t.b, axis) + Along(t.c, axis)) / 3.0
  }

  predicate Inside(p: Vec, b: Aabb) {
    forall k: Axis :: Along(b.min, k) <= Along(p, k) <= Along(b.max, k)
  }

  /** Every point of the first box lies in the second. */
  predicate Within(a: Aabb, b: Aabb) {
    forall k: Axis :: Along(b.min, k) <= Along(a.min, k) && Along(a.max, k) <= Along(b.max, k)
  }
}
