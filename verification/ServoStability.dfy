/** When a servo settles: the exact condition on zeta and h = omega * dt, over all runs. */
module ServoStability {
  import opened Common
  import opened RealProduct
  import opened Servo

  function Norm(p: Point): real { Square(p.e) + Square(p.u) }

  /** Every run shrinks to rest at least as fast as a geometric sequence. */
  ghost predicate Decays(step: Point -> Point, c: real, s: real) {
    && 0.0 <= s < 1.0
    && forall p: Point, n: nat :: Norm(Iterate(step, p, n)) <= Mul(Mul(c, Power(s, n)), Norm(p))
  }

  ghost predicate Settles(step: Point -> Point) { exists c, s :: Decays(step, c, s) }

  /** The condition: damping of the right sign, and a step that is small enough for it. */
  predicate Stable(zeta: real, h: real) { 0.0 < Mul(zeta, h) && Square(h) + 4.0 * Mul(zeta, h) < 4.0 }

  /** The trace of the step; its determinant is the rate. */
  function Trace(zeta: real, h: real): real { 1.0 + Rate(zeta, h) - Square(h) }

  lemma TimesTrace(r: real, h: real, t: real, x: real)
    requires t == 1.0 + r - Square(h)
    ensures Mul(t, x) == x + Mul(r, x) - Mul(h, Mul(h, x))
  {
    MulDifference(x, 1.0 + r, Square(h), t);
    MulSum(x, 1.0, r, 1.0 + r);
    MulOfOne(x);
    MulSwap(h, h, x);
  }

  /** Error and velocity each obey the recurrence of the characteristic polynomial. */
  lemma Recurrence(zeta: real, h: real, p: Point, q: Point, z: Point)
    requires q == ErrorStep(zeta, h, p) && z == ErrorStep(zeta, h, q)
    ensures z.u == Mul(Trace(zeta, h), q.u) - Mul(Rate(zeta, h), p.u)
    ensures z.e == Mul(Trace(zeta, h), q.e) - Mul(Rate(zeta, h), p.e)
  {
    var r, t := Rate(zeta, h), Trace(zeta, h);
    TimesTrace(r, h, t, q.u);
    MulSum(h, p.e, Mul(h, q.u), q.e);
    TimesTrace(r, h, t, q.e);
    MulDifference(h, Mul(r, q.u), Mul(h, q.e), z.u);
    MulSwap(h, r, q.u);
    MulDifference(r, q.e, p.e, Mul(h, q.u));
  }

  // ---------------------------------------------------------------- the energy of two successive velocities

  function Energy(r: real, t: real, x: real, y: real): real {
    Mul(1.0 + r, Square(x) + Square(y)) - 2.0 * Mul(t, Mul(x, y))
  }

  /** One step of the recurrence takes (1 - r) * (z - y)^2 away from the energy. */
  lemma EnergyDrops(r: real, t: real, x: real, y: real, z: real)
    requires z == Mul(t, x) - Mul(r, y)
    ensures Energy(r, t, z, x) == Energy(r, t, x, y) - Mul(1.0 - r, Square(z - y))
  {
    var w, k, p := z - y, 1.0 + r, Mul(t, x);
    var xx, yy, zz := Square(x), Square(y), Square(z);
    MulSum(k, zz, xx, zz + xx);
    MulSum(k, xx, yy, xx + yy);
    MulSwap(t, z, x);
    MulSwap(t, x, y);
    MulCommutes(z, x);
    MulSwap(t, x, z);
    MulDifference(p, z, y, w);
    SquareDifference(z, y, w);
    MulDifference(k, zz, yy, zz - yy);
    DropFactor(r, p, y, z, w);
  }

  lemma SquareDifference(z: real, y: real, w: real)
    requires w == z - y
    ensures Square(z) - Square(y) == Mul(w, z + y)
  {
    MulDifference(z + y, z, y, w);
    MulSum(z, z, y, z + y);
    MulSum(y, z, y, z + y);
    MulCommutes(z, y);
  }

  lemma DropFactor(r: real, p: real, y: real, z: real, w: real)
    requires z == p - Mul(r, y) && w == z - y
    ensures Mul(1.0 + r, Mul(w, z + y)) - 2.0 * Mul(p, w) == -Mul(1.0 - r, Square(w))
  {
    var s, ry := z + y, Mul(r, y);
    MulSwap(1.0 + r, w, s);
    MulSum(s, 1.0, r, 1.0 + r);
    MulOfOne(s);
    MulDifference(w, 1.0, r, 1.0 - r);
    MulOfOne(w);
    MulSwap(w, 1.0 - r, w);
    MulDifference(r, z, y, w);
    MulSum(r, z, y, s);
    var inner := s + Mul(r, s) - 2.0 * p;
    assert inner == -(w - Mul(r, w));
    MulDifference(w, Mul(1.0 + r, s), 2.0 * p, inner);
    MulTwice(p, w, 2.0 * p);
    MulNegated(w - Mul(r, w), w, inner);
    MulCommutes(p, w);
  }

  /** The product of two numbers against the sum of their squares. */
  lemma ProductBound(t: real, x: real, y: real, a: real, n: real)
    requires a == Abs(t) && n == Square(x) + Square(y)
    ensures -Mul(a, n) <= 2.0 * Mul(t, Mul(x, y)) <= Mul(a, n)
  {
    var m := Mul(x, y);
    SquareOfSum(x, y, x + y);
    SquareSign(x + y);
    SquareOfSum(x, -y, x - y);
    MulNegated(y, x, -y);
    MulNegated(y, -y, -y);
    MulNegated(y, y, -y);
    SquareSign(x - y);
    MulMonotone(2.0 * m, n, a);
    MulMonotone(-n, 2.0 * m, a);
    MulNegated(n, a, -n);
    MulTwice(m, a, 2.0 * m);
    if t < 0.0 { MulNegated(t, m, a); }
  }

  lemma EnergyBounds(r: real, t: real, x: real, y: real, n: real)
    requires n == Square(x) + Square(y)
    ensures Mul(1.0 + r - Abs(t), n) <= Energy(r, t, x, y) <= Mul(1.0 + r + Abs(t), n)
  {
    ProductBound(t, x, y, Abs(t), n);
    MulDifference(n, 1.0 + r, Abs(t), 1.0 + r - Abs(t));
    MulSum(n, 1.0 + r, Abs(t), 1.0 + r + Abs(t));
  }

  /** A square of a sum against the sum of squares. */
  lemma SumSquareBound(a: real, b: real, c: real)
    requires c == a + b || c == a - b
    ensures Square(c) <= 2.0 * Square(a) + 2.0 * Square(b)
  {
    var d := if c == a + b then b else -b;
    SquareOfSum(a, d, c);
    MulNegated(b, d, -b);
    MulNegated(b, b, -b);
    SquareOfSum(a, -d, a - d);
    MulNegated(d, a, -d);
    MulNegated(d, -d, -d);
    MulNegated(d, d, -d);
    SquareSign(a - d);
  }

  /** A factor of magnitude at most two at most quadruples a square. */
  lemma SquareOfBounded(k: real, a: real)
    requires -2.0 <= k <= 2.0
    ensures Square(Mul(k, a)) <= 4.0 * Square(a)
  {
    SquareOfProduct(k, a);
    SquareSign(a);
    var m := Abs(k);
    MulNegated(k, k, -k);
    MulNegated(k, -k, -k);
    assert Square(m) == Square(k);
    MulMonotone(m, 2.0, m);
    MulMonotone(Square(m), 4.0, Square(a));
    assert Mul(2.0, m) == 2.0 * m && Mul(4.0, Square(a)) == 4.0 * Square(a);
  }

  lemma CombinationBound(k: real, a: real, t: real, b: real, c: real)
    requires -2.0 <= k <= 2.0 && -2.0 <= t <= 2.0 && c == Mul(k, a) + Mul(t, b)
    ensures Square(c) <= 8.0 * (Square(a) + Square(b))
  {
    SumSquareBound(Mul(k, a), Mul(t, b), c);
    SquareOfBounded(k, a);
    SquareOfBounded(t, b);
  }

  lemma Resolve(k: real, t: real, x: real, y: real, a: real, b: real, d: real)
    requires a == Mul(t, x) - Mul(k, y) && b == Mul(t, y) - Mul(k, x) && d == Square(k) - Square(t)
    ensures Mul(k, a) + Mul(t, b) == -Mul(d, y) && Mul(t, a) + Mul(k, b) == -Mul(d, x)
  {
    MulDifference(k, Mul(t, x), Mul(k, y), a);
    MulDifference(t, Mul(t, y), Mul(k, x), b);
    MulDifference(t, Mul(t, x), Mul(k, y), a);
    MulDifference(k, Mul(t, y), Mul(k, x), b);
    MulSwap(k, t, x);
    MulSwap(t, k, x);
    MulSwap(k, t, y);
    MulSwap(t, k, y);
    MulCommutes(t, k);
    MulSwap(k, k, y);
    MulSwap(t, t, y);
    MulSwap(t, t, x);
    MulSwap(k, k, x);
    MulDifference(y, Square(k), Square(t), d);
    MulDifference(x, Square(k), Square(t), d);
  }

  /** Two successive drops control the pair of velocities. */
  lemma DropsControl(r: real, t: real, x: real, y: real, z: real, v: real, d: real)
    requires -1.0 <= r <= 1.0 && -2.0 <= t <= 2.0 && d == Square(1.0 + r) - Square(t)
    requires z == Mul(t, x) - Mul(r, y) && v == Mul(t, z) - Mul(r, x)
    ensures Mul(Square(d), Square(x) + Square(y)) <= 144.0 * (Square(z - y) + Square(v - x))
  {
    var k, a, w := 1.0 + r, z - y, v - x;
    MulSum(y, 1.0, r, k);
    MulOfOne(y);
    MulSum(x, 1.0, r, k);
    MulOfOne(x);
    var b := Mul(t, y) - Mul(k, x);
    MulDifference(t, z, y, a);
    assert b == w - Mul(t, a);
    Resolve(k, t, x, y, a, b, d);
    CombinationBound(k, a, t, b, -Mul(d, y));
    CombinationBound(t, a, k, b, -Mul(d, x));
    SquareOfNegated(Mul(d, y));
    SquareOfNegated(Mul(d, x));
    SquareOfProduct(d, x);
    SquareOfProduct(d, y);
    MulSum(Square(d), Square(x), Square(y), Square(x) + Square(y));
    SumSquareBound(w, Mul(t, a), b);
    SquareOfBounded(t, a);
    SquareSign(w);
  }

  lemma SquareOfNegated(a: real)
    ensures Square(-a) == Square(a)
  {
    MulNegated(a, a, -a);
    MulNegated(a, -a, -a);
  }

  // ---------------------------------------------------------------- settling

  /** The energies of two successive steps together. */
  function Potential(r: real, t: real, x: real, y: real): real {
    Energy(r, t, x, y) + Energy(r, t, Mul(t, x) - Mul(r, y), x)
  }

  /** What the stability condition says of rate, trace and determinant margin. */
  predicate Margins(r: real, t: real) { -1.0 < r < 1.0 && Abs(t) < 1.0 + r }

  function Contraction(r: real, t: real): real { 1.0 - Mul(1.0 - r, Square(Square(1.0 + r) - Square(t))) / 1152.0 }

  lemma ContractionRange(r: real, t: real)
    requires Margins(r, t)
    ensures 0.0 <= Contraction(r, t) < 1.0
  {
    var k, m := 1.0 + r, Abs(t);
    var d := Square(k) - Square(t);
    SquareOfNegated(t);
    SquareDifference(k, m, k - m);
    MulSign(k - m, k + m);
    SquareSign(t);
    MulMonotone(k, 2.0, k);
    assert Mul(2.0, k) == 2.0 * k;
    MulMonotone(d, 4.0, d);
    assert Mul(4.0, d) == 4.0 * d;
    MulSign(d, d);
    MulSign(1.0 - r, Square(d));
    MulMonotone(1.0 - r, 2.0, Square(d));
    assert Mul(2.0, Square(d)) == 2.0 * Square(d);
  }

  /** The potential lies between multiples of the squared velocities. */
  lemma PotentialBounds(r: real, t: real, x: real, y: real, n: real)
    requires Margins(r, t) && n == Square(x) + Square(y)
    ensures Mul(1.0 + r - Abs(t), n) <= Potential(r, t, x, y) <= 8.0 * n && 0.0 <= n
  {
    var z := Mul(t, x) - Mul(r, y);
    EnergyBounds(r, t, x, y, n);
    EnergyBounds(r, t, z, x, Square(z) + Square(x));
    SquareSign(x);
    SquareSign(y);
    SquareSign(z);
    MulSign(1.0 + r - Abs(t), Square(z) + Square(x));
    EnergyDrops(r, t, x, y, z);
    SquareSign(z - y);
    MulSign(1.0 - r, Square(z - y));
    MulMonotone(1.0 + r + Abs(t), 4.0, n);
    assert Mul(4.0, n) == 4.0 * n;
  }

  lemma PotentialContracts(r: real, t: real, x: real, y: real, z: real)
    requires Margins(r, t) && z == Mul(t, x) - Mul(r, y)
    ensures Potential(r, t, z, x) <= Mul(Contraction(r, t), Potential(r, t, x, y))
  {
    var v, n, d := Mul(t, z) - Mul(r, x), Square(x) + Square(y), Square(1.0 + r) - Square(t);
    EnergyDrops(r, t, x, y, z);
    EnergyDrops(r, t, z, x, v);
    var f, g := 1.0 - r, Square(z - y) + Square(v - x);
    MulSum(f, Square(z - y), Square(v - x), g);
    DropsControl(r, t, x, y, z, v, d);
    PotentialBounds(r, t, x, y, n);
    var k, e := Mul(f, Square(d)), Potential(r, t, x, y);
    MulMonotone(Mul(Square(d), n), 144.0 * g, f);
    MulSwap(f, Square(d), n);
    TimesLiteral(f, g);
    SquareSign(d);
    MulSign(f, Square(d));
    MulMonotone(e, 8.0 * n, k);
    TimesLiteral(k, n);
    ContractionTimes(k, e, Contraction(r, t));
  }

  lemma TimesLiteral(a: real, b: real)
    ensures Mul(a, 144.0 * b) == 144.0 * Mul(a, b) && Mul(a, 8.0 * b) == 8.0 * Mul(a, b)
  {
  }

  lemma ContractionTimes(k: real, e: real, s: real)
    requires s == 1.0 - k / 1152.0
    ensures 1152.0 * Mul(s, e) == 1152.0 * e - Mul(k, e)
  {
    var q := k / 1152.0;
    MulDifference(e, 1.0, q, s);
    MulOfOne(e);
    assert Mul(k, e) == 1152.0 * Mul(q, e);
  }

  /** The norm against the squares of two successive velocities. */
  lemma NormBounds(r: real, h: real, p: Point, x: real, n: real)
    requires -2.0 <= r <= 2.0 && -2.0 <= h <= 2.0 && x == Mul(r, p.u) - Mul(h, p.e) && n == Square(x) + Square(p.u)
    ensures n <= 9.0 * Norm(p) && Mul(Square(h), Norm(p)) <= 12.0 * n
  {
    var ru, he := Mul(r, p.u), Mul(h, p.e);
    SquareOfBounded(r, p.u);
    SquareOfBounded(h, p.e);
    SumSquareBound(ru, he, x);
    SumSquareBound(ru, x, he);
    SquareOfProduct(h, p.e);
    SquareOfProduct(h, p.u);
    SquareOfBounded(h, p.u);
    MulSum(Square(h), Square(p.e), Square(p.u), Norm(p));
    SquareSign(x);
    SquareSign(p.e);
    SquareSign(p.u);
  }

  lemma CancelLeft(g: real, a: real, b: real)
    requires g > 0.0 && Mul(g, a) <= Mul(g, b)
    ensures a <= b
  {
    if a > b {
      MulSign(g, a - b);
      MulDifference(g, a, b, a - b);
    }
  }

  function PotentialOf(zeta: real, h: real): Point -> real {
    (p: Point) => Potential(Rate(zeta, h), Trace(zeta, h), ErrorStep(zeta, h, p).u, p.u)
  }

  lemma {:induction false} ContractsAlongRun(f: Point -> real, step: Point -> Point, s: real, p: Point, n: nat)
    requires 0.0 <= s && forall q :: f(step(q)) <= Mul(s, f(q))
    ensures f(Iterate(step, p, n)) <= Mul(Power(s, n), f(p))
  {
    if n == 0 {
      MulOfOne(f(p));
    } else {
      ContractsAlongRun(f, step, s, p, n - 1);
      MulMonotone(f(Iterate(step, p, n - 1)), Mul(Power(s, n - 1), f(p)), s);
      MulSwap(s, Power(s, n - 1), f(p));
    }
  }

  lemma PotentialContractsAt(zeta: real, h: real, p: Point)
    requires Margins(Rate(zeta, h), Trace(zeta, h))
    ensures PotentialOf(zeta, h)(StepMap(zeta, h)(p))
      <= Mul(Contraction(Rate(zeta, h), Trace(zeta, h)), PotentialOf(zeta, h)(p))
  {
    var q := ErrorStep(zeta, h, p);
    var z := ErrorStep(zeta, h, q);
    Recurrence(zeta, h, p, q, z);
    PotentialContracts(Rate(zeta, h), Trace(zeta, h), q.u, p.u, z.u);
  }

  lemma PotentialAlongRun(zeta: real, h: real, p: Point, n: nat)
    requires Margins(Rate(zeta, h), Trace(zeta, h))
    ensures PotentialOf(zeta, h)(Iterate(StepMap(zeta, h), p, n))
      <= Mul(Power(Contraction(Rate(zeta, h), Trace(zeta, h)), n), PotentialOf(zeta, h)(p))
  {
    ContractionRange(Rate(zeta, h), Trace(zeta, h));
    forall q
      ensures PotentialOf(zeta, h)(StepMap(zeta, h)(q))
        <= Mul(Contraction(Rate(zeta, h), Trace(zeta, h)), PotentialOf(zeta, h)(q))
    {
      PotentialContractsAt(zeta, h, q);
    }
    ContractsAlongRun(PotentialOf(zeta, h), StepMap(zeta, h), Contraction(Rate(zeta, h), Trace(zeta, h)), p, n);
  }

  /** The potential at one point against the norm there. */
  lemma PotentialAgainstNorm(zeta: real, h: real, p: Point, m: real)
    requires
      Margins(Rate(zeta, h), Trace(zeta, h)) && -2.0 <= h <= 2.0 && m == 1.0 + Rate(zeta, h) - Abs(Trace(zeta, h))
    ensures
      PotentialOf(zeta, h)(p) <= 72.0 * Norm(p) && Mul(Mul(Square(h), m), Norm(p)) <= 12.0 * PotentialOf(zeta, h)(p)
  {
    var r, t, x := Rate(zeta, h), Trace(zeta, h), ErrorStep(zeta, h, p).u;
    var n := Square(x) + Square(p.u);
    PotentialBounds(r, t, x, p.u, n);
    NormBounds(r, h, p, x, n);
    MulMonotone(Mul(Square(h), Norm(p)), 12.0 * n, m);
    TwelveTimes(m, n);
    MulSwap(m, Square(h), Norm(p));
    MulCommutes(m, Square(h));
  }

  lemma TwelveTimes(a: real, b: real)
    ensures Mul(a, 12.0 * b) == 12.0 * Mul(a, b) && Mul(a, 72.0 * b) == 72.0 * Mul(a, b)
  {
  }

  lemma {:induction false} PowerSign(s: real, n: nat)
    requires 0.0 <= s
    ensures 0.0 <= Power(s, n)
  {
    if n > 0 {
      PowerSign(s, n - 1);
      MulSign(s, Power(s, n - 1));
    }
  }

  lemma NormAlongRun(zeta: real, h: real, p: Point, n: nat, m: real, g: real, c: real, s: real)
    requires
      Margins(Rate(zeta, h), Trace(zeta, h)) && -2.0 <= h <= 2.0 && m == 1.0 + Rate(zeta, h) - Abs(Trace(zeta, h))
    requires g == Mul(Square(h), m) && g > 0.0 && Mul(g, c) == 864.0 && s == Contraction(Rate(zeta, h), Trace(zeta, h))
    ensures Norm(Iterate(StepMap(zeta, h), p, n)) <= Mul(Mul(c, Power(s, n)), Norm(p))
  {
    var q, w := Iterate(StepMap(zeta, h), p, n), Power(s, n);
    PotentialAlongRun(zeta, h, p, n);
    PotentialAgainstNorm(zeta, h, q, m);
    PotentialAgainstNorm(zeta, h, p, m);
    ContractionRange(Rate(zeta, h), Trace(zeta, h));
    PowerSign(s, n);
    MulMonotone(PotentialOf(zeta, h)(p), 72.0 * Norm(p), w);
    TwelveTimes(w, Norm(p));
    Scaled(g, c, w, Norm(p));
    CancelLeft(g, Norm(q), Mul(Mul(c, w), Norm(p)));
  }

  lemma Scaled(g: real, c: real, w: real, n: real)
    requires Mul(g, c) == 864.0
    ensures Mul(g, Mul(Mul(c, w), n)) == 864.0 * Mul(w, n)
  {
    MulSwap(c, w, n);
    MulSwap(g, c, Mul(w, n));
    assert Mul(864.0, Mul(w, n)) == 864.0 * Mul(w, n);
  }

  lemma SquareBeyond(h: real)
    ensures h > 2.0 || h < -2.0 ==> Square(h) > 4.0
  {
    var m := Abs(h);
    SquareOfNegated(h);
    if m > 2.0 {
      MulMonotone(2.0, m, m);
      assert Mul(2.0, m) == 2.0 * m;
    }
  }

  lemma StableMargins(zeta: real, h: real)
    requires Stable(zeta, h)
    ensures Margins(Rate(zeta, h), Trace(zeta, h)) && h != 0.0 && -2.0 <= h <= 2.0
  {
    MulOfZero(zeta);
    SquareSign(h);
    SquareBeyond(h);
  }

  lemma Quotient(a: real, g: real) returns (c: real)
    requires g != 0.0
    ensures Mul(g, c) == a
  {
    c := a / g;
  }

  lemma DecaysWith(zeta: real, h: real, m: real, g: real, c: real, s: real)
    requires
      Margins(Rate(zeta, h), Trace(zeta, h)) && -2.0 <= h <= 2.0 && m == 1.0 + Rate(zeta, h) - Abs(Trace(zeta, h))
    requires g == Mul(Square(h), m) && g > 0.0 && Mul(g, c) == 864.0 && s == Contraction(Rate(zeta, h), Trace(zeta, h))
    ensures Decays(StepMap(zeta, h), c, s)
  {
    ContractionRange(Rate(zeta, h), Trace(zeta, h));
    forall p: Point, n: nat ensures Norm(Iterate(StepMap(zeta, h), p, n)) <= Mul(Mul(c, Power(s, n)), Norm(p)) {
      NormAlongRun(zeta, h, p, n, m, g, c, s);
    }
  }

  /** Under the condition every run settles. */
  lemma StableSettles(zeta: real, h: real)
    requires Stable(zeta, h)
    ensures Settles(StepMap(zeta, h))
  {
    StableMargins(zeta, h);
    var m, s := 1.0 + Rate(zeta, h) - Abs(Trace(zeta, h)), Contraction(Rate(zeta, h), Trace(zeta, h));
    SquareSign(h);
    MulSign(Square(h), m);
    var c := Quotient(864.0, Mul(Square(h), m));
    DecaysWith(zeta, h, m, Mul(Square(h), m), c, s);
  }

  // ---------------------------------------------------------------- failing to settle

  lemma {:induction false} PowerTimesGrowth(s: real, d: real, n: nat)
    requires 0.0 <= s && 0.0 < d && s == 1.0 - d
    ensures Mul(Power(s, n), 1.0 + Mul(n as real, d)) <= 1.0
  {
    if n == 0 {
      MulOfZero(d);
      MulOfOne(1.0);
    } else {
      PowerTimesGrowth(s, d, n - 1);
      PowerSign(s, n - 1);
      var k, w := n as real, Power(s, n - 1);
      var a, b := 1.0 + Mul(k, d), 1.0 + Mul(k - 1.0, d);
      MulDifference(a, 1.0, d, s);
      MulOfOne(a);
      MulDifference(d, k, 1.0, k - 1.0);
      MulOfOne(d);
      MulSum(d, 1.0, Mul(k, d), a);
      MulSign(k, d);
      MulSign(d, Mul(k, d));
      assert Mul(s, a) <= b;
      MulMonotone(Mul(s, a), b, w);
      MulSwap(w, s, a);
      MulCommutes(s, w);
      assert (n - 1) as real == k - 1.0;
    }
  }

  /** The powers of a number below one fall below every positive bound. */
  lemma PowersVanish(s: real, k: real, b: real) returns (n: nat)
    requires 0.0 <= s < 1.0 && 0.0 < b
    ensures Mul(Power(s, n), k) < b
  {
    var d := 1.0 - s;
    var half := b / 2.0;
    if k <= half {
      n := 0;
      MulOfOne(k);
    } else {
      MulSign(d, half);
      var q := k / Mul(d, half);
      assert Mul(q, Mul(d, half)) == k;
      n := Ceiling(q);
      PowerTimesGrowth(s, d, n);
      PowerSign(s, n);
      var w, a := Power(s, n), 1.0 + Mul(n as real, d);
      MulMonotone(q, n as real, Mul(d, half));
      MulSwap(n as real, d, half);
      MulSum(half, 1.0, Mul(n as real, d), a);
      MulOfOne(half);
      MulMonotone(k, Mul(a, half), w);
      MulSwap(w, a, half);
      MulMonotone(Mul(w, a), 1.0, half);
    }
  }

  lemma Ceiling(q: real) returns (n: nat)
    ensures q <= n as real
  {
    n := if q <= 0.0 then 0 else q.Floor + 1;
  }

  lemma FallsBelow(step: Point -> Point, c: real, s: real, p: Point, b: real) returns (n: nat)
    requires Decays(step, c, s) && 0.0 < b
    ensures Norm(Iterate(step, p, n)) < b
  {
    n := PowersVanish(s, Mul(c, Norm(p)), b);
    MulSwap(c, Power(s, n), Norm(p));
    MulSwap(Power(s, n), c, Norm(p));
  }

  /** A run that keeps its distance from rest does not settle. */
  lemma KeepingAway(step: Point -> Point, p: Point, b: real)
    requires 0.0 < b && forall n: nat :: b <= Norm(Iterate(step, p, n))
    ensures !Settles(step)
  {
    if Settles(step) {
      var c, s :| Decays(step, c, s);
      var n := FallsBelow(step, c, s, p, b);
    }
  }

  // with a rate of magnitude one or more the form keeps away from zero

  lemma {:induction false} PowerOfLarge(r: real, n: nat)
    requires Abs(r) >= 1.0
    ensures Abs(Power(r, n)) >= 1.0
  {
    if n > 0 {
      PowerOfLarge(r, n - 1);
      var w := Power(r, n - 1);
      var a, b := Abs(r), Abs(w);
      MulMonotone(1.0, a, b);
      MulOfOne(b);
      MulNegated(r, w, -r);
      MulNegated(w, r, -w);
      MulNegated(w, -r, -w);
    }
  }

  lemma AbsTimes(r: real, a: real, m: real)
    requires 0.0 <= a && m == Abs(r)
    ensures -Mul(m, a) <= Mul(r, a) <= Mul(m, a) && 0.0 <= Mul(m, a)
  {
    MulSign(m, a);
    MulNegated(r, a, -r);
  }

  lemma FormAgainstNorm(b: real, r: real, p: Point, k: real)
    requires k == 1.0 + Abs(b) + Abs(r)
    ensures Abs(Quadratic(b, r, p)) <= Mul(k, Norm(p))
  {
    var n, mb, mr := Norm(p), Abs(b), Abs(r);
    SquareSign(p.e);
    SquareSign(p.u);
    ProductBound(b, p.e, p.u, mb, n);
    AbsTimes(r, Square(p.u), mr);
    MulMonotone(Square(p.u), n, mr);
    MulSign(mb, n);
    ThreeTimes(1.0, mb, mr, n, k);
    MulOfOne(n);
  }

  lemma ThreeTimes(a: real, b: real, c: real, n: real, k: real)
    requires k == a + b + c
    ensures Mul(k, n) == Mul(a, n) + Mul(b, n) + Mul(c, n)
  {
    MulSum(n, a + b, c, k);
    MulSum(n, a, b, a + b);
  }

  /** From error one at rest. */
  lemma LargeRateKeepsAway(zeta: real, h: real)
    requires Abs(Rate(zeta, h)) >= 1.0
    ensures !Settles(StepMap(zeta, h))
  {
    var r, b, p := Rate(zeta, h), 2.0 * zeta - h, Point(1.0, 0.0);
    var k := 1.0 + Abs(b) + Abs(r);
    var c := Quotient(1.0, k);
    UnitForm(b, r);
    forall n: nat ensures c <= Norm(Iterate(StepMap(zeta, h), p, n)) {
      var q := Iterate(StepMap(zeta, h), p, n);
      FormAlongIterates(zeta, h, p, n);
      MulOfOne(Power(r, n));
      PowerOfLarge(r, n);
      FormAgainstNorm(b, r, q, k);
      CancelLeft(k, c, Norm(q));
    }
    if c <= 0.0 { MulSign(k, -c); MulNegated(c, k, -c); }
    KeepingAway(StepMap(zeta, h), p, c);
  }

  lemma UnitForm(b: real, r: real)
    ensures Quadratic(b, r, Point(1.0, 0.0)) == 1.0
  {
    MulOfOne(1.0);
    MulOfOne(0.0);
    MulOfZero(b);
    MulOfZero(r);
    MulOfZero(0.0);
  }

  // otherwise the velocity alternates in sign and never comes within one of rest

  function Sign(n: nat): real { if n % 2 == 0 then 1.0 else -1.0 }

  /** Two successive velocities, taken with alternating sign, are at least one. */
  predicate Alternates(r: real, y: real, x: real) { 1.0 <= y && 1.0 <= x && (r >= 0.0 ==> y <= x) }

  lemma AlternatesOn(r: real, t: real, y: real, x: real)
    requires -1.0 < r < 1.0 && 1.0 + r <= -t && Alternates(r, y, x)
    ensures Alternates(r, x, Mul(-t, x) - Mul(r, y))
  {
    MulMonotone(1.0 + r, -t, x);
    MulSum(x, 1.0, r, 1.0 + r);
    MulOfOne(x);
    if r >= 0.0 {
      MulMonotone(y, x, r);
    } else {
      var s := -r;
      MulNegated(r, y, s);
      MulMonotone(1.0, y, s);
      MulMonotone(1.0, x, 1.0 + r);
      MulCommutes(1.0 + r, x);
      MulOfOne(s);
      MulOfOne(1.0 + r);
    }
  }

  /** The velocity after n steps, with alternating sign. */
  function Swing(zeta: real, h: real, p: Point, n: nat): real { Mul(Sign(n), Iterate(StepMap(zeta, h), p, n).u) }

  lemma SwingRecurrence(zeta: real, h: real, p: Point, n: nat)
    ensures Swing(zeta, h, p, n + 2)
      == Mul(-Trace(zeta, h), Swing(zeta, h, p, n + 1)) - Mul(Rate(zeta, h), Swing(zeta, h, p, n))
  {
    var a := Iterate(StepMap(zeta, h), p, n);
    var b, t, r := ErrorStep(zeta, h, a), Trace(zeta, h), Rate(zeta, h);
    var c := ErrorStep(zeta, h, b);
    assert Iterate(StepMap(zeta, h), p, n + 1) == b && Iterate(StepMap(zeta, h), p, n + 2) == c;
    Recurrence(zeta, h, a, b, c);
    SignedRecurrence(t, r, a.u, b.u, c.u, Sign(n), Sign(n + 1));
    assert Sign(n + 2) == Sign(n);
  }

  lemma SignedRecurrence(t: real, r: real, a: real, b: real, c: real, s: real, s': real)
    requires c == Mul(t, b) - Mul(r, a) && s' == -s
    ensures Mul(s, c) == Mul(-t, Mul(s', b)) - Mul(r, Mul(s, a))
  {
    MulDifference(s, Mul(t, b), Mul(r, a), c);
    MulSwap(s, t, b);
    MulSwap(s, r, a);
    MulNegated(s, b, s');
    MulNegated(t, Mul(s', b), -t);
    MulNegated(Mul(s, b), t, Mul(s', b));
  }

  lemma {:induction false} SwingStays(zeta: real, h: real, p: Point, n: nat)
    requires -1.0 < Rate(zeta, h) < 1.0 && 1.0 + Rate(zeta, h) <= -Trace(zeta, h)
    requires Alternates(Rate(zeta, h), Swing(zeta, h, p, 0), Swing(zeta, h, p, 1))
    ensures Alternates(Rate(zeta, h), Swing(zeta, h, p, n), Swing(zeta, h, p, n + 1))
  {
    if n > 0 {
      SwingStays(zeta, h, p, n - 1);
      SwingRecurrence(zeta, h, p, n - 1);
      AlternatesOn(Rate(zeta, h), Trace(zeta, h), Swing(zeta, h, p, n - 1), Swing(zeta, h, p, n));
    }
  }

  lemma SwingBelowNorm(q: Point, n: nat)
    requires 1.0 <= Mul(Sign(n), q.u)
    ensures 1.0 <= Norm(q)
  {
    var v := Mul(Sign(n), q.u);
    MulMonotone(1.0, v, v);
    MulOfOne(v);
    SquareOfProduct(Sign(n), q.u);
    assert Square(Sign(n)) == 1.0;
    MulOfOne(Square(q.u));
    SquareSign(q.e);
  }

  /** From velocity one and the error that turns it into minus one. */
  lemma LargeStepKeepsAway(zeta: real, h: real)
    requires -1.0 < Rate(zeta, h) < 1.0 && 1.0 + Rate(zeta, h) <= -Trace(zeta, h)
    ensures !Settles(StepMap(zeta, h))
  {
    MulOfZero(zeta);
    var r := Rate(zeta, h);
    var e := Quotient(1.0 + r, h);
    var p := Point(e, 1.0);
    MulOfOne(r);
    MulOfOne(1.0);
    MulNegated(1.0, -1.0, -1.0);
    MulOfOne(-1.0);
    assert ErrorStep(zeta, h, p).u == -1.0;
    assert Iterate(StepMap(zeta, h), p, 1) == ErrorStep(zeta, h, p);
    forall n: nat ensures 1.0 <= Norm(Iterate(StepMap(zeta, h), p, n)) {
      SwingStays(zeta, h, p, n);
      SwingBelowNorm(Iterate(StepMap(zeta, h), p, n), n);
    }
    KeepingAway(StepMap(zeta, h), p, 1.0);
  }

  // ---------------------------------------------------------------- the law

  /** The linear map settles from every start exactly under the condition. */
  lemma SettlesIff(zeta: real, h: real)
    ensures Settles(StepMap(zeta, h)) <==> Stable(zeta, h)
  {
    if Stable(zeta, h) {
      StableSettles(zeta, h);
    } else if Abs(Rate(zeta, h)) >= 1.0 {
      LargeRateKeepsAway(zeta, h);
    } else {
      LargeStepKeepsAway(zeta, h);
    }
  }

  /** A servo's runs toward constant targets shrink geometrically, from every state. */
  ghost predicate RunsDecay(omega: real, zeta: real, dt: real, c: real, s: real)
    requires omega != 0.0
  {
    && 0.0 <= s < 1.0
    && forall start: Phase, target: real, n: nat ::
         Norm(ErrorOf(omega, target, Run(omega, zeta, start, target, dt, n)))
         <= Mul(Mul(c, Power(s, n)), Norm(ErrorOf(omega, target, start)))
  }

  ghost predicate RunsSettle(omega: real, zeta: real, dt: real)
    requires omega != 0.0
  {
    exists c, s :: RunsDecay(omega, zeta, dt, c, s)
  }

  lemma RunsDecayIff(omega: real, zeta: real, dt: real, c: real, s: real)
    requires omega != 0.0
    ensures RunsDecay(omega, zeta, dt, c, s) <==> Decays(StepMap(zeta, omega * dt), c, s)
  {
    var h := omega * dt;
    if Decays(StepMap(zeta, h), c, s) {
      forall start: Phase, target: real, n: nat
        ensures Norm(ErrorOf(omega, target, Run(omega, zeta, start, target, dt, n)))
          <= Mul(Mul(c, Power(s, n)), Norm(ErrorOf(omega, target, start)))
      {
        RunInErrorCoordinates(omega, zeta, target, dt, h, start, n);
      }
    }
    if RunsDecay(omega, zeta, dt, c, s) {
      forall p: Point, n: nat ensures Norm(Iterate(StepMap(zeta, h), p, n)) <= Mul(Mul(c, Power(s, n)), Norm(p)) {
        var start := Phase(p.e, omega * p.u);
        QuotientIsFactor(omega, p.u, start.v);
        assert ErrorOf(omega, 0.0, start) == p;
        RunInErrorCoordinates(omega, zeta, 0.0, dt, h, start, n);
      }
    }
  }

  /** Every run of the servo settles exactly when 0 < zeta*h and h*h + 4*zeta*h < 4, with
      h = omega * dt. */
  lemma ServoSettlesIff(omega: real, zeta: real, dt: real)
    requires omega != 0.0
    ensures RunsSettle(omega, zeta, dt) <==> Stable(zeta, omega * dt)
  {
    var h := omega * dt;
    SettlesIff(zeta, h);
    if RunsSettle(omega, zeta, dt) {
      var c, s :| RunsDecay(omega, zeta, dt, c, s);
      RunsDecayIff(omega, zeta, dt, c, s);
    }
    if Settles(StepMap(zeta, h)) {
      var c, s :| Decays(StepMap(zeta, h), c, s);
      RunsDecayIff(omega, zeta, dt, c, s);
    }
  }

  // ---------------------------------------------------------------- the documented condition

  lemma {:induction false} ErrorDoubles(zeta: real, h: real, p: Point, n: nat)
    requires
      Trace(zeta, h) == -3.51 && Rate(zeta, h) == -0.9 && p == Point(1.0, 0.0) && ErrorStep(zeta, h, p).e == -2.61
    ensures Power(2.0, n) <= Mul(Sign(n), Iterate(StepMap(zeta, h), p, n).e)
    ensures
      2.0 * Mul(Sign(n), Iterate(StepMap(zeta, h), p, n).e) <= Mul(Sign(n + 1), Iterate(StepMap(zeta, h), p, n + 1).e)
  {
    var a := Iterate(StepMap(zeta, h), p, n);
    assert Iterate(StepMap(zeta, h), p, n + 1) == ErrorStep(zeta, h, a);
    if n == 0 {
      MulOfOne(1.0);
      assert Mul(Sign(1), -2.61) == 2.61;
    } else {
      ErrorDoubles(zeta, h, p, n - 1);
      var q := Iterate(StepMap(zeta, h), p, n - 1);
      Recurrence(zeta, h, q, a, ErrorStep(zeta, h, a));
      SignedRecurrence(-3.51, -0.9, q.e, a.e, ErrorStep(zeta, h, a).e, Sign(n - 1), Sign(n));
      assert Sign(n + 1) == Sign(n - 1);
      PowerSign(2.0, n - 1);
      Literals(Mul(Sign(n), a.e), Mul(Sign(n - 1), q.e), Power(2.0, n - 1));
    }
  }

  lemma Literals(x: real, y: real, w: real)
    ensures Mul(-(-3.51), x) == 3.51 * x && Mul(-0.9, y) == -0.9 * y && Mul(2.0, w) == 2.0 * w
  {
  }

  lemma SlowDampingMap(zeta: real, h: real)
    requires zeta == 0.5 && h == 1.9
    ensures Trace(zeta, h) == -3.51 && Rate(zeta, h) == -0.9 && ErrorStep(zeta, h, Point(1.0, 0.0)).e == -2.61
  {
    assert Mul(0.5, 1.9) == 0.95 && Square(1.9) == 3.61;
    MulOfZero(-0.9);
    MulOfOne(1.9);
    assert Mul(1.9, -1.9) == -3.61;
  }

  /** omega * dt < 2 is not enough: with omega = 19, dt = 0.1 and zeta = 0.5 a servo that starts
      at rest one unit off its target is at least 2 to the n off after n steps. */
  lemma SmallStepIsNotEnough(target: real, n: nat)
    ensures Power(2.0, n) <= Abs(Run(19.0, 0.5, Phase(target + 1.0, 0.0), target, 0.1, n).x - target)
  {
    var start, h := Phase(target + 1.0, 0.0), 19.0 * 0.1;
    SlowDampingMap(0.5, h);
    assert ErrorOf(19.0, target, start) == Point(1.0, 0.0);
    RunInErrorCoordinates(19.0, 0.5, target, 0.1, h, start, n);
    ErrorDoubles(0.5, h, Point(1.0, 0.0), n);
    UnsignedError(n, Iterate(StepMap(0.5, h), Point(1.0, 0.0), n).e);
  }

  lemma UnsignedError(n: nat, e: real)
    ensures Mul(Sign(n), e) <= Abs(e)
  {
    MulOfOne(e);
    MulNegated(1.0, e, -1.0);
  }
}
