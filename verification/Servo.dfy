/** The servo layer: semi-implicit Euler toward a target, and the exact geometric law it obeys. */
module Servo {
  import opened RealProduct

  datatype Phase = Phase(x: real, v: real)

  function StepOf(omega: real, zeta: real, p: Phase, target: real, dt: real): Phase {
    var a := omega * omega * (target - p.x) - 2.0 * zeta * omega * p.v;
    var v := p.v + a * dt;
    Phase(p.x + v * dt, v)
  }

  class Servo {
    const omega: real
    const zeta: real
    var x: real
    var v: real

    constructor (omega: real, zeta: real, x0: real)
      ensures this.omega == omega && this.zeta == zeta && x == x0 && v == 0.0
    {
      this.omega, this.zeta, x, v := omega, zeta, x0, 0.0;
    }

    method Step(target: real, dt: real) returns (position: real)
      modifies this
      ensures Phase(x, v) == StepOf(omega, zeta, old(Phase(x, v)), target, dt) && position == x
    {
      var a := omega * omega * (target - x) - 2.0 * zeta * omega * v;
      v := v + a * dt;
      x := x + v * dt;
      position := x;
    }

    /** Any number of steps toward one target. */
    method Settle(target: real, dt: real, steps: nat)
      modifies this
      ensures Phase(x, v) == Run(omega, zeta, old(Phase(x, v)), target, dt, steps)
    {
      for n := 0 to steps
        invariant Phase(x, v) == Run(omega, zeta, old(Phase(x, v)), target, dt, n)
      {
        var _ := Step(target, dt);
      }
    }
  }

  function Run(omega: real, zeta: real, p: Phase, target: real, dt: real, steps: nat): Phase {
    if steps == 0 then p else StepOf(omega, zeta, Run(omega, zeta, p, target, dt, steps - 1), target, dt)
  }

  // ---------------------------------------------------------------- error coordinates

  /** The error `e` and the velocity scaled by omega, `u`. */
  datatype Point = Point(e: real, u: real)

  function ErrorOf(omega: real, target: real, p: Phase): Point
    requires omega != 0.0
  {
    Point(p.x - target, p.v / omega)
  }

  function Rate(zeta: real, h: real): real { 1.0 - 2.0 * Mul(zeta, h) }

  /** The linear map a step is in error coordinates, with h = omega * dt. */
  function ErrorStep(zeta: real, h: real, p: Point): Point {
    var u := Mul(Rate(zeta, h), p.u) - Mul(h, p.e);
    Point(p.e + Mul(h, u), u)
  }

  function StepMap(zeta: real, h: real): Point -> Point { (p: Point) => ErrorStep(zeta, h, p) }

  function Iterate(step: Point -> Point, p: Point, n: nat): Point {
    if n == 0 then p else step(Iterate(step, p, n - 1))
  }

  lemma VelocityAfter(omega: real, zeta: real, dt: real, h: real, e: real, u: real, v: real, w: real)
    requires h == omega * dt && v == omega * u && w == Mul(Rate(zeta, h), u) - Mul(h, e)
    ensures v + (omega * omega * (0.0 - e) - 2.0 * zeta * omega * v) * dt == omega * w
  {
    var z := Mul(zeta, h);
    MulDifference(u, 1.0, 2.0 * z, Rate(zeta, h));
    MulOfOne(u);
    MulTwice(z, u, 2.0 * z);
    assert w == u - 2.0 * Mul(z, u) - Mul(h, e);
    assert omega * omega * (0.0 - e) * dt == -(omega * Mul(h, e));
    assert 2.0 * zeta * omega * (omega * u) * dt == 2.0 * (omega * Mul(z, u));
    assert omega * (u - 2.0 * Mul(z, u) - Mul(h, e)) == omega * u - 2.0 * (omega * Mul(z, u)) - omega * Mul(h, e);
  }

  lemma QuotientIsFactor(omega: real, w: real, v: real)
    requires omega != 0.0 && v == omega * w
    ensures v / omega == w
  {
    assert w * omega == v;
  }

  lemma StepInErrorCoordinates(omega: real, zeta: real, target: real, dt: real, h: real, p: Phase)
    requires omega != 0.0 && h == omega * dt
    ensures ErrorOf(omega, target, StepOf(omega, zeta, p, target, dt)) == ErrorStep(zeta, h, ErrorOf(omega, target, p))
  {
    var q := ErrorOf(omega, target, p);
    var w := ErrorStep(zeta, h, q).u;
    VelocityAfter(omega, zeta, dt, h, q.e, q.u, p.v, w);
    assert target - p.x == 0.0 - q.e;
    var v := StepOf(omega, zeta, p, target, dt).v;
    QuotientIsFactor(omega, w, v);
    assert v * dt == Mul(h, w) by { assert omega * w * dt == omega * dt * w; }
  }

  /** A servo run toward a constant target is the linear map iterated. */
  lemma {:induction false} RunInErrorCoordinates(omega: real, zeta: real, target: real, dt: real, h: real, p: Phase,
                                                 steps: nat)
    requires omega != 0.0 && h == omega * dt
    ensures ErrorOf(omega, target, Run(omega, zeta, p, target, dt, steps))
      == Iterate(StepMap(zeta, h), ErrorOf(omega, target, p), steps)
  {
    if steps > 0 {
      RunInErrorCoordinates(omega, zeta, target, dt, h, p, steps - 1);
      StepInErrorCoordinates(omega, zeta, target, dt, h, Run(omega, zeta, p, target, dt, steps - 1));
    }
  }

  // ---------------------------------------------------------------- the form

  /** e*e + (2*zeta - h)*e*u + (1 - 2*zeta*h)*u*u. */
  function Form(zeta: real, h: real, p: Point): real { Quadratic(2.0 * zeta - h, Rate(zeta, h), p) }

  function Quadratic(b: real, r: real, p: Point): real { Square(p.e) + Mul(b, Mul(p.e, p.u)) + Mul(r, Square(p.u)) }

  function FormMap(zeta: real, h: real): Point -> real { (p: Point) => Form(zeta, h, p) }

  function Power(r: real, n: nat): real { if n == 0 then 1.0 else Mul(r, Power(r, n - 1)) }

  /** The form at the moved position, in terms of the old error and the new velocity. */
  lemma FormAfterDrift(b: real, h: real, r: real, e: real, w: real)
    requires r == 1.0 - Mul(b, h) - Square(h)
    ensures Quadratic(b, r, Point(e + Mul(h, w), w)) == Square(e) + Mul(b + 2.0 * h, Mul(e, w)) + Square(w)
  {
    var hw, ew, ww := Mul(h, w), Mul(e, w), Square(w);
    SquareOfSum(e, hw, e + hw);
    MulSwap(e, h, w);
    SquareOfProduct(h, w);
    MulSum(w, e, hw, e + hw);
    MulSwap(h, w, w);
    MulSum(b, ew, Mul(h, ww), Mul(e + hw, w));
    MulSwap(b, h, ww);
    MulDifference(ww, 1.0 - Mul(b, h), Square(h), r);
    MulDifference(ww, 1.0, Mul(b, h), 1.0 - Mul(b, h));
    MulOfOne(ww);
    MulTwice(h, ew, 2.0 * h);
    MulSum(ew, b, 2.0 * h, b + 2.0 * h);
    MulSwap(h, e, w);
  }

  /** The products of the new velocity w = r*u - h*e. */
  lemma VelocityProducts(r: real, h: real, e: real, u: real, w: real)
    requires w == Mul(r, u) - Mul(h, e)
    ensures Mul(e, w) == Mul(r, Mul(e, u)) - Mul(h, Square(e))
    ensures Square(w) == Mul(Square(r), Square(u)) - 2.0 * Mul(Mul(r, h), Mul(e, u)) + Mul(Square(h), Square(e))
  {
    var a, c := Mul(r, u), -Mul(h, e);
    MulDifference(e, a, Mul(h, e), w);
    MulSwap(e, r, u);
    MulSwap(e, h, e);
    SquareOfSum(a, c, w);
    SquareOfProduct(r, u);
    SquareOfProduct(h, e);
    MulNegated(Mul(h, e), a, c);
    MulNegated(Mul(h, e), c, c);
    MulNegated(Mul(h, e), Mul(h, e), c);
    MulPairs(r, u, h, e);
    MulCommutes(u, e);
  }

  /** Collecting the coefficients of e*e, e*u and u*u. */
  lemma Collect(b: real, h: real, r: real, ee: real, eu: real, uu: real)
    requires r == 1.0 - Mul(b, h) - Square(h)
    ensures ee + Mul(b + 2.0 * h, Mul(r, eu) - Mul(h, ee))
      + (Mul(Square(r), uu) - 2.0 * Mul(Mul(r, h), eu) + Mul(Square(h), ee))
      == Mul(r, ee + Mul(b, eu) + Mul(r, uu))
  {
    var k := b + 2.0 * h;
    MulDifference(k, Mul(r, eu), Mul(h, ee), Mul(r, eu) - Mul(h, ee));
    MulSum(Mul(r, eu), b, 2.0 * h, k);
    MulSum(Mul(h, ee), b, 2.0 * h, k);
    MulTwice(h, Mul(r, eu), 2.0 * h);
    MulTwice(h, Mul(h, ee), 2.0 * h);
    MulSwap(h, r, eu);
    MulCommutes(h, r);
    MulSwap(h, h, ee);
    MulSwap(b, h, ee);
    MulSwap(b, r, eu);
    MulSum3(r, ee, Mul(b, eu), Mul(r, uu), ee + Mul(b, eu) + Mul(r, uu));
    MulSwap(r, r, uu);
    MulDifference(ee, 1.0 - Mul(b, h), Square(h), r);
    MulDifference(ee, 1.0, Mul(b, h), 1.0 - Mul(b, h));
    MulOfOne(ee);
  }

  lemma RateFromSlope(zeta: real, h: real, b: real)
    requires b == 2.0 * zeta - h
    ensures Rate(zeta, h) == 1.0 - Mul(b, h) - Square(h)
  {
    MulDifference(h, 2.0 * zeta, h, b);
    MulTwice(zeta, h, 2.0 * zeta);
  }

  /** A step multiplies the form by exactly the rate 1 - 2*zeta*h. */
  lemma MapScalesForm(zeta: real, h: real, p: Point)
    ensures Form(zeta, h, ErrorStep(zeta, h, p)) == Mul(Rate(zeta, h), Form(zeta, h, p))
  {
    var b, r := 2.0 * zeta - h, Rate(zeta, h);
    RateFromSlope(zeta, h, b);
    var w := Mul(r, p.u) - Mul(h, p.e);
    FormAfterDrift(b, h, r, p.e, w);
    VelocityProducts(r, h, p.e, p.u, w);
    Collect(b, h, r, Square(p.e), Mul(p.e, p.u), Square(p.u));
  }

  /** A form scaled by `r` at every point is scaled by `r` to the n along a run. */
  lemma {:induction false} GeometricAlongRun(form: Point -> real, step: Point -> Point, r: real, p: Point, n: nat)
    requires forall q :: form(step(q)) == Mul(r, form(q))
    ensures form(Iterate(step, p, n)) == Mul(Power(r, n), form(p))
  {
    if n == 0 {
      MulOfOne(form(p));
    } else {
      GeometricAlongRun(form, step, r, p, n - 1);
      MulSwap(r, Power(r, n - 1), form(p));
    }
  }

  lemma FormAlongIterates(zeta: real, h: real, p: Point, n: nat)
    ensures Form(zeta, h, Iterate(StepMap(zeta, h), p, n)) == Mul(Power(Rate(zeta, h), n), Form(zeta, h, p))
  {
    var form, step := FormMap(zeta, h), StepMap(zeta, h);
    forall q ensures form(step(q)) == Mul(Rate(zeta, h), form(q)) { MapScalesForm(zeta, h, q); }
    GeometricAlongRun(form, step, Rate(zeta, h), p, n);
  }

  /** The form of a servo's state about a target. */
  function FormOf(omega: real, zeta: real, dt: real, target: real, p: Phase): real
    requires omega != 0.0
  {
    Form(zeta, omega * dt, ErrorOf(omega, target, p))
  }

  /** Over every run toward a constant target the form is multiplied by exactly the rate per step. */
  lemma FormDecaysGeometrically(omega: real, zeta: real, dt: real, target: real, start: Phase, steps: nat)
    requires omega != 0.0
    ensures FormOf(omega, zeta, dt, target, Run(omega, zeta, start, target, dt, steps))
      == Mul(Power(Rate(zeta, omega * dt), steps), FormOf(omega, zeta, dt, target, start))
  {
    var h := omega * dt;
    RunInErrorCoordinates(omega, zeta, target, dt, h, start, steps);
    FormAlongIterates(zeta, h, ErrorOf(omega, target, start), steps);
  }

  // ---------------------------------------------------------------- the sign of the form

  function Slack(zeta: real, h: real): real { 4.0 - Square(2.0 * zeta + h) }

  lemma SlackOfRate(zeta: real, h: real, r: real, b: real)
    requires r == Rate(zeta, h) && b == 2.0 * zeta - h
    ensures Slack(zeta, h) == 4.0 * r - Square(b)
  {
    SquareOfSum(2.0 * zeta, h, 2.0 * zeta + h);
    SquareOfSum(2.0 * zeta, -h, b);
    MulNegated(h, 2.0 * zeta, -h);
    MulNegated(h, -h, -h);
    MulNegated(h, h, -h);
    MulTwice(zeta, h, 2.0 * zeta);
  }

  /** Completing the square: four times rate times form is a square plus slack times e*e. */
  lemma CompleteSquare(r: real, b: real, slack: real, p: Point, f: real, w: real)
    requires slack == 4.0 * r - Square(b) && f == Quadratic(b, r, p) && w == 2.0 * Mul(r, p.u) + Mul(b, p.e)
    ensures 4.0 * Mul(r, f) == Square(w) + Mul(slack, Square(p.e))
  {
    var ru, c, ee, eu, uu := Mul(r, p.u), Mul(b, p.e), Square(p.e), Mul(p.e, p.u), Square(p.u);
    SquareOfSum(2.0 * ru, c, w);
    MulTwice(ru, c, 2.0 * ru);
    MulTwice(ru, 2.0 * ru, 2.0 * ru);
    MulTwice(ru, ru, 2.0 * ru);
    SquareOfProduct(r, p.u);
    SquareOfProduct(b, p.e);
    MulPairs(r, p.u, b, p.e);
    MulCommutes(p.u, p.e);
    MulSum3(r, ee, Mul(b, eu), Mul(r, uu), f);
    MulSwap(r, b, eu);
    MulSwap(r, r, uu);
    FourTimes(r, ee);
    MulDifference(ee, 4.0 * r, Square(b), slack);
  }

  lemma FourTimes(a: real, b: real)
    ensures Mul(4.0 * a, b) == 4.0 * Mul(a, b)
  {
    MulTwice(a, b, 2.0 * a);
    MulTwice(2.0 * a, b, 4.0 * a);
  }

  /** The form bounds the squared error. */
  lemma ErrorIsBounded(zeta: real, h: real, p: Point, r: real, slack: real, f: real)
    requires r == Rate(zeta, h) && slack == Slack(zeta, h) && f == Form(zeta, h, p)
    ensures Mul(slack, Square(p.e)) <= 4.0 * Mul(r, f)
  {
    var b := 2.0 * zeta - h;
    SlackOfRate(zeta, h, r, b);
    var w := 2.0 * Mul(r, p.u) + Mul(b, p.e);
    CompleteSquare(r, b, slack, p, f, w);
    SquareSign(w);
  }

  lemma SignOfFactor(r: real, f: real)
    requires r > 0.0
    ensures (Mul(r, f) > 0.0 ==> f > 0.0) && (Mul(r, f) >= 0.0 ==> f >= 0.0)
  {
    if f <= 0.0 {
      MulSign(r, -f);
      MulNegated(f, r, -f);
      MulOfZero(r);
    }
  }

  lemma PositiveAt(zeta: real, h: real, p: Point, r: real, slack: real, f: real)
    requires r == Rate(zeta, h) && slack == Slack(zeta, h) && f == Form(zeta, h, p)
    requires r > 0.0 && slack > 0.0 && p != Point(0.0, 0.0)
    ensures f > 0.0
  {
    SquareSign(p.e);
    SquareSign(p.u);
    if p.e == 0.0 {
      MulOfZero(p.u);
      MulOfZero(0.0);
      MulOfZero(2.0 * zeta - h);
      MulSign(r, Square(p.u));
    } else {
      ErrorIsBounded(zeta, h, p, r, slack, f);
      MulSign(slack, Square(p.e));
      SignOfFactor(r, f);
    }
  }

  lemma NotPositiveAt(zeta: real, h: real, b: real, p: Point)
    requires b == 2.0 * zeta - h && p == Point(-b / 2.0, 1.0)
    ensures 4.0 * Form(zeta, h, p) == Slack(zeta, h)
  {
    var r := Rate(zeta, h);
    SlackOfRate(zeta, h, r, b);
    MulOfOne(p.e);
    MulOfOne(1.0);
    MulOfOne(r);
    var c := -2.0 * p.e;
    MulNegated(2.0 * p.e, p.e, c);
    MulTwice(p.e, p.e, 2.0 * p.e);
    SquareOfHalf(b, p.e);
  }

  lemma SquareOfHalf(b: real, e: real)
    requires e == -b / 2.0
    ensures Square(e) == Square(b) / 4.0 && Mul(b, e) == -Square(b) / 2.0
  {
    var c := -2.0 * e;
    assert b == c;
    MulNegated(2.0 * e, e, c);
    MulNegated(2.0 * e, c, c);
    MulTwice(e, e, 2.0 * e);
    MulTwice(e, c, 2.0 * e);
    MulNegated(2.0 * e, e, c);
    MulCommutes(e, c);
  }

  /** With a positive rate, the form is positive at every point but rest exactly when
      |2*zeta + h| < 2. */
  lemma PositiveDefiniteIff(zeta: real, h: real)
    requires Rate(zeta, h) > 0.0
    ensures (forall p: Point :: p != Point(0.0, 0.0) ==> FormMap(zeta, h)(p) > 0.0) <==> Slack(zeta, h) > 0.0
  {
    if Slack(zeta, h) > 0.0 {
      forall p: Point | p != Point(0.0, 0.0) ensures FormMap(zeta, h)(p) > 0.0 {
        PositiveAt(zeta, h, p, Rate(zeta, h), Slack(zeta, h), Form(zeta, h, p));
      }
    } else {
      var b := 2.0 * zeta - h;
      var p := Point(-b / 2.0, 1.0);
      NotPositiveAt(zeta, h, b, p);
      assert FormMap(zeta, h)(p) <= 0.0;
    }
  }

  // ---------------------------------------------------------------- the shipped gains

  lemma {:induction false} PowerMonotone(r: real, s: real, n: nat)
    requires 0.0 <= r <= s
    ensures 0.0 <= Power(r, n) <= Power(s, n)
  {
    if n > 0 {
      PowerMonotone(r, s, n - 1);
      var p, q := Power(r, n - 1), Power(s, n - 1);
      MulSign(r, p);
      MulMonotone(r, s, p);
      MulMonotone(p, q, s);
    }
  }

  lemma ShippedRate(zeta: real, h: real)
    requires 14.0 / 120.0 <= h <= 16.0 / 120.0 && 0.8 <= zeta <= 0.85
    ensures 0.0 < Rate(zeta, h) <= 0.82
  {
    MulMonotone(0.8, zeta, h);
    MulMonotone(zeta, 0.85, h);
    assert Mul(0.8, h) == 0.8 * h && Mul(0.85, h) == 0.85 * h;
  }

  lemma ShippedSlack(zeta: real, h: real)
    requires 14.0 / 120.0 <= h <= 16.0 / 120.0 && 0.8 <= zeta <= 0.85
    ensures 0.63 <= Slack(zeta, h)
  {
    var t := 2.0 * zeta + h;
    MulMonotone(t, 1.834, t);
    assert Mul(1.834, t) == 1.834 * t;
  }

  /** Bounding a squared error by the starting form. */
  lemma BoundedByPower(slack: real, ee: real, r: real, form: real, start: real, power: real, cap: real)
    requires 0.63 <= slack && 0.0 <= ee && 0.0 < r <= 0.82 && Mul(slack, ee) <= 4.0 * Mul(r, form)
    requires form == Mul(power, start) && power <= cap && 0.0 <= cap && 0.0 <= start
    ensures ee <= 5.3 * Mul(cap, start)
  {
    var bound := Mul(cap, start);
    MulMonotone(power, cap, start);
    MulSign(cap, start);
    MulMonotone(0.63, slack, ee);
    MulMonotone(form, bound, r);
    MulMonotone(r, 0.82, bound);
    assert Mul(0.63, ee) == 0.63 * ee && Mul(0.82, bound) == 0.82 * bound;
  }

  lemma ShippedIterates(zeta: real, h: real, p: Point, n: nat)
    requires 14.0 / 120.0 <= h <= 16.0 / 120.0 && 0.8 <= zeta <= 0.85
    ensures Square(Iterate(StepMap(zeta, h), p, n).e) <= 5.3 * Mul(Power(0.82, n), Form(zeta, h, p))
  {
    ShippedRate(zeta, h);
    ShippedSlack(zeta, h);
    var r, slack, q := Rate(zeta, h), Slack(zeta, h), Iterate(StepMap(zeta, h), p, n);
    FormAlongIterates(zeta, h, p, n);
    PowerMonotone(r, 0.82, n);
    FormIsNonnegative(zeta, h, p);
    ErrorIsBounded(zeta, h, q, r, slack, Form(zeta, h, q));
    SquareSign(q.e);
    BoundedByPower(slack, Square(q.e), r, Form(zeta, h, q), Form(zeta, h, p), Power(r, n), Power(0.82, n));
  }

  lemma FormIsNonnegative(zeta: real, h: real, p: Point)
    requires Rate(zeta, h) > 0.0 && Slack(zeta, h) >= 0.0
    ensures Form(zeta, h, p) >= 0.0
  {
    ErrorIsBounded(zeta, h, p, Rate(zeta, h), Slack(zeta, h), Form(zeta, h, p));
    SquareSign(p.e);
    MulSign(Slack(zeta, h), Square(p.e));
    SignOfFactor(Rate(zeta, h), Form(zeta, h, p));
  }

  /** At 120 Hz and the shipped gains the squared error shrinks at least as fast as 0.82 per
      step, over every run toward a constant target, from any state. */
  lemma ShippedServoSettles(omega: real, zeta: real, start: Phase, target: real, steps: nat)
    requires 14.0 <= omega <= 16.0 && 0.8 <= zeta <= 0.85
    ensures var dt := 1.0 / 120.0;
      Square(Run(omega, zeta, start, target, dt, steps).x - target)
      <= 5.3 * Mul(Power(0.82, steps), FormOf(omega, zeta, dt, target, start))
  {
    var dt := 1.0 / 120.0;
    var h := omega * dt;
    RunInErrorCoordinates(omega, zeta, target, dt, h, start, steps);
    ShippedIterates(zeta, h, ErrorOf(omega, target, start), steps);
  }
}
