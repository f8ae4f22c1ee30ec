/** Option and result types shared by every module. */
module Common {
  datatype Option<+T> = None | Some(value: T)

  datatype Result<+T, +E> = Ok(value: T) | Err(error: E)

  function Max(a: real, b: real): real { if a >= b then a else b }

  function Min(a: real, b: real): real { if a <= b then a else b }

  function Abs(a: real): real { if a < 0.0 then -a else a }
}

/** Products under a name: equal factors then give equal products without any nonlinear
    reasoning, and the laws of a ring are invoked one at a time. */
module RealProduct {
  function Mul(a: real, b: real): real { a * b }

  lemma MulSum(x: real, a: real, b: real, c: real)
    requires c == a + b
    ensures Mul(x, c) == Mul(x, a) + Mul(x, b) && Mul(c, x) == Mul(a, x) + Mul(b, x)
  {
  }

  lemma MulDifference(x: real, a: real, b: real, c: real)
    requires c == a - b
    ensures Mul(x, c) == Mul(x, a) - Mul(x, b) && Mul(c, x) == Mul(a, x) - Mul(b, x)
  {
    MulSum(x, c, b, a);
  }

  lemma MulSum3(x: real, a: real, b: real, c: real, d: real)
    requires d == a + b + c
    ensures Mul(x, d) == Mul(x, a) + Mul(x, b) + Mul(x, c)
  {
    MulSum(x, a + b, c, d);
    MulSum(x, a, b, a + b);
  }

  lemma MulSum4(x: real, a: real, b: real, c: real, d: real, s: real)
    requires s == a + b + c + d
    ensures Mul(x, s) == Mul(x, a) + Mul(x, b) + Mul(x, c) + Mul(x, d)
    ensures Mul(s, x) == Mul(a, x) + Mul(b, x) + Mul(c, x) + Mul(d, x)
  {
    MulSum(x, a + b + c, d, s);
    MulSum(x, a + b, c, a + b + c);
    MulSum(x, a, b, a + b);
  }

  lemma MulCommutes(a: real, b: real)
    ensures Mul(a, b) == Mul(b, a)
  {
  }

  lemma MulSwap(a: real, b: real, c: real)
    ensures Mul(a, Mul(b, c)) == Mul(b, Mul(a, c)) == Mul(Mul(a, b), c)
  {
  }

  lemma MulNegated(a: real, b: real, c: real)
    requires c == -a
    ensures Mul(c, b) == -Mul(a, b) && Mul(b, c) == -Mul(b, a)
  {
    assert (-a) * b == -(a * b) && b * (-a) == -(b * a);
  }

  /** Regrouping a product of products. */
  lemma MulPairs(a: real, b: real, c: real, d: real)
    ensures Mul(Mul(a, b), Mul(c, d)) == Mul(Mul(a, c), Mul(b, d))
  {
    MulSwap(Mul(a, b), c, d);
    MulSwap(a, b, c);
    MulCommutes(Mul(a, b), c);
    MulSwap(c, a, b);
    MulSwap(Mul(a, c), b, d);
    MulCommutes(c, a);
  }

  function Square(a: real): real { Mul(a, a) }

  lemma SquareOfSum(a: real, b: real, c: real)
    requires c == a + b
    ensures Square(c) == Square(a) + 2.0 * Mul(a, b) + Square(b)
  {
    MulSum(c, a, b, c);
    MulSum(a, a, b, c);
    MulSum(b, a, b, c);
    MulCommutes(a, b);
  }

  lemma SquareOfProduct(a: real, b: real)
    ensures Square(Mul(a, b)) == Mul(Square(a), Square(b))
  {
    MulPairs(a, b, a, b);
  }

  /** A multiple by a literal, moved out of a product. */
  lemma MulTwice(a: real, b: real, c: real)
    requires c == 2.0 * a
    ensures Mul(c, b) == 2.0 * Mul(a, b) && Mul(b, c) == 2.0 * Mul(b, a)
  {
    MulSum(b, a, a, c);
  }

  lemma MulSign(a: real, b: real)
    requires a >= 0.0 && b >= 0.0
    ensures Mul(a, b) >= 0.0 && (a > 0.0 && b > 0.0 ==> Mul(a, b) > 0.0)
  {
  }

  lemma SquareSign(a: real)
    ensures Square(a) >= 0.0 && (a != 0.0 ==> Square(a) > 0.0)
  {
    if a >= 0.0 {
      MulSign(a, a);
    } else {
      var c := -a;
      MulSign(c, c);
      MulNegated(a, c, c);
      MulNegated(a, a, c);
    }
  }

  lemma MulMonotone(a: real, b: real, c: real)
    requires a <= b && 0.0 <= c
    ensures Mul(a, c) <= Mul(b, c) && Mul(c, a) <= Mul(c, b)
  {
    var d := b - a;
    MulSign(d, c);
    MulDifference(c, b, a, d);
    MulCommutes(d, c);
  }

  lemma MulOfZero(a: real)
    ensures Mul(0.0, a) == 0.0 && Mul(a, 0.0) == 0.0
  {
  }

  lemma MulOfOne(a: real)
    ensures Mul(1.0, a) == a && Mul(a, 1.0) == a
  {
  }
}
