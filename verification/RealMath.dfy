/**
 The transcendental functions the signal code calls, left abstract. The laws are the facts proofs may use
 about them; the distribution function's range is a law and not a result.
 */
module RealMath {

  datatype Maths = Maths(exp: real -> real, log: real -> real, sqrt: real -> real, cdf: real -> real)

  ghost predicate ExpLaws(exp: real -> real) {
    && (forall x, y :: y == -x ==> exp(x) * exp(y) == 1.0)
    && (forall x :: exp(x) >= 1.0 + x)
  }

  ghost predicate SqrtLaws(sqrt: real -> real) {
    forall x :: x > 0.0 ==> sqrt(x) > 0.0
  }

  ghost predicate CdfLaws(cdf: real -> real) {
    forall x :: 0.0 <= cdf(x) <= 1.0
  }

  ghost predicate Laws(m: Maths) {
    ExpLaws(m.exp) && SqrtLaws(m.sqrt) && CdfLaws(m.cdf)
  }

  function Clamp(x: real, lo: real, hi: real): real {
    if x < lo then lo else if hi < x then hi else x
  }

  function Abs(x: real): real {
    if x < 0.0 then -x else x
  }

  // ---- Products of reals; a product's sign is given to a name for it ----

  lemma ProductGrows(a: real, b: real, c: real)
    requires a > 0.0 && b > c
    ensures a * b > a * c
  {
    assert a * (b - c) > 0.0;
  }

  lemma ProductAbove(a: real, b: real, c: real, product: real)
    requires a > 0.0 && b > c && c == 0.0 && product == a * b
    ensures product > 0.0
  {
    ProductGrows(a, b, c);
  }

  lemma PositiveProduct(a: real, b: real, product: real)
    requires a > 0.0 && b > 0.0 && product == a * b
    ensures product > 0.0
  {
    ProductAbove(a, b, 0.0, product);
  }

  lemma SquareSign(r: real, square: real)
    requires square == r * r
    ensures square >= 0.0 && (square == 0.0 <==> r == 0.0)
  {
    if r == 0.0 {
      assert r * r == 0.0 * r;
    } else {
      var m := Abs(r);
      PositiveProduct(m, m, square);
    }
  }
}
