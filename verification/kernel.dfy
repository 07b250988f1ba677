/**
  The Gaussian kernel of the envelope, `exp(-(x^2) / (2 h^2))`.

  The exponential is not computed: it is a parameter `exp` about which only
  two facts are assumed (`ExpLike`): `exp(0) = 1` and `exp(y) > 0`. Every
  regressor is written against a weight function `k: int -> real` giving the
  kernel value at an integer offset, so the same definitions serve the
  Gaussian instance and the general shape facts.
 */
module Kernel {

  /** The two facts about `math.exp` that the model relies on. */
  ghost predicate ExpLike(exp: real -> real) {
    exp(0.0) == 1.0 && forall y :: 0.0 < exp(y)
  }

  /**
    The kernel's denominator `2 h^2`. Python raises ZeroDivisionError exactly
    when it evaluates to zero, so that is the precondition of `Gauss`.
   */
  function TwoHSquared(h: real): real {
    2.0 * h * h
  }

  /** Un-normalised Gaussian weight of offset `x` for bandwidth `h`. */
  function Gauss(exp: real -> real, x: real, h: real): (r: real)
    requires TwoHSquared(h) != 0.0
    ensures ExpLike(exp) ==> 0.0 < r
    ensures ExpLike(exp) && x == 0.0 ==> r == 1.0
  {
    exp(-(x * x) / TwoHSquared(h))
  }

  /** The weight function `i |-> gauss(i, h)` the regressors evaluate. */
  function GaussKernel(exp: real -> real, h: real): int -> real
    requires TwoHSquared(h) != 0.0
  {
    d => Gauss(exp, d as real, h)
  }

  /** Every offset gets a strictly positive weight. */
  ghost predicate Positive(k: int -> real) {
    forall d :: 0.0 < k(d)
  }

  /** Offsets `d` and `-d` get the same weight. */
  ghost predicate Even(k: int -> real) {
    forall d, e :: d + e == 0 ==> k(d) == k(e)
  }

  /** The Gaussian weight is even in the offset. */
  lemma GaussEven(exp: real -> real, x: real, h: real)
    requires TwoHSquared(h) != 0.0
    ensures Gauss(exp, -x, h) == Gauss(exp, x, h)
  {
    assert (-x) * (-x) == x * x;
  }

  /**
    The weight table used by the regressors is positive, even, and gives
    weight 1 to offset 0.
   */
  lemma GaussKernelShape(exp: real -> real, h: real)
    requires TwoHSquared(h) != 0.0
    requires ExpLike(exp)
    ensures Positive(GaussKernel(exp, h))
    ensures Even(GaussKernel(exp, h))
    ensures GaussKernel(exp, h)(0) == 1.0
  {
    var k := GaussKernel(exp, h);
    forall d, e | d + e == 0
      ensures k(d) == k(e)
    {
      assert (e as real) == -(d as real);
      GaussEven(exp, d as real, h);
    }
  }
}
