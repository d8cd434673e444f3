/** The closed-form Black-Scholes price of a European option (pricing_models.py,
    black_scholes_price). The normal distribution function and the logarithm,
    exponential and square root are not computed: they are supplied as functions,
    and only the laws the proofs need are assumed of them, as preconditions. */
module Analytic {
  import opened Payoff

  /** The transcendental functions the formula is built from. */
  datatype Transcendentals = Transcendentals(
    cdf: real -> real,   // standard normal cumulative distribution
    ln: real -> real,
    exp: real -> real,
    sqrt: real -> real)

  /** The square root of a positive number is positive, so sigma * sqrt(T) can divide. */
  ghost predicate PositiveRoot(m: Transcendentals) {
    forall x :: 0.0 < x ==> 0.0 < m.sqrt(x)
  }

  /** The symmetry of the standard normal distribution: Phi(x) + Phi(-x) = 1. */
  ghost predicate SymmetricCdf(m: Transcendentals) {
    forall x :: m.cdf(x) + m.cdf(-x) == 1.0
  }

  /** The inputs the formula accepts: T, sigma, S and K all strictly positive. */
  predicate ValidInputs(s: real, k: real, t: real, sigma: real) {
    t > 0.0 && sigma > 0.0 && s > 0.0 && k > 0.0
  }

  function D1(m: Transcendentals, s: real, k: real, t: real, r: real, sigma: real): real
    requires PositiveRoot(m) && ValidInputs(s, k, t, sigma)
  {
    (m.ln(s / k) + (r + 0.5 * sigma * sigma) * t) / (sigma * m.sqrt(t))
  }

  function D2(m: Transcendentals, s: real, k: real, t: real, r: real, sigma: real): (d2: real)
    requires PositiveRoot(m) && ValidInputs(s, k, t, sigma)
    ensures d2 < D1(m, s, k, t, r, sigma)
  {
    D1(m, s, k, t, r, sigma) - sigma * m.sqrt(t)
  }

  /** S * Phi(d1) - K * e^(-rT) * Phi(d2). */
  function CallFormula(m: Transcendentals, s: real, k: real, t: real, r: real, sigma: real): real
    requires PositiveRoot(m) && ValidInputs(s, k, t, sigma)
  {
    s * m.cdf(D1(m, s, k, t, r, sigma)) - k * m.exp(-r * t) * m.cdf(D2(m, s, k, t, r, sigma))
  }

  /** K * e^(-rT) * Phi(-d2) - S * Phi(-d1). */
  function PutFormula(m: Transcendentals, s: real, k: real, t: real, r: real, sigma: real): real
    requires PositiveRoot(m) && ValidInputs(s, k, t, sigma)
  {
    k * m.exp(-r * t) * m.cdf(-D2(m, s, k, t, r, sigma)) - s * m.cdf(-D1(m, s, k, t, r, sigma))
  }

  /** black_scholes_price: the input check comes first, then the option type. */
  function BlackScholesPrice(m: Transcendentals, s: real, k: real, t: real, r: real, sigma: real,
                             kind: OptionType): (res: Result<real>)
    requires PositiveRoot(m)
    ensures !ValidInputs(s, k, t, sigma) ==> res == Failure(InvalidInput)
    ensures ValidInputs(s, k, t, sigma) && kind == Other ==> res == Failure(UnknownOptionType)
    ensures res.Success? <==> ValidInputs(s, k, t, sigma) && kind != Other
    ensures res.Success? && kind == Call ==> res.value == CallFormula(m, s, k, t, r, sigma)
    ensures res.Success? && kind == Put ==> res.value == PutFormula(m, s, k, t, r, sigma)
  {
    if !ValidInputs(s, k, t, sigma) then Failure(InvalidInput)
    else match kind
      case Call => Success(CallFormula(m, s, k, t, r, sigma))
      case Put => Success(PutFormula(m, s, k, t, r, sigma))
      case Other => Failure(UnknownOptionType)
  }

  /** Put-call parity: whenever Phi is symmetric, call - put = S - K * e^(-rT). */
  lemma PutCallParity(m: Transcendentals, s: real, k: real, t: real, r: real, sigma: real)
    requires PositiveRoot(m) && SymmetricCdf(m) && ValidInputs(s, k, t, sigma)
    ensures BlackScholesPrice(m, s, k, t, r, sigma, Call).Success?
    ensures BlackScholesPrice(m, s, k, t, r, sigma, Put).Success?
    ensures BlackScholesPrice(m, s, k, t, r, sigma, Call).value
              - BlackScholesPrice(m, s, k, t, r, sigma, Put).value
            == s - k * m.exp(-r * t)
  {
    var d1, d2 := D1(m, s, k, t, r, sigma), D2(m, s, k, t, r, sigma);
    var disc := k * m.exp(-r * t);
    assert m.cdf(d1) + m.cdf(-d1) == 1.0;
    assert m.cdf(d2) + m.cdf(-d2) == 1.0;
    calc {
      CallFormula(m, s, k, t, r, sigma) - PutFormula(m, s, k, t, r, sigma);
      (s * m.cdf(d1) - disc * m.cdf(d2)) - (disc * m.cdf(-d2) - s * m.cdf(-d1));
      s * (m.cdf(d1) + m.cdf(-d1)) - disc * (m.cdf(d2) + m.cdf(-d2));
      s - disc;
    }
  }
}
