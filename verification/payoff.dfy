/** Values shared by every pricer: the kind of option, the pricing errors and the
    intrinsic (exercise) value of an option at a given underlying price. */
module Payoff {

  /** The option type string the pricers receive. The pricers compare it against
      'call' and 'put' only; `Other` stands for any other string. */
  datatype OptionType = Call | Put | Other

  /** Why a pricer refuses to produce a value (pricing_models.py raises or yields NaN). */
  datatype PricingError =
    | InvalidInput          // a non-positive T, sigma, S, K or step count
    | UnknownOptionType     // neither 'call' nor 'put'
    | RegressionWithoutSamples  // the least-squares fit was given no in-the-money path
    | NaNMean               // the mean of an empty batch of paths

  datatype Result<T> = Success(value: T) | Failure(error: PricingError)

  function Max(a: real, b: real): (m: real)
    ensures m >= a && m >= b
    ensures m == a || m == b
  {
    if a >= b then a else b
  }

  /** The value of exercising now at underlying price `price`: the call payoff for a
      call, and the put payoff for anything else (the pricers test only for 'call'). */
  function Exercise(kind: OptionType, price: real, strike: real): (v: real)
    ensures v >= 0.0
    ensures v > 0.0 <==> (if kind == Call then price > strike else price < strike)
    ensures kind == Call ==> v >= price - strike
    ensures kind != Call ==> v >= strike - price
    ensures v == 0.0 || v == (if kind == Call then price - strike else strike - price)
  {
    if kind == Call then Max(price - strike, 0.0) else Max(strike - price, 0.0)
  }

  /** The payoff the lattice writes at expiry: the exercise value for a call or a put,
      and nothing (the row keeps its initial zero) for any other type. */
  function Terminal(kind: OptionType, price: real, strike: real): (v: real)
    ensures kind != Other ==> v == Exercise(kind, price, strike)
    ensures kind == Other ==> v == 0.0
  {
    match kind
    case Call => Max(price - strike, 0.0)
    case Put => Max(strike - price, 0.0)
    case Other => 0.0
  }
}
