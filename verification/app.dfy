/** The calculation behind the application's "Calculate" button (app.py,
    perform_calculation and make_recommendation): the form is checked, the market
    data is looked up, the chosen pricer is run, and the fair value is compared with
    the quoted bid and ask. The window, the worker thread, the market-data service
    and the clock are not modelled: what they deliver is passed in. */
module App {
  import opened Payoff
  import Analytic

  datatype Option<T> = None | Some(value: T)

  /** The risk-free rate every pricer is called with. */
  const RiskFreeRate: real := 0.01

  /** The trading advice make_recommendation returns. */
  datatype Recommendation = StrongBuy | Buy | Hold | Sell | StrongSell

  /** Fair value above the ask by more than this factor is a strong buy. */
  const StrongBuyFactor: real := 1.05
  /** Fair value below the bid by more than this factor is a strong sell. */
  const StrongSellFactor: real := 0.95

  /** make_recommendation: a fair value above the ask says buy, one below the bid says
      sell, and one more than 5% beyond either quote makes the advice strong. The
      buy tests come first, so a crossed quote (bid above ask) is read as a buy. */
  function MakeRecommendation(fair: real, bid: real, ask: real): (r: Recommendation)
    ensures r == StrongBuy <==> fair > ask * StrongBuyFactor
    ensures fair > ask ==> r == StrongBuy || r == Buy
    ensures r == Buy <==> ask < fair <= ask * StrongBuyFactor
    ensures ask >= 0.0 && bid >= 0.0 ==> (r == Hold <==> bid <= fair <= ask)
    ensures ask >= 0.0 && fair <= ask ==> (r == StrongSell <==> fair < bid * StrongSellFactor)
    ensures ask >= 0.0 && fair <= ask ==> (r == Sell <==> bid * StrongSellFactor <= fair < bid)
  {
    if fair > ask * StrongBuyFactor then StrongBuy
    else if fair > ask then Buy
    else if fair < bid * StrongSellFactor then StrongSell
    else if fair < bid then Sell
    else Hold
  }

  /** How bullish a recommendation is, from 0 (strong sell) to 4 (strong buy). */
  function Rank(r: Recommendation): nat {
    match r
    case StrongSell => 0
    case Sell => 1
    case Hold => 2
    case Buy => 3
    case StrongBuy => 4
  }

  /** For non-negative quotes the advice never turns more bearish as the fair value
      rises. */
  lemma RecommendationMonotone(fair1: real, fair2: real, bid: real, ask: real)
    requires bid >= 0.0 && ask >= 0.0 && fair1 <= fair2
    ensures Rank(MakeRecommendation(fair1, bid, ask)) <= Rank(MakeRecommendation(fair2, bid, ask))
  {
    assert ask <= ask * StrongBuyFactor;
    assert bid * StrongSellFactor <= bid;
  }

  /** The option style chosen on the form. */
  datatype Style = European | American

  /** The pricing method chosen on the form; `UnknownMethod` stands for any other
      string, which the menu does not offer. */
  datatype Method = BlackScholes | BinomialTree | MonteCarlo | UnknownMethod

  /** The form as read: `strike` is None when its text is not a number. */
  datatype Form = Form(ticker: string, expiry: string, strike: Option<real>,
                       kind: OptionType, style: Style, pricing: Method)

  /** The quote the market-data lookup returns (missing values already read as 0). */
  datatype Quote = Quote(impliedVol: real, bid: real, ask: real, last: real)

  /** What the market-data lookup delivers: the spot price and the quote, or a
      failure. `valueError` holds when the lookup raised a ValueError (no price
      history for the ticker, an expiry or strike not listed, an option type other
      than call or put); any other failure of the service (the network, a rate
      limit) raises some other exception. */
  datatype Fetch = Fetched(spot: real, quote: Quote) | FetchFailed(valueError: bool)

  /** What each pricer returns when called with the spot, the strike, the time to
      expiry, RiskFreeRate, the implied volatility and the option type. */
  datatype Pricers = Pricers(blackScholes: Result<real>, binomial: Result<real>,
                             monteCarlo: Result<real>)

  /** The title of the error box: a ValueError is shown as an input error, any other
      exception as a general error. */
  datatype ErrorTitle = InputErrorTitle | GeneralErrorTitle

  datatype Cause =
    | UnparsableStrike         // the strike text is not a number
    | MissingFields            // empty ticker or expiry, or a strike that is not positive
    | MarketDataUnavailable(valueError: bool)  // the lookup raised
    | PricerRejected(e: PricingError)
    | NoFairValue              // no pricer ran for the chosen method

  /** The advice shown under the fair value. */
  datatype Advice = LowLiquidity | Advise(r: Recommendation)

  datatype Outcome =
    | Error(title: ErrorTitle, cause: Cause)
    | EuropeanOnly             // Black-Scholes asked to price a non-European option
    | Priced(fair: real, quote: Quote, advice: Advice)

  /** Which error box a failure ends in: the general one for the missing fair value
      of an unknown method (a NameError) and for a lookup failure that is not a
      ValueError; the input-error one for every ValueError. */
  function TitleOf(c: Cause): (t: ErrorTitle)
    ensures t == GeneralErrorTitle <==>
              c == NoFairValue || c == MarketDataUnavailable(false)
  {
    match c
    case NoFairValue => GeneralErrorTitle
    case MarketDataUnavailable(valueError) =>
      if valueError then InputErrorTitle else GeneralErrorTitle
    case _ => InputErrorTitle
  }

  predicate FieldsValid(f: Form) {
    f.strike.Some? && |f.ticker| > 0 && |f.expiry| > 0 && f.strike.value > 0.0
  }

  /** The advice for a priced option: none when both quotes are zero, otherwise the
      recommendation. */
  function AdviceFor(fair: real, q: Quote): (a: Advice)
    ensures a == LowLiquidity <==> q.bid == 0.0 && q.ask == 0.0
    ensures a.Advise? ==> a.r == MakeRecommendation(fair, q.bid, q.ask)
  {
    if q.bid == 0.0 && q.ask == 0.0 then LowLiquidity
    else Advise(MakeRecommendation(fair, q.bid, q.ask))
  }

  function Fail(c: Cause): Outcome {
    Error(TitleOf(c), c)
  }

  /** Turns a pricer's result into the outcome shown. */
  function Report(priced: Result<real>, q: Quote): (o: Outcome)
    ensures o.Priced? <==> priced.Success?
    ensures o.Priced? ==> o.fair == priced.value && o.quote == q && o.advice == AdviceFor(o.fair, q)
    ensures priced.Failure? ==> o == Error(InputErrorTitle, PricerRejected(priced.error))
    ensures o.Error? ==> o == Error(InputErrorTitle, PricerRejected(priced.error))
  {
    match priced
    case Failure(e) => Fail(PricerRejected(e))
    case Success(v) => Priced(v, q, AdviceFor(v, q))
  }

  /** perform_calculation: the field check comes before any lookup, the lookup before
      any pricing, and Black-Scholes refuses a non-European style before it runs. */
  function PerformCalculation(f: Form, fetch: Fetch, pricers: Pricers): (o: Outcome)
    ensures f.strike.None? ==> o == Error(InputErrorTitle, UnparsableStrike)
    ensures f.strike.Some? && !FieldsValid(f) ==> o == Error(InputErrorTitle, MissingFields)
    ensures FieldsValid(f) && fetch.FetchFailed? ==>
              o.Error? && o.cause == MarketDataUnavailable(fetch.valueError)
              && (o.title == InputErrorTitle <==> fetch.valueError)
    ensures o == EuropeanOnly <==>
              FieldsValid(f) && fetch.Fetched? && f.pricing == BlackScholes && f.style != European
    ensures o.Error? && o.cause == NoFairValue <==>
              FieldsValid(f) && fetch.Fetched? && f.pricing == UnknownMethod
    ensures o.Priced? ==> FieldsValid(f) && fetch.Fetched? && o.quote == fetch.quote
    ensures o.Priced? && f.pricing == BlackScholes ==>
              f.style == European && pricers.blackScholes == Success(o.fair)
    ensures o.Priced? && f.pricing == BinomialTree ==> pricers.binomial == Success(o.fair)
    ensures o.Priced? && f.pricing == MonteCarlo ==> pricers.monteCarlo == Success(o.fair)
    ensures o.Priced? ==> o.advice == AdviceFor(o.fair, o.quote)
    ensures o.Error? ==> o.title == TitleOf(o.cause)
    ensures FieldsValid(f) && fetch.Fetched? && f.pricing == BlackScholes && f.style == European
              && pricers.blackScholes.Failure? ==>
              o == Error(InputErrorTitle, PricerRejected(pricers.blackScholes.error))
    ensures FieldsValid(f) && fetch.Fetched? && f.pricing == BinomialTree && pricers.binomial.Failure? ==>
              o == Error(InputErrorTitle, PricerRejected(pricers.binomial.error))
    ensures FieldsValid(f) && fetch.Fetched? && f.pricing == MonteCarlo && pricers.monteCarlo.Failure? ==>
              o == Error(InputErrorTitle, PricerRejected(pricers.monteCarlo.error))
  {
    if f.strike.None? then Fail(UnparsableStrike)
    else if !FieldsValid(f) then Fail(MissingFields)
    else match fetch
      case FetchFailed(valueError) => Fail(MarketDataUnavailable(valueError))
      case Fetched(_, q) =>
        match f.pricing
        case BlackScholes =>
          if f.style == European then Report(pricers.blackScholes, q) else EuropeanOnly
        case BinomialTree => Report(pricers.binomial, q)
        case MonteCarlo => Report(pricers.monteCarlo, q)
        case UnknownMethod => Fail(NoFairValue)
  }

  /** A valid form with market data and a method that runs a pricer is priced
      exactly when that pricer succeeds. */
  lemma PricedIffPricerSucceeds(f: Form, fetch: Fetch, pricers: Pricers)
    requires FieldsValid(f) && fetch.Fetched?
    ensures f.pricing == BinomialTree ==>
              (PerformCalculation(f, fetch, pricers).Priced? <==> pricers.binomial.Success?)
    ensures f.pricing == MonteCarlo ==>
              (PerformCalculation(f, fetch, pricers).Priced? <==> pricers.monteCarlo.Success?)
    ensures f.pricing == BlackScholes && f.style == European ==>
              (PerformCalculation(f, fetch, pricers).Priced? <==> pricers.blackScholes.Success?)
    ensures f.pricing == UnknownMethod || (f.pricing == BlackScholes && f.style != European) ==>
              !PerformCalculation(f, fetch, pricers).Priced?
  {
  }

  /** The style only matters to Black-Scholes: the lattice and the simulation price
      a European and an American option alike. */
  lemma StyleIgnoredOutsideBlackScholes(f: Form, fetch: Fetch, pricers: Pricers)
    requires f.pricing != BlackScholes
    ensures PerformCalculation(f, fetch, pricers)
            == PerformCalculation(f.(style := European), fetch, pricers)
            == PerformCalculation(f.(style := American), fetch, pricers)
  {
  }

  /** Only the pricer of the chosen method is consulted. */
  lemma OnlyChosenPricerMatters(f: Form, fetch: Fetch, p1: Pricers, p2: Pricers)
    requires f.pricing == BlackScholes ==> p1.blackScholes == p2.blackScholes
    requires f.pricing == BinomialTree ==> p1.binomial == p2.binomial
    requires f.pricing == MonteCarlo ==> p1.monteCarlo == p2.monteCarlo
    ensures PerformCalculation(f, fetch, p1) == PerformCalculation(f, fetch, p2)
  {
  }

  /** The Black-Scholes route end to end: when the Black-Scholes outcome is the one
      the closed form gives for the fetched spot and volatility, a European call or
      put is priced exactly when every input is positive, at the formula's value. */
  lemma BlackScholesRoute(m: Analytic.Transcendentals, f: Form, fetch: Fetch, pricers: Pricers,
                          years: real)
    requires Analytic.PositiveRoot(m)
    requires FieldsValid(f) && fetch.Fetched? && f.pricing == BlackScholes && f.style == European
    requires f.kind != Other
    requires pricers.blackScholes == Analytic.BlackScholesPrice(m, fetch.spot, f.strike.value,
                years, RiskFreeRate, fetch.quote.impliedVol, f.kind)
    ensures PerformCalculation(f, fetch, pricers).Priced? <==>
              years > 0.0 && fetch.quote.impliedVol > 0.0 && fetch.spot > 0.0
    ensures PerformCalculation(f, fetch, pricers).Priced? && f.kind == Call ==>
              PerformCalculation(f, fetch, pricers).fair
              == Analytic.CallFormula(m, fetch.spot, f.strike.value, years, RiskFreeRate,
                                      fetch.quote.impliedVol)
    ensures PerformCalculation(f, fetch, pricers).Priced? && f.kind == Put ==>
              PerformCalculation(f, fetch, pricers).fair
              == Analytic.PutFormula(m, fetch.spot, f.strike.value, years, RiskFreeRate,
                                     fetch.quote.impliedVol)
  {
  }
}
