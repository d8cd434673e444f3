# Option pricing: a verified model

This project models the core of a small option-pricing desktop application. The
application has three pricers and one decision procedure:

- **Black–Scholes** prices a European option with the closed-form formula.
- **The binomial lattice** prices an American option. It fills two triangular grids
  in place: the asset prices forward from the root, then the option values backward
  from expiry, taking the larger of continuing and exercising at each node.
- **Longstaff–Schwartz** prices an American option from simulated price paths. It
  walks backward from expiry. At each step it regresses the discounted path values on
  the prices of the in-the-money paths. Each in-the-money path then either exercises
  or keeps its discounted value.
- **The calculate button** checks the form, looks up the quote, routes to the chosen
  pricer and turns the fair value and the bid/ask quote into a trading
  recommendation.

The modules follow the program's structure:

| module | file | what it holds |
|---|---|---|
| `Payoff` | payoff.dfy | option types, pricing errors, exercise value |
| `Analytic` | analytic.dfy | Black–Scholes validation, formula shape, put–call parity |
| `Lattice` | lattice.dfy | the lattice as `array2` grids filled in place, plus its recursive specification |
| `LeastSquares` | least_squares.dfy | the one-predictor least-squares line used as the continuation estimator |
| `LongstaffSchwartz` | longstaff_schwartz.dfy | the payoff matrix and the in-place backward loop, plus their specification over sequences |
| `App` | app.dfy | `make_recommendation`, and `perform_calculation` as a pure decision function |

All arithmetic is over `real`. The normal distribution function, `ln`, `exp` and
`sqrt` are passed in as functions. Only two laws are assumed of them, as
preconditions: the square root of a positive number is positive, and
Φ(x) + Φ(−x) = 1.

The imperative pricers are methods over arrays. Each is proved against a function
that specifies it: `Lattice.NodeValue` for the value grid and `LongstaffSchwartz.Price`
for the simulation. The properties of those functions are proved as lemmas.

Three points where the model follows the code rather than what one might expect:

- The Longstaff–Schwartz routine validates none of its inputs.
- It leaves out-of-the-money path values undiscounted from one step to the next
  (pricing_models.py:129 against line 139). Only the in-the-money paths receive a
  discounted value. `OutOfTheMoneyKeepsValue` proves this.
- The "Option data not found" branch of `perform_calculation` (app.py:34, 70-71)
  cannot be reached. The lookup raises when no option matches
  (data_fetch.py:64), so that case ends in the input-error box.

## Model

| member | source | states |
|---|---|---|
| Payoff.Exercise | pricing_models.py:58 | the exercise value is non-negative, positive exactly when the option is in the money, and at least price − strike for a call and strike − price otherwise; it is either 0 or exactly that difference |
| Payoff.Terminal | pricing_models.py:49-53 | the expiry row holds the exercise value for a call or put, and stays zero for any other type |
| Analytic.D1 | pricing_models.py:15 | definition: (ln(S/K) + (r + σ²/2)·T) / (σ·√T) |
| Analytic.CallFormula | pricing_models.py:19 | definition: S·Φ(d1) − K·e^(−rT)·Φ(d2) |
| Analytic.PutFormula | pricing_models.py:21 | definition: K·e^(−rT)·Φ(−d2) − S·Φ(−d1) |
| Analytic.D2 | pricing_models.py:15-16 | d2 lies strictly below d1 |
| Analytic.BlackScholesPrice | pricing_models.py:7-23 | non-positive T, σ, S or K gives the invalid-input error before the type is looked at; any other type gives the unknown-type error; it succeeds exactly for valid inputs with a call or put, with the call or put formula |
| Analytic.PutCallParity | pricing_models.py:15-21 | with a symmetric Φ, call − put = S − K·e^(−rT) |
| Lattice.NodePrice | pricing_models.py:40-45 | definition: the spot at the root, one up move for the top node of each row, one down move from the upper-left neighbour otherwise; its closed form is NodePriceClosedForm |
| Lattice.Continuation | pricing_models.py:57 | definition: the discounted expectation of the two successors; its monotonicity and bound are the next two lemmas |
| Lattice.NodeValue | pricing_models.py:55-59 | every node value is non-negative, and every node before expiry is worth at least its exercise value |
| Lattice.NodePriceClosedForm | pricing_models.py:39-45 | the grid recurrence gives S·u^(i−j)·d^j at node (i, j) |
| Lattice.NodePricePositive | pricing_models.py:39-45 | with positive S, u and d every node price is positive |
| Lattice.ContinuationMonotone | pricing_models.py:57 | for 0 ≤ p ≤ 1 and a non-negative discount, the continuation value grows with the successor values |
| Lattice.ContinuationBounded | pricing_models.py:57 | with a discount factor of at most 1 the continuation never exceeds a bound on both successors |
| Lattice.RootDominatesIntrinsic | pricing_models.py:55-61 | the root price is the spot, and the result is at least the exercise value of the spot |
| Lattice.EarlyExercisePremium | pricing_models.py:55-59 | every American node value is at least the European (no early exercise) value of the same lattice |
| Lattice.PutBoundedByStrike | pricing_models.py:55-59 | an American put on a positive lattice is never worth more than its strike |
| Lattice.BuildAssetPrices | pricing_models.py:39-45 | the fresh grid holds the node price at every 0 ≤ j ≤ i ≤ N and zero above the diagonal |
| Lattice.FillPriceRow | pricing_models.py:42-45 | one outer pass fills row i from row i − 1 and leaves later rows and the upper triangle zero |
| Lattice.TerminalPayoffs | pricing_models.py:47-53 | the fresh value grid holds the terminal payoff in its last row and zero elsewhere |
| Lattice.InductRow | pricing_models.py:56-59 | one backward pass sets row i to the node values and changes no other cell |
| Lattice.BackwardInduction | pricing_models.py:55-59 | after the backward loop every triangle cell holds its node value; the last row and the upper triangle are unchanged |
| Lattice.BinomialTreeAmericanOption | pricing_models.py:26-61 | it fails exactly when T, σ, S, K or the step count is not positive; otherwise it returns the root node value, which is at least the exercise value of S and non-negative |
| LeastSquares.LineFromMoments | pricing_models.py:135 | the line solves the intercept normal equation, and the slope equation whenever the predictor varies; otherwise the slope is 0 and the line is the mean response |
| LeastSquares.Fit | pricing_models.py:135 | the fitted line satisfies the intercept normal equation, and the slope equation whenever the predictor varies; when it does not (one sample, or every sample at one price) the line is the mean response with slope 0 |
| LeastSquares.SampleMomentsAppend | pricing_models.py:135 | adding a sample adds it to every accumulated sum |
| LeastSquares.SumOfResiduals | pricing_models.py:135-136 | the residuals sum to Σy − n·intercept − slope·Σx |
| LeastSquares.MomentsSolveNormalEquations | pricing_models.py:135 | the closed-form slope and intercept solve the normal equations |
| LeastSquares.ResidualsSumToZero | pricing_models.py:135-136 | any line satisfying the intercept equation leaves residuals that sum to zero |
| LeastSquares.FitResidualsSumToZero | pricing_models.py:135-136 | the fitted line's residuals sum to zero |
| LongstaffSchwartz.PayoffAt | pricing_models.py:120-124 | each payoff is non-negative, and positive exactly when the path is in the money at that step |
| LongstaffSchwartz.ItmPrices | pricing_models.py:131-132 | the regression inputs hold at most one price per path |
| LongstaffSchwartz.Discounted | pricing_models.py:129 | the continuation vector has one entry per path |
| LongstaffSchwartz.ItmContinuations | pricing_models.py:133 | the regression targets pair one-to-one with the regression inputs |
| LongstaffSchwartz.ItmMoments | pricing_models.py:131-135 | the sample count is non-negative and zero exactly when no path is in the money |
| LongstaffSchwartz.ItmMomentsAreSampleMoments | pricing_models.py:131-135 | the sums accumulated path by path are the sums of the in-the-money prices and their continuation values |
| LongstaffSchwartz.ItmPricesEmpty | pricing_models.py:131-132 | the regression has no sample exactly when no path is in the money |
| LongstaffSchwartz.Decide | pricing_models.py:137-139 | definition: an in-the-money path takes its payoff when that exceeds the line's estimate at its price and its continuation value otherwise; any other path keeps its value |
| LongstaffSchwartz.DecideBounds | pricing_models.py:137-139 | for any fitted line, an out-of-the-money path keeps its value; every path ends with its value, its continuation value or its payoff; non-negative inputs give a non-negative result |
| LongstaffSchwartz.StepLine | pricing_models.py:131-136 | definition: the line fitted to the in-the-money sums; StepLineIsFit proves it is the least-squares fit of Y on X |
| LongstaffSchwartz.Step | pricing_models.py:129-139 | a step either fails with the regression-without-samples error or keeps one value per path |
| LongstaffSchwartz.StepFailure | pricing_models.py:131-135 | a step fails exactly when no path is in the money |
| LongstaffSchwartz.StepLineIsFit | pricing_models.py:132-136 | the line a step uses is the least-squares fit of the discounted values on the in-the-money prices, and its residuals sum to zero |
| LongstaffSchwartz.Update | pricing_models.py:138-139 | the masked assignment keeps one value per path |
| LongstaffSchwartz.StepEffect | pricing_models.py:129-139 | an out-of-the-money path keeps its value undiscounted; an in-the-money path takes its payoff when that exceeds the estimate, and otherwise its value times the discount factor |
| LongstaffSchwartz.StepValue | pricing_models.py:137-139 | each entry after a successful step is that path's exercise-or-hold decision under the fitted line |
| LongstaffSchwartz.Backward | pricing_models.py:128-139 | the loop either fails with the regression-without-samples error or keeps one value per path |
| LongstaffSchwartz.BackwardAdvance | pricing_models.py:128 | one successful step hands the loop over to the next lower step |
| LongstaffSchwartz.TerminalValues | pricing_models.py:127 | the starting vector has one value per path |
| LongstaffSchwartz.Conclude | pricing_models.py:141 | a failed loop passes its error on; an empty batch has a NaN mean; otherwise the result succeeds |
| LongstaffSchwartz.Price | pricing_models.py:127-141 | the specification the in-place method is proved against: an empty batch never gives a price, and the only failures are a regression without samples and a NaN mean |
| LongstaffSchwartz.PriceWithoutLoop | pricing_models.py:127-141 | with at most one step the loop runs no pass and the price is the discounted mean payoff at maturity |
| LongstaffSchwartz.ConcludeMean | pricing_models.py:141 | after a successful loop the result is the mean of the path values times the discount factor |
| LongstaffSchwartz.StepNonNegative | pricing_models.py:129-139 | with a non-negative discount factor a step keeps every path value non-negative |
| LongstaffSchwartz.BackwardNonNegative | pricing_models.py:128-139 | with a non-negative discount factor the whole loop keeps every path value non-negative |
| LongstaffSchwartz.PriceNonNegative | pricing_models.py:141 | the price is non-negative when the discount factor is |
| LongstaffSchwartz.OutOfTheMoneyKeepsValue | pricing_models.py:131-139 | a path out of the money at every visited step ends the loop with its starting value, undiscounted |
| LongstaffSchwartz.ItmAgree | pricing_models.py:131-133 | the regression data at a step from 1 on depends only on the prices from step 1 on |
| LongstaffSchwartz.StepAgree | pricing_models.py:128-139 | a step from 1 on gives the same result for two batches that agree from step 1 on |
| LongstaffSchwartz.BackwardAgree | pricing_models.py:128 | the whole loop gives the same result for two such batches |
| LongstaffSchwartz.TerminalAgree | pricing_models.py:127 | the starting vector is the same for two such batches when there is at least one step |
| LongstaffSchwartz.StartPricesIgnored | pricing_models.py:127-128 | step 0 is never part of the loop: batches differing only in their time-0 prices get the same price |
| LongstaffSchwartz.ComputePayoffs | pricing_models.py:116-124 | the fresh matrix holds the payoff of every path at every step |
| LongstaffSchwartz.BackwardStep | pricing_models.py:129-139 | the in-place pass succeeds exactly when the step does, and then leaves the step's values; otherwise it leaves the vector unchanged, and the loop fails |
| LongstaffSchwartz.BackwardLoop | pricing_models.py:128-139 | the in-place loop succeeds exactly when the specification succeeds, and then leaves its values |
| LongstaffSchwartz.LongstaffSchwartzPrice | pricing_models.py:116-141 | the method computes the specified price, which is non-negative when the discount factor is |
| App.MakeRecommendation | app.py:81-91 | strong buy exactly above ask·1.05; buy or strong buy whenever above the ask; with ask ≥ 0, buy exactly in (ask, ask·1.05]; with both quotes ≥ 0, hold exactly in [bid, ask]; at or below the ask, strong sell exactly below bid·0.95 and sell exactly in [bid·0.95, bid) |
| App.RecommendationMonotone | app.py:81-91 | with non-negative quotes a higher fair value never gives a more bearish recommendation |
| App.TitleOf | app.py:73-76 | the general error box exactly for the missing fair value of an unknown method and for a lookup failure that is not a ValueError; every other failure is a ValueError shown as an input error |
| App.AdviceFor | app.py:59-64 | no recommendation exactly when bid and ask are both 0; otherwise the recommendation for the fair value and the quote |
| App.PerformCalculation | app.py:19-76 | an unparsable strike, then empty fields or a non-positive strike end in the input-error box before any lookup; a failed lookup ends in the input-error box when it raised a ValueError and in the general box otherwise, before any pricing; Black–Scholes with a non-European style gives its own error and no price; a price comes only from the chosen pricer, with the fetched quote and its advice; when the chosen pricer (Black–Scholes only for a European style) raises, its ValueError ends in the input-error box |
| App.FieldsValid | app.py:28 | definition: the ticker and expiry are non-empty and the strike parsed to a positive number |
| App.Report | app.py:45-76 | a pricer's result becomes a price exactly when it succeeds, with the fetched quote and its advice; a failing pricer always ends in the input-error box with its own error, and no other error arises |
| App.PricedIffPricerSucceeds | app.py:43-53 | with valid fields and market data, the option is priced exactly when the chosen pricer succeeds, and never for an unknown method or non-European Black–Scholes |
| App.StyleIgnoredOutsideBlackScholes | app.py:50-53 | the lattice and the simulation give the same outcome for either style |
| App.OnlyChosenPricerMatters | app.py:43-53 | the outcome depends on no pricer but the chosen one |
| App.BlackScholesRoute | app.py:43-45 | with the closed form as the Black–Scholes pricer, a European call or put is priced exactly when T, σ and S are positive, at the call or put formula |

## Left out

- Path simulation (pricing_models.py:86-91) is random and floating-point. The batch of paths is an input, and its first column need not equal the spot; `StartPricesIgnored` shows that this column does not matter.
- Plotting (pricing_models.py:93-114) is presentation only.
- Floating point is not modelled. Every quantity is an exact real, including the thresholds 1.05 and 0.95.
- The lattice constants u, p and the per-step discount factor (pricing_models.py:33-37) need `exp` and `sqrt`. They are parameters, with u > 0 required because it is an exponential; d = 1/u is computed as in the code.
- The scikit-learn regression (pricing_models.py:135-136) is replaced by an exact one-predictor least-squares line over the reals. When every in-the-money price is equal, the slope is 0 and the line is the mean: the minimum-norm solution. When no path is in the money the library raises, which is modelled as a failure of the step.
- LeastSquares.Fit: only the normal equations are stated. That the residuals are orthogonal to the predictor is not derived over the residual sequence; only their zero sum is.
- `option_values` aliases the last column of `payoffs` (pricing_models.py:127). The model copies it; that column is never read again, so the result is the same.
- The mean of an empty batch is NaN in the code. The model returns a NaN-mean error instead.
- App.PerformCalculation: the market-data lookup (data_fetch.py), the date arithmetic for the time to expiry (app.py:39) and the three pricers are inputs. What each pricer returns is passed in, so the function does not call `Analytic`, `Lattice` or `LongstaffSchwartz`. `BlackScholesRoute` ties the Black–Scholes input to `Analytic.BlackScholesPrice`.
- App.PerformCalculation: the upper- and lower-casing of the form's strings is not modelled; the option type and the method arrive already classified.
- App.PerformCalculation: a NaN fair value (which the code would show and rate "Hold") cannot arise. The application always simulates a fixed, non-zero number of paths.
- The alternative-suggestion text (app.py:93-94), the labels, message boxes, the worker thread (app.py:17) and the window layout are user interface only.
- main_script.py is not part of this model: it is a script doing I/O.
