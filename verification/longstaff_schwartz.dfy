/** The Longstaff-Schwartz backward induction of monte_carlo_longstaff_schwartz
    (pricing_models.py lines 116-141). The simulated price paths are an input: the
    random simulation and the plot that precede this part are not modelled.

    The specification functions below value a batch of paths step by step; the
    methods at the end fill the payoff matrix and overwrite the vector of path
    values in place, as pricing_models.py does, and are proved to compute exactly what
    the functions describe. */
module LongstaffSchwartz {
  import opened Payoff
  import opened LeastSquares

  /** A batch of simulated paths: paths[i][t] is the price on path i after t steps.
      `disc` is the one-step discount factor exp(-r * dt), computed by the caller. */
  datatype Batch = Batch(paths: seq<seq<real>>, steps: nat, strike: real, kind: OptionType, disc: real)

  /** Every path has one price per time point 0 .. steps. */
  predicate WellFormed(b: Batch) {
    forall i :: 0 <= i < |b.paths| ==> |b.paths[i]| == b.steps + 1
  }

  /** payoffs[i, t] (lines 117-124): the call payoff for a call, the put payoff for
      any other type; never negative, and positive exactly when path i is in the
      money at step t. */
  function PayoffAt(b: Batch, i: nat, t: nat): (v: real)
    requires WellFormed(b) && i < |b.paths| && t <= b.steps
    ensures v >= 0.0
    ensures v > 0.0 <==> (if b.kind == Call then b.paths[i][t] > b.strike else b.paths[i][t] < b.strike)
  {
    Exercise(b.kind, b.paths[i][t], b.strike)
  }

  /** No path among the first m is in the money at step t. */
  predicate NoneInTheMoney(b: Batch, t: nat, m: nat)
    requires WellFormed(b) && t <= b.steps && m <= |b.paths|
  {
    forall i :: 0 <= i < m ==> PayoffAt(b, i, t) == 0.0
  }

  /** X of line 132: the prices at step t of the in-the-money paths among the first
      m, in path order. */
  function ItmPrices(b: Batch, t: nat, m: nat): (xs: seq<real>)
    requires WellFormed(b) && t <= b.steps && m <= |b.paths|
    ensures |xs| <= m
  {
    if m == 0 then []
    else ItmPrices(b, t, m - 1) + (if PayoffAt(b, m - 1, t) > 0.0 then [b.paths[m - 1][t]] else [])
  }

  /** continuation_value of line 129: every path value discounted by one step. */
  function Discounted(values: seq<real>, disc: real): (conts: seq<real>)
    ensures |conts| == |values|
  {
    seq(|values|, i requires 0 <= i < |values| => values[i] * disc)
  }

  lemma DiscountedAt(values: seq<real>, disc: real, i: nat)
    requires i < |values|
    ensures Discounted(values, disc)[i] == values[i] * disc
  {
  }

  /** Y of line 133: the continuation values of the same paths, in the same order. */
  function ItmContinuations(b: Batch, conts: seq<real>, t: nat, m: nat): (ys: seq<real>)
    requires WellFormed(b) && t <= b.steps && m <= |b.paths| == |conts|
    ensures |ys| == |ItmPrices(b, t, m)|
  {
    if m == 0 then []
    else ItmContinuations(b, conts, t, m - 1)
         + (if PayoffAt(b, m - 1, t) > 0.0 then [conts[m - 1]] else [])
  }

  /** The sums the regression of lines 135-136 needs, accumulated over the
      in-the-money paths among the first m: the samples are (price at step t,
      continuation value). */
  function ItmMoments(b: Batch, conts: seq<real>, t: nat, m: nat): (r: Moments)
    requires WellFormed(b) && t <= b.steps && m <= |b.paths| == |conts|
    ensures r.n >= 0.0
    ensures r.n == 0.0 <==> NoneInTheMoney(b, t, m)
  {
    if m == 0 then Moments(0.0, 0.0, 0.0, 0.0, 0.0)
    else
      var r := ItmMoments(b, conts, t, m - 1);
      if PayoffAt(b, m - 1, t) > 0.0 then AddSample(r, b.paths[m - 1][t], conts[m - 1]) else r
  }

  /** The accumulated sums are the sums of X and Y. */
  lemma {:induction false} ItmMomentsAreSampleMoments(b: Batch, conts: seq<real>, t: nat, m: nat)
    requires WellFormed(b) && t <= b.steps && m <= |b.paths| == |conts|
    ensures ItmMoments(b, conts, t, m)
            == SampleMoments(ItmPrices(b, t, m), ItmContinuations(b, conts, t, m))
  {
    if m > 0 {
      ItmMomentsAreSampleMoments(b, conts, t, m - 1);
      var xs, ys := ItmPrices(b, t, m - 1), ItmContinuations(b, conts, t, m - 1);
      if PayoffAt(b, m - 1, t) > 0.0 {
        var x, y := b.paths[m - 1][t], conts[m - 1];
        assert ItmPrices(b, t, m) == xs + [x];
        assert ItmContinuations(b, conts, t, m) == ys + [y];
        SampleMomentsAppend(xs, ys, x, y);
      } else {
        assert ItmPrices(b, t, m) == xs;
        assert ItmContinuations(b, conts, t, m) == ys;
      }
    }
  }

  /** The regression has samples exactly when some path is in the money. */
  lemma {:induction false} ItmPricesEmpty(b: Batch, t: nat, m: nat)
    requires WellFormed(b) && t <= b.steps && m <= |b.paths|
    ensures |ItmPrices(b, t, m)| == 0 <==> NoneInTheMoney(b, t, m)
  {
    if m > 0 {
      ItmPricesEmpty(b, t, m - 1);
      if PayoffAt(b, m - 1, t) > 0.0 {
        assert !NoneInTheMoney(b, t, m);
      }
    }
  }

  /** The new value of path i at step t (lines 137-139), given the fitted line. */
  function Decide(b: Batch, line: Line, values: seq<real>, conts: seq<real>, t: nat, i: nat): real
    requires WellFormed(b) && t <= b.steps && i < |b.paths| == |values| == |conts|
  {
    var payoff := PayoffAt(b, i, t);
    if payoff > 0.0 then
      (if payoff > Predict(line, b.paths[i][t]) then payoff else conts[i])
    else values[i]
  }

  /** Whatever the fitted line, an out-of-the-money path keeps its value, every path
      ends with its value, its continuation value or its payoff, and non-negative
      values and continuations give a non-negative result. */
  lemma DecideBounds(b: Batch, line: Line, values: seq<real>, conts: seq<real>, t: nat, i: nat)
    requires WellFormed(b) && t <= b.steps && i < |b.paths| == |values| == |conts|
    ensures PayoffAt(b, i, t) == 0.0 ==> Decide(b, line, values, conts, t, i) == values[i]
    ensures Decide(b, line, values, conts, t, i) in {values[i], conts[i], PayoffAt(b, i, t)}
    ensures values[i] >= 0.0 && conts[i] >= 0.0 ==> Decide(b, line, values, conts, t, i) >= 0.0
  {
  }

  /** One pass of the backward loop at step t (lines 129-139). It fails when no path
      is in the money, because the regression is then given no sample. Otherwise
      every out-of-the-money path keeps its value, undiscounted, and every
      in-the-money path takes its payoff or its discounted value. */
  function Step(b: Batch, values: seq<real>, t: nat): (r: Result<seq<real>>)
    requires WellFormed(b) && t <= b.steps && |values| == |b.paths|
    ensures r.Failure? ==> r.error == RegressionWithoutSamples
    ensures r.Success? ==> |r.value| == |values|
  {
    if NoneInTheMoney(b, t, |b.paths|) then Failure(RegressionWithoutSamples)
    else Success(Update(b, StepLine(b, values, t), values, Discounted(values, b.disc), t))
  }

  /** A step fails exactly when the regression would be given no sample. */
  lemma StepFailure(b: Batch, values: seq<real>, t: nat)
    requires WellFormed(b) && t <= b.steps && |values| == |b.paths|
    ensures Step(b, values, t).Failure? <==> |ItmPrices(b, t, |b.paths|)| == 0
    ensures Step(b, values, t).Failure? <==> NoneInTheMoney(b, t, |b.paths|)
  {
    ItmPricesEmpty(b, t, |b.paths|);
  }

  /** The line fitted at step t: continuation values regressed on prices, over the
      in-the-money paths (lines 131-136). */
  function StepLine(b: Batch, values: seq<real>, t: nat): Line
    requires WellFormed(b) && t <= b.steps && |values| == |b.paths|
    requires !NoneInTheMoney(b, t, |b.paths|)
  {
    LineFromMoments(ItmMoments(b, Discounted(values, b.disc), t, |b.paths|))
  }

  /** That line is the least-squares fit of Y on X, so its residuals over the
      in-the-money paths sum to zero. */
  lemma StepLineIsFit(b: Batch, values: seq<real>, t: nat)
    requires WellFormed(b) && t <= b.steps && |values| == |b.paths|
    requires !NoneInTheMoney(b, t, |b.paths|)
    ensures |ItmPrices(b, t, |b.paths|)| > 0
    ensures StepLine(b, values, t)
            == Fit(ItmPrices(b, t, |b.paths|), ItmContinuations(b, Discounted(values, b.disc), t, |b.paths|))
    ensures Sum(Residuals(ItmPrices(b, t, |b.paths|),
                          ItmContinuations(b, Discounted(values, b.disc), t, |b.paths|),
                          StepLine(b, values, t))) == 0.0
  {
    var conts := Discounted(values, b.disc);
    ItmPricesEmpty(b, t, |b.paths|);
    ItmMomentsAreSampleMoments(b, conts, t, |b.paths|);
    FitResidualsSumToZero(ItmPrices(b, t, |b.paths|), ItmContinuations(b, conts, t, |b.paths|));
  }

  /** The masked assignment of lines 138-139 applied to every path. */
  function Update(b: Batch, line: Line, values: seq<real>, conts: seq<real>, t: nat): (r: seq<real>)
    requires WellFormed(b) && t <= b.steps && |values| == |b.paths| == |conts|
    ensures |r| == |values|
  {
    seq(|values|, i requires 0 <= i < |values| => Decide(b, line, values, conts, t, i))
  }

  /** What one step does to path i: an out-of-the-money path keeps its value,
      undiscounted; an in-the-money path takes its payoff when the payoff exceeds
      the fitted continuation value at its price, and its discounted value
      otherwise. */
  lemma StepEffect(b: Batch, values: seq<real>, t: nat, i: nat)
    requires WellFormed(b) && t <= b.steps && |values| == |b.paths| && i < |values|
    requires Step(b, values, t).Success?
    ensures PayoffAt(b, i, t) == 0.0 ==> Step(b, values, t).value[i] == values[i]
    ensures PayoffAt(b, i, t) > 0.0 && PayoffAt(b, i, t) > Predict(StepLine(b, values, t), b.paths[i][t])
            ==> Step(b, values, t).value[i] == PayoffAt(b, i, t)
    ensures PayoffAt(b, i, t) > 0.0 && PayoffAt(b, i, t) <= Predict(StepLine(b, values, t), b.paths[i][t])
            ==> Step(b, values, t).value[i] == values[i] * b.disc
  {
    StepKeeps(b, values, t, i);
    StepExercises(b, values, t, i);
    StepHolds(b, values, t, i);
  }

  lemma StepKeeps(b: Batch, values: seq<real>, t: nat, i: nat)
    requires WellFormed(b) && t <= b.steps && |values| == |b.paths| && i < |values|
    requires Step(b, values, t).Success?
    ensures PayoffAt(b, i, t) == 0.0 ==> Step(b, values, t).value[i] == values[i]
  {
    StepValue(b, values, t, i);
    DecideCases(b, StepLine(b, values, t), values, Discounted(values, b.disc), t, i);
  }

  lemma StepExercises(b: Batch, values: seq<real>, t: nat, i: nat)
    requires WellFormed(b) && t <= b.steps && |values| == |b.paths| && i < |values|
    requires Step(b, values, t).Success?
    ensures PayoffAt(b, i, t) > 0.0 && PayoffAt(b, i, t) > Predict(StepLine(b, values, t), b.paths[i][t])
            ==> Step(b, values, t).value[i] == PayoffAt(b, i, t)
  {
    StepValue(b, values, t, i);
    DecideCases(b, StepLine(b, values, t), values, Discounted(values, b.disc), t, i);
  }

  lemma StepHolds(b: Batch, values: seq<real>, t: nat, i: nat)
    requires WellFormed(b) && t <= b.steps && |values| == |b.paths| && i < |values|
    requires Step(b, values, t).Success?
    ensures PayoffAt(b, i, t) > 0.0 && PayoffAt(b, i, t) <= Predict(StepLine(b, values, t), b.paths[i][t])
            ==> Step(b, values, t).value[i] == values[i] * b.disc
  {
    var conts := Discounted(values, b.disc);
    if PayoffAt(b, i, t) > 0.0 && PayoffAt(b, i, t) <= Predict(StepLine(b, values, t), b.paths[i][t]) {
      assert Step(b, values, t).value[i] == conts[i] by {
        StepValue(b, values, t, i);
        DecideCases(b, StepLine(b, values, t), values, conts, t, i);
      }
      DiscountedAt(values, b.disc, i);
    }
  }

  /** The three cases of Decide, for any line and any continuation values. */
  lemma DecideCases(b: Batch, line: Line, values: seq<real>, conts: seq<real>, t: nat, i: nat)
    requires WellFormed(b) && t <= b.steps && i < |b.paths| == |values| == |conts|
    ensures PayoffAt(b, i, t) == 0.0 ==> Decide(b, line, values, conts, t, i) == values[i]
    ensures PayoffAt(b, i, t) > 0.0 && PayoffAt(b, i, t) > Predict(line, b.paths[i][t])
            ==> Decide(b, line, values, conts, t, i) == PayoffAt(b, i, t)
    ensures PayoffAt(b, i, t) > 0.0 && PayoffAt(b, i, t) <= Predict(line, b.paths[i][t])
            ==> Decide(b, line, values, conts, t, i) == conts[i]
  {
  }

  lemma StepValue(b: Batch, values: seq<real>, t: nat, i: nat)
    requires WellFormed(b) && t <= b.steps && |values| == |b.paths| && i < |values|
    requires Step(b, values, t).Success?
    ensures !NoneInTheMoney(b, t, |b.paths|)
    ensures Step(b, values, t).value[i]
            == Decide(b, StepLine(b, values, t), values, Discounted(values, b.disc), t, i)
  {
  }

  /** The backward loop from step t down to step 1 (line 128): step 0 is never visited. */
  function Backward(b: Batch, values: seq<real>, t: int): (r: Result<seq<real>>)
    requires WellFormed(b) && t <= b.steps && |values| == |b.paths|
    ensures r.Success? ==> |r.value| == |values|
    ensures r.Failure? ==> r.error == RegressionWithoutSamples
    decreases t
  {
    if t <= 0 then Success(values)
    else match Step(b, values, t)
      case Failure(e) => Failure(e)
      case Success(next) => Backward(b, next, t - 1)
  }

  lemma BackwardUnfold(b: Batch, values: seq<real>, t: int)
    requires WellFormed(b) && 1 <= t <= b.steps && |values| == |b.paths|
    ensures Step(b, values, t).Failure? ==> Backward(b, values, t).Failure?
  {
  }

  lemma BackwardAdvance(b: Batch, before: seq<real>, after: seq<real>, t: int)
    requires WellFormed(b) && 1 <= t <= b.steps && |before| == |b.paths|
    requires Step(b, before, t).Success? && after == Step(b, before, t).value
    ensures Backward(b, after, t - 1) == Backward(b, before, t)
  {
  }

  /** option_values before the loop (line 127): the payoff at maturity. */
  function TerminalValues(b: Batch): (v: seq<real>)
    requires WellFormed(b)
    ensures |v| == |b.paths|
  {
    seq(|b.paths|, i requires 0 <= i < |b.paths| => PayoffAt(b, i, b.steps))
  }

  /** The result (line 141) from the outcome of the loop: the mean of the path
      values, discounted once more. The mean of no paths is not a number. */
  function Conclude(r: Result<seq<real>>, disc: real): (res: Result<real>)
    ensures r.Failure? ==> res == Failure(r.error)
    ensures r.Success? && |r.value| == 0 ==> res == Failure(NaNMean)
    ensures res.Success? <==> r.Success? && |r.value| > 0
  {
    if r.Failure? then Failure(r.error)
    else if |r.value| == 0 then Failure(NaNMean)
    else Success(Mean(r.value) * disc)
  }

  lemma ConcludeMean(r: Result<seq<real>>, disc: real)
    requires r.Success? && |r.value| > 0
    ensures Conclude(r, disc).Success?
    ensures Conclude(r, disc).value == Mean(r.value) * disc
  {
  }

  /** The price the simulation reports: the loop from step N - 1 down to step 1
      started from the payoffs at maturity, then the discounted mean. */
  function Price(b: Batch): (res: Result<real>)
    requires WellFormed(b)
    ensures |b.paths| == 0 ==> res.Failure?
    ensures res.Failure? ==> res.error == RegressionWithoutSamples || res.error == NaNMean
  {
    Conclude(Backward(b, TerminalValues(b), b.steps - 1), b.disc)
  }

  /** With at most one step the loop runs no pass (range(N - 1, 0, -1) is empty):
      the price is the discounted mean payoff at maturity. */
  lemma PriceWithoutLoop(b: Batch)
    requires WellFormed(b) && b.steps <= 1 && |b.paths| > 0
    ensures Price(b).Success?
    ensures Price(b).value == Mean(TerminalValues(b)) * b.disc
  {
    var r := Backward(b, TerminalValues(b), b.steps - 1);
    assert r == Success(TerminalValues(b));
    ConcludeMean(r, b.disc);
  }

  lemma {:induction false} SumNonNegative(s: seq<real>)
    requires forall k :: 0 <= k < |s| ==> s[k] >= 0.0
    ensures Sum(s) >= 0.0
  {
    if |s| > 0 {
      SumNonNegative(s[1..]);
    }
  }

  /** With a non-negative discount factor one step keeps every path value
      non-negative. */
  lemma StepNonNegative(b: Batch, values: seq<real>, t: nat)
    requires WellFormed(b) && t <= b.steps && |values| == |b.paths| && b.disc >= 0.0
    requires forall k :: 0 <= k < |values| ==> values[k] >= 0.0
    requires Step(b, values, t).Success?
    ensures forall k :: 0 <= k < |values| ==> Step(b, values, t).value[k] >= 0.0
  {
    forall k | 0 <= k < |values|
      ensures Step(b, values, t).value[k] >= 0.0
    {
      StepEntryNonNegative(b, values, t, k, values[k]);
    }
  }

  lemma StepEntryNonNegative(b: Batch, values: seq<real>, t: nat, k: nat, v: real)
    requires WellFormed(b) && t <= b.steps && |values| == |b.paths| && b.disc >= 0.0
    requires k < |values| && v == values[k] && v >= 0.0
    requires Step(b, values, t).Success?
    ensures Step(b, values, t).value[k] >= 0.0
  {
    StepEffect(b, values, t, k);
    ProductNonNegative(v, b.disc);
  }

  lemma ProductNonNegative(x: real, y: real)
    requires x >= 0.0 && y >= 0.0
    ensures x * y >= 0.0
  {
  }

  /** With a non-negative discount factor the backward loop keeps every path value
      non-negative. */
  lemma {:induction false} BackwardNonNegative(b: Batch, values: seq<real>, t: int)
    requires WellFormed(b) && t <= b.steps && |values| == |b.paths| && b.disc >= 0.0
    requires forall k :: 0 <= k < |values| ==> values[k] >= 0.0
    ensures Backward(b, values, t).Success? ==>
              forall k :: 0 <= k < |values| ==> Backward(b, values, t).value[k] >= 0.0
    decreases t
  {
    if t > 0 {
      var r := Step(b, values, t);
      if r.Success? {
        StepNonNegative(b, values, t);
        BackwardNonNegative(b, r.value, t - 1);
      }
    }
  }

  /** The price is never negative when the discount factor is not (line 141). */
  lemma PriceNonNegative(b: Batch)
    requires WellFormed(b) && b.disc >= 0.0
    ensures Price(b).Success? ==> Price(b).value >= 0.0
  {
    var v0 := TerminalValues(b);
    BackwardNonNegative(b, v0, b.steps - 1);
    var r := Backward(b, v0, b.steps - 1);
    if r.Success? && |r.value| > 0 {
      SumNonNegative(r.value);
      assert Mean(r.value) >= 0.0;
    }
  }

  /** A path that is out of the money at every step the loop visits ends the loop
      with its value at maturity, undiscounted (line 139 writes only in-the-money
      entries). */
  lemma {:induction false} OutOfTheMoneyKeepsValue(b: Batch, values: seq<real>, t: int, i: nat)
    requires WellFormed(b) && t <= b.steps && |values| == |b.paths| && i < |values|
    requires forall s :: 1 <= s <= t ==> PayoffAt(b, i, s) == 0.0
    ensures Backward(b, values, t).Success? ==> Backward(b, values, t).value[i] == values[i]
    decreases t
  {
    if t > 0 {
      var r := Step(b, values, t);
      if r.Success? {
        StepEffect(b, values, t, i);
        OutOfTheMoneyKeepsValue(b, r.value, t - 1, i);
      }
    }
  }

  /** Two batches that agree on every price from step 1 on. */
  predicate AgreeAfterStart(b: Batch, c: Batch)
    requires WellFormed(b) && WellFormed(c)
  {
    && b.steps == c.steps && b.strike == c.strike && b.kind == c.kind && b.disc == c.disc
    && |b.paths| == |c.paths|
    && forall i, t :: 0 <= i < |b.paths| && 1 <= t <= b.steps ==> b.paths[i][t] == c.paths[i][t]
  }

  lemma {:induction false} ItmAgree(b: Batch, c: Batch, conts: seq<real>, t: nat, m: nat)
    requires WellFormed(b) && WellFormed(c) && AgreeAfterStart(b, c)
    requires 1 <= t <= b.steps && m <= |b.paths| == |conts|
    ensures ItmPrices(b, t, m) == ItmPrices(c, t, m)
    ensures ItmContinuations(b, conts, t, m) == ItmContinuations(c, conts, t, m)
  {
    if m > 0 {
      ItmAgree(b, c, conts, t, m - 1);
      assert b.paths[m - 1][t] == c.paths[m - 1][t];
      assert PayoffAt(b, m - 1, t) == PayoffAt(c, m - 1, t);
    }
  }

  lemma StepAgree(b: Batch, c: Batch, values: seq<real>, t: nat)
    requires WellFormed(b) && WellFormed(c) && AgreeAfterStart(b, c)
    requires 1 <= t <= b.steps && |values| == |b.paths|
    ensures Step(b, values, t) == Step(c, values, t)
  {
    var conts := Discounted(values, b.disc);
    assert b.disc == c.disc;
    ItmAgree(b, c, conts, t, |b.paths|);
    StepFailure(b, values, t);
    StepFailure(c, values, t);
    if |ItmPrices(b, t, |b.paths|)| > 0 {
      StepLineIsFit(b, values, t);
      StepLineIsFit(c, values, t);
      var line := StepLine(b, values, t);
      assert line == StepLine(c, values, t);
      forall i | 0 <= i < |values|
        ensures Decide(b, line, values, conts, t, i) == Decide(c, line, values, conts, t, i)
      {
        assert PayoffAt(b, i, t) == PayoffAt(c, i, t);
      }
      assert Update(b, line, values, conts, t) == Update(c, line, values, conts, t);
    }
  }

  lemma {:induction false} BackwardAgree(b: Batch, c: Batch, values: seq<real>, t: int)
    requires WellFormed(b) && WellFormed(c) && AgreeAfterStart(b, c)
    requires t <= b.steps && |values| == |b.paths|
    ensures Backward(b, values, t) == Backward(c, values, t)
    decreases t
  {
    if t > 0 {
      StepAgree(b, c, values, t);
      var r := Step(b, values, t);
      if r.Success? {
        BackwardAgree(b, c, r.value, t - 1);
      }
    }
  }

  lemma TerminalAgree(b: Batch, c: Batch)
    requires WellFormed(b) && WellFormed(c) && AgreeAfterStart(b, c) && b.steps >= 1
    ensures TerminalValues(b) == TerminalValues(c)
  {
    var v := TerminalValues(b);
    forall i | 0 <= i < |b.paths|
      ensures v[i] == TerminalValues(c)[i]
    {
      assert PayoffAt(b, i, b.steps) == PayoffAt(c, i, c.steps);
    }
  }

  /** Step 0 is never part of the backward loop: the prices at time 0 do not affect
      the result, so immediate exercise is never considered. */
  lemma StartPricesIgnored(b: Batch, c: Batch)
    requires WellFormed(b) && WellFormed(c) && AgreeAfterStart(b, c) && b.steps >= 1
    ensures Price(b) == Price(c)
  {
    TerminalAgree(b, c);
    BackwardAgree(b, c, TerminalValues(b), b.steps - 1);
    assert b.steps == c.steps && b.disc == c.disc;
  }

  /** The payoff matrix (lines 117-124), filled one column at a time. */
  method ComputePayoffs(b: Batch) returns (payoffs: array2<real>)
    requires WellFormed(b)
    ensures fresh(payoffs)
    ensures payoffs.Length0 == |b.paths| && payoffs.Length1 == b.steps + 1
    ensures forall i, t :: 0 <= i < |b.paths| && 0 <= t <= b.steps ==> payoffs[i, t] == PayoffAt(b, i, t)
  {
    payoffs := new real[|b.paths|, b.steps + 1]((_, _) => 0.0);
    for t := 0 to b.steps + 1
      invariant forall i, s :: 0 <= i < |b.paths| && 0 <= s < t ==> payoffs[i, s] == PayoffAt(b, i, s)
    {
      for i := 0 to |b.paths|
        invariant forall k, s :: 0 <= k < |b.paths| && 0 <= s < t ==> payoffs[k, s] == PayoffAt(b, k, s)
        invariant forall k :: 0 <= k < i ==> payoffs[k, t] == PayoffAt(b, k, t)
      {
        var price := b.paths[i][t];
        if b.kind == Call {
          payoffs[i, t] := Max(price - b.strike, 0.0);
        } else {
          payoffs[i, t] := Max(b.strike - price, 0.0);
        }
      }
    }
  }

  /** One pass of the backward loop on the vector of path values (lines 129-139).
      The regression sees only in-the-money paths; the masked assignment then
      rewrites exactly those entries. When no path is in the money the fit fails
      and nothing is written. */
  method BackwardStep(b: Batch, payoffs: array2<real>, values: array<real>, t: nat) returns (ok: bool)
    requires WellFormed(b) && 1 <= t <= b.steps && values.Length == |b.paths|
    requires payoffs.Length0 == |b.paths| && payoffs.Length1 == b.steps + 1
    requires forall i, s :: 0 <= i < |b.paths| && 0 <= s <= b.steps ==> payoffs[i, s] == PayoffAt(b, i, s)
    modifies values
    ensures ok <==> Step(b, old(values[..]), t).Success?
    ensures ok ==> values[..] == Step(b, old(values[..]), t).value
    ensures !ok ==> values[..] == old(values[..])
    ensures ok ==> Backward(b, values[..], t - 1) == Backward(b, old(values[..]), t)
    ensures !ok ==> Backward(b, old(values[..]), t).Failure?
  {
    var current := values[..];
    var xs := ItmPrices(b, t, |b.paths|);
    StepFailure(b, current, t);
    if |xs| == 0 {
      BackwardUnfold(b, current, t);
      return false;
    }
    var conts := Discounted(current, b.disc);
    var line := Fit(xs, ItmContinuations(b, conts, t, |b.paths|));
    StepLineIsFit(b, current, t);
    for i := 0 to values.Length
      invariant forall k :: 0 <= k < i ==> values[k] == Decide(b, line, current, conts, t, k)
      invariant forall k :: i <= k < values.Length ==> values[k] == current[k]
    {
      var payoff := payoffs[i, t];
      if payoff > 0.0 {
        if payoff > Predict(line, b.paths[i][t]) {
          values[i] := payoff;
        } else {
          values[i] := conts[i];
        }
      }
    }
    ok := true;
    BackwardAdvance(b, current, values[..], t);
  }

  /** The loop of lines 128-139: steps t0 down to 1, stopping at the first step
      whose regression has no samples. */
  method BackwardLoop(b: Batch, payoffs: array2<real>, values: array<real>, t0: int) returns (ok: bool)
    requires WellFormed(b) && t0 <= b.steps && values.Length == |b.paths|
    requires payoffs.Length0 == |b.paths| && payoffs.Length1 == b.steps + 1
    requires forall i, s :: 0 <= i < |b.paths| && 0 <= s <= b.steps ==> payoffs[i, s] == PayoffAt(b, i, s)
    modifies values
    ensures ok <==> Backward(b, old(values[..]), t0).Success?
    ensures ok ==> values[..] == Backward(b, old(values[..]), t0).value
  {
    ghost var outcome := Backward(b, values[..], t0);
    var t := t0;
    while t >= 1
      modifies values
      invariant t <= t0
      invariant Backward(b, values[..], t) == outcome
      decreases t
    {
      ok := BackwardStep(b, payoffs, values, t);
      if !ok {
        return;
      }
      t := t - 1;
    }
    ok := true;
  }

  /** monte_carlo_longstaff_schwartz from the payoff matrix on: computes Price. */
  method LongstaffSchwartzPrice(b: Batch) returns (res: Result<real>)
    requires WellFormed(b)
    ensures res == Price(b)
    ensures res.Success? && b.disc >= 0.0 ==> res.value >= 0.0
  {
    var payoffs := ComputePayoffs(b);
    var values := new real[|b.paths|];
    for i := 0 to |b.paths|
      modifies values
      invariant forall k :: 0 <= k < i ==> values[k] == PayoffAt(b, k, b.steps)
    {
      values[i] := payoffs[i, b.steps];
    }
    assert values[..] == TerminalValues(b);
    var ok := BackwardLoop(b, payoffs, values, b.steps - 1);
    ghost var outcome := Backward(b, TerminalValues(b), b.steps - 1);
    if !ok {
      res := Failure(RegressionWithoutSamples);
      assert outcome.Failure? && outcome.error == RegressionWithoutSamples;
    } else if values.Length == 0 {
      res := Failure(NaNMean);
      assert res == Conclude(outcome, b.disc);
    } else {
      res := Success(Mean(values[..]) * b.disc);
      assert outcome.Success? && outcome.value == values[..];
      ConcludeMean(outcome, b.disc);
      assert Mean(outcome.value) == Mean(values[..]);
      assert res.value == Conclude(outcome, b.disc).value;
    }
    assert res == Conclude(outcome, b.disc);
    if b.disc >= 0.0 {
      PriceNonNegative(b);
    }
  }
}
