/** The binomial lattice pricer for American options (pricing_models.py,
    binomial_tree_american_option). The method fills two (N+1) x (N+1) grids in
    place, exactly as pricing_models.py does: the asset prices forward from the root,
    then the option values backward from expiry with early exercise. The factor
    u, the probability p and the per-step discount factor are computed by the
    caller (they need exp and sqrt); d = 1/u is computed here, as in pricing_models.py. */
module Lattice {
  import opened Payoff

  function Pow(x: real, n: nat): real
  {
    if n == 0 then 1.0 else x * Pow(x, n - 1)
  }

  /** Everything a lattice valuation depends on. */
  datatype Tree = Tree(
    spot: real,
    strike: real,
    up: real,
    down: real,
    prob: real,    // risk-neutral probability of an up move
    disc: real,    // discount factor for one step
    kind: OptionType,
    steps: nat)

  /** The asset price at node (i, j): i steps taken, j of them down. The root holds
      the spot; the top node of each row is one up move from the row before, and
      every other node one down move from its upper-left neighbour. */
  function NodePrice(g: Tree, i: nat, j: nat): real
    requires j <= i
  {
    if i == 0 then g.spot
    else if j == 0 then NodePrice(g, i - 1, 0) * g.up
    else NodePrice(g, i - 1, j - 1) * g.down
  }

  /** The discounted expected value of the two successors of a node. */
  function Continuation(g: Tree, upValue: real, downValue: real): real
  {
    (g.prob * upValue + (1.0 - g.prob) * downValue) * g.disc
  }

  /** The value the backward induction assigns to node (i, j): the terminal payoff at
      expiry, and before it the larger of the discounted continuation and exercise. */
  function NodeValue(g: Tree, i: nat, j: nat): (v: real)
    requires j <= i <= g.steps
    ensures v >= 0.0
    ensures i < g.steps ==> v >= Exercise(g.kind, NodePrice(g, i, j), g.strike)
    decreases g.steps - i
  {
    if i == g.steps then Terminal(g.kind, NodePrice(g, i, j), g.strike)
    else
      Max(Continuation(g, NodeValue(g, i + 1, j), NodeValue(g, i + 1, j + 1)),
          Exercise(g.kind, NodePrice(g, i, j), g.strike))
  }

  /** Reference valuation of the same lattice without early exercise (a European
      option). pricing_models.py has no such mode; it is here to compare against. */
  function EuropeanValue(g: Tree, i: nat, j: nat): real
    requires j <= i <= g.steps
    decreases g.steps - i
  {
    if i == g.steps then Terminal(g.kind, NodePrice(g, i, j), g.strike)
    else Continuation(g, EuropeanValue(g, i + 1, j), EuropeanValue(g, i + 1, j + 1))
  }

  /** The recurrence has the closed form S * u^(i-j) * d^j. */
  lemma {:induction false} NodePriceClosedForm(g: Tree, i: nat, j: nat)
    requires j <= i
    ensures NodePrice(g, i, j) == g.spot * Pow(g.up, i - j) * Pow(g.down, j)
  {
    if i > 0 && j == 0 {
      NodePriceClosedForm(g, i - 1, 0);
      assert Pow(g.up, i) == g.up * Pow(g.up, i - 1);
    } else if i > 0 {
      NodePriceClosedForm(g, i - 1, j - 1);
      var a, b := Pow(g.up, i - j), Pow(g.down, j - 1);
      assert Pow(g.down, j) == g.down * b;
      calc {
        NodePrice(g, i, j);
        (g.spot * a * b) * g.down;
        g.spot * a * (g.down * b);
      }
    }
  }

  lemma AddMonotone(x: real, y: real, x2: real, y2: real)
    requires x <= x2 && y <= y2
    ensures x + y <= x2 + y2
  {
  }

  lemma ScaleMonotone(x: real, a: real, b: real)
    requires x >= 0.0 && a <= b
    ensures x * a <= x * b
  {
    assert x * b - x * a == x * (b - a);
  }

  /** With p a probability and a non-negative discount factor, the continuation
      value is monotone in both successor values. */
  lemma ContinuationMonotone(g: Tree, a: real, b: real, a2: real, b2: real)
    requires 0.0 <= g.prob <= 1.0 && g.disc >= 0.0 && a <= a2 && b <= b2
    ensures Continuation(g, a, b) <= Continuation(g, a2, b2)
  {
    var q := 1.0 - g.prob;
    ScaleMonotone(g.prob, a, a2);
    assert g.prob * a <= g.prob * a2;
    ScaleMonotone(q, b, b2);
    assert q * b <= q * b2;
    var c, c2 := g.prob * a + q * b, g.prob * a2 + q * b2;
    AddMonotone(g.prob * a, q * b, g.prob * a2, q * b2);
    ScaleMonotone(g.disc, c, c2);
    assert Continuation(g, a, b) == c * g.disc == g.disc * c;
    assert Continuation(g, a2, b2) == c2 * g.disc == g.disc * c2;
  }

  /** Discounting with a factor of at most one cannot lift the continuation value
      above a non-negative bound on both successors. */
  lemma ContinuationBounded(g: Tree, a: real, b: real, bound: real)
    requires 0.0 <= g.prob <= 1.0 && 0.0 <= g.disc <= 1.0 && a <= bound && b <= bound && bound >= 0.0
    ensures Continuation(g, a, b) <= bound
  {
    ContinuationMonotone(g, a, b, bound, bound);
    assert g.prob * bound + (1.0 - g.prob) * bound == bound;
    ScaleMonotone(bound, g.disc, 1.0);
    assert Continuation(g, bound, bound) == bound * g.disc <= bound;
  }

  lemma {:induction false} NodePricePositive(g: Tree, i: nat, j: nat)
    requires j <= i && g.spot > 0.0 && g.up > 0.0 && g.down > 0.0
    ensures NodePrice(g, i, j) > 0.0
  {
    if i > 0 && j == 0 {
      NodePricePositive(g, i - 1, 0);
    } else if i > 0 {
      NodePricePositive(g, i - 1, j - 1);
    }
  }

  /** The lattice fixes the root: its price is the spot, so with at least one step the
      option is worth at least its intrinsic value today. */
  lemma RootDominatesIntrinsic(g: Tree)
    requires g.steps >= 1
    ensures NodePrice(g, 0, 0) == g.spot
    ensures NodeValue(g, 0, 0) >= Exercise(g.kind, g.spot, g.strike)
  {
  }

  /** Early exercise never lowers the value: every node of the American lattice is
      worth at least the same node valued as a European option. */
  lemma {:induction false} EarlyExercisePremium(g: Tree, i: nat, j: nat)
    requires j <= i <= g.steps
    requires 0.0 <= g.prob <= 1.0 && g.disc >= 0.0
    ensures NodeValue(g, i, j) >= EuropeanValue(g, i, j)
    decreases g.steps - i
  {
    if i < g.steps {
      EarlyExercisePremium(g, i + 1, j);
      EarlyExercisePremium(g, i + 1, j + 1);
      ContinuationMonotone(g, EuropeanValue(g, i + 1, j), EuropeanValue(g, i + 1, j + 1),
                           NodeValue(g, i + 1, j), NodeValue(g, i + 1, j + 1));
    }
  }

  /** An American put on a positive asset is never worth more than its strike when
      the discount factor is at most one and p is a probability. */
  lemma {:induction false} PutBoundedByStrike(g: Tree, i: nat, j: nat)
    requires j <= i <= g.steps
    requires g.kind == Put && g.spot > 0.0 && g.strike > 0.0 && g.up > 0.0 && g.down > 0.0
    requires 0.0 <= g.prob <= 1.0 && 0.0 <= g.disc <= 1.0
    ensures NodeValue(g, i, j) <= g.strike
    decreases g.steps - i
  {
    NodePricePositive(g, i, j);
    var price := NodePrice(g, i, j);
    assert Exercise(Put, price, g.strike) <= g.strike;
    if i < g.steps {
      PutBoundedByStrike(g, i + 1, j);
      PutBoundedByStrike(g, i + 1, j + 1);
      ContinuationBounded(g, NodeValue(g, i + 1, j), NodeValue(g, i + 1, j + 1), g.strike);
    }
  }

  /** The forward pass (lines 39-45): a zeroed grid whose lower triangle holds the
      node prices, filled row by row from the row above. */
  method BuildAssetPrices(g: Tree) returns (prices: array2<real>)
    ensures fresh(prices)
    ensures prices.Length0 == g.steps + 1 && prices.Length1 == g.steps + 1
    ensures forall i, j :: 0 <= j <= i <= g.steps ==> prices[i, j] == NodePrice(g, i, j)
    ensures forall i, j :: 0 <= i < j <= g.steps ==> prices[i, j] == 0.0
  {
    var n := g.steps;
    prices := new real[n + 1, n + 1]((_, _) => 0.0);
    prices[0, 0] := g.spot;
    for i := 1 to n + 1
      invariant PricesBelow(g, prices, i)
      invariant ZeroOutside(g, prices, i)
    {
      FillPriceRow(g, prices, i);
    }
  }

  /** Rows 0 .. i-1 of the price grid hold the node prices on and below the diagonal. */
  ghost predicate PricesBelow(g: Tree, prices: array2<real>, i: nat)
    reads prices
    requires prices.Length0 == g.steps + 1 && prices.Length1 == g.steps + 1
  {
    forall k, c :: 0 <= c <= k < i && k <= g.steps ==> prices[k, c] == NodePrice(g, k, c)
  }

  /** Rows from i on, and every cell above the diagonal, are still zero. */
  ghost predicate ZeroOutside(g: Tree, prices: array2<real>, i: nat)
    reads prices
    requires prices.Length0 == g.steps + 1 && prices.Length1 == g.steps + 1
  {
    forall k, c :: 0 <= k <= g.steps && 0 <= c <= g.steps && (i <= k || k < c) ==> prices[k, c] == 0.0
  }

  /** One pass of the outer loop (lines 41-45): row i from row i - 1. */
  method FillPriceRow(g: Tree, prices: array2<real>, i: nat)
    modifies prices
    requires prices.Length0 == g.steps + 1 && prices.Length1 == g.steps + 1
    requires 1 <= i <= g.steps
    requires PricesBelow(g, prices, i) && ZeroOutside(g, prices, i)
    ensures PricesBelow(g, prices, i + 1) && ZeroOutside(g, prices, i + 1)
  {
    var top := prices[i - 1, 0] * g.up;
    assert top == NodePrice(g, i, 0) by {
      assert prices[i - 1, 0] == NodePrice(g, i - 1, 0);
    }
    prices[i, 0] := top;
    for j := 1 to i + 1
      invariant PricesBelow(g, prices, i)
      invariant forall c :: 0 <= c < j ==> prices[i, c] == NodePrice(g, i, c)
      invariant forall c :: j <= c <= g.steps ==> prices[i, c] == 0.0
      invariant ZeroOutside(g, prices, i + 1)
    {
      var below := prices[i - 1, j - 1] * g.down;
      assert below == NodePrice(g, i, j) by {
        assert prices[i - 1, j - 1] == NodePrice(g, i - 1, j - 1);
      }
      prices[i, j] := below;
    }
  }

  /** The terminal row (lines 47-53): a zeroed grid whose last row holds the payoff
      at expiry; for an option type other than call or put the row stays zero. */
  method TerminalPayoffs(g: Tree, prices: array2<real>) returns (values: array2<real>)
    requires prices.Length0 == g.steps + 1 && prices.Length1 == g.steps + 1
    ensures fresh(values)
    ensures values.Length0 == g.steps + 1 && values.Length1 == g.steps + 1
    ensures forall j :: 0 <= j <= g.steps ==> values[g.steps, j] == Terminal(g.kind, prices[g.steps, j], g.strike)
    ensures forall i, j :: 0 <= i < g.steps && 0 <= j <= g.steps ==> values[i, j] == 0.0
  {
    var n := g.steps;
    values := new real[n + 1, n + 1]((_, _) => 0.0);
    for j := 0 to n + 1
      invariant forall c :: 0 <= c < j ==> values[n, c] == Terminal(g.kind, prices[n, c], g.strike)
      invariant forall c :: j <= c <= n ==> values[n, c] == 0.0
      invariant forall i, c :: 0 <= i < n && 0 <= c <= n ==> values[i, c] == 0.0
    {
      if g.kind == Call {
        values[n, j] := Max(0.0, prices[n, j] - g.strike);
      } else if g.kind == Put {
        values[n, j] := Max(0.0, g.strike - prices[n, j]);
      }
    }
  }

  /** Row k of the value grid holds the node values on and below the diagonal. */
  ghost predicate RowDone(g: Tree, values: array2<real>, k: nat)
    requires k <= g.steps && values.Length0 == g.steps + 1 && values.Length1 == g.steps + 1
    reads values
  {
    forall j :: 0 <= j <= k ==> values[k, j] == NodeValue(g, k, j)
  }

  /** One row of the backward induction (lines 56-59): each node j <= i of row i
      becomes the larger of the discounted continuation and the exercise value,
      read from the finished row i + 1. No other cell changes. */
  method InductRow(g: Tree, prices: array2<real>, values: array2<real>, i: nat)
    requires prices != values && i < g.steps
    requires prices.Length0 == g.steps + 1 && prices.Length1 == g.steps + 1
    requires values.Length0 == g.steps + 1 && values.Length1 == g.steps + 1
    requires forall j :: 0 <= j <= i ==> prices[i, j] == NodePrice(g, i, j)
    requires RowDone(g, values, i + 1)
    modifies values
    ensures RowDone(g, values, i)
    ensures forall k, c :: 0 <= k <= g.steps && 0 <= c <= g.steps && (k != i || i < c)
              ==> values[k, c] == old(values[k, c])
  {
    for j := 0 to i + 1
      invariant forall c :: 0 <= c < j ==> values[i, c] == NodeValue(g, i, c)
      invariant forall k, c :: 0 <= k <= g.steps && 0 <= c <= g.steps && (k != i || j <= c)
                  ==> values[k, c] == old(values[k, c])
    {
      var continuation := Continuation(g, values[i + 1, j], values[i + 1, j + 1]);
      var exercise := Exercise(g.kind, prices[i, j], g.strike);
      values[i, j] := Max(continuation, exercise);
    }
  }

  /** Backward induction with early exercise (lines 55-59): rows N-1 down to 0.
      Cells above the diagonal and the terminal row are not touched. */
  method BackwardInduction(g: Tree, prices: array2<real>, values: array2<real>)
    requires prices != values
    requires prices.Length0 == g.steps + 1 && prices.Length1 == g.steps + 1
    requires values.Length0 == g.steps + 1 && values.Length1 == g.steps + 1
    requires forall i, j :: 0 <= j <= i <= g.steps ==> prices[i, j] == NodePrice(g, i, j)
    requires forall j :: 0 <= j <= g.steps ==> values[g.steps, j] == NodeValue(g, g.steps, j)
    modifies values
    ensures forall i, j :: 0 <= j <= i <= g.steps ==> values[i, j] == NodeValue(g, i, j)
    ensures forall i, j :: 0 <= i <= g.steps && 0 <= j <= g.steps && (i < j || i == g.steps)
              ==> values[i, j] == old(values[i, j])
  {
    var n := g.steps;
    var i := n;
    while i > 0
      invariant 0 <= i <= n
      invariant forall k, c :: i <= k <= n && 0 <= c <= k ==> values[k, c] == NodeValue(g, k, c)
      invariant forall k, c :: 0 <= k <= n && 0 <= c <= n && (k < c || k < i || k == n)
                  ==> values[k, c] == old(values[k, c])
    {
      i := i - 1;
      InductRow(g, prices, values, i);
    }
  }

  /** binomial_tree_american_option, given u, p and the per-step discount factor.
      `up` is e^(sigma * sqrt(dt)) in the caller, hence positive. */
  method BinomialTreeAmericanOption(s: real, k: real, t: real, sigma: real, kind: OptionType,
                                    numSteps: int, up: real, prob: real, disc: real)
    returns (res: Result<real>)
    requires up > 0.0
    ensures res.Failure? <==> t <= 0.0 || sigma <= 0.0 || s <= 0.0 || k <= 0.0 || numSteps <= 0
    ensures res.Failure? ==> res.error == InvalidInput
    ensures res.Success? ==>
              res.value == NodeValue(Tree(s, k, up, 1.0 / up, prob, disc, kind, numSteps), 0, 0)
    ensures res.Success? ==> res.value >= Exercise(kind, s, k) && res.value >= 0.0
  {
    if t <= 0.0 || sigma <= 0.0 || s <= 0.0 || k <= 0.0 || numSteps <= 0 {
      return Failure(InvalidInput);
    }
    var g := Tree(s, k, up, 1.0 / up, prob, disc, kind, numSteps);
    var prices := BuildAssetPrices(g);
    var values := TerminalPayoffs(g, prices);
    BackwardInduction(g, prices, values);
    RootDominatesIntrinsic(g);
    return Success(values[0, 0]);
  }
}
