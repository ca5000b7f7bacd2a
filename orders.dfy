/** Order sizing in `MACD_simulation`: how many actions a sell or a buy
    moves and how much cash changes hands.

    A sell disposes of `selling_multiplier` times the holding and a buy
    spends `buying_multiplier` times the budget. In indivisible mode the
    number of actions is rounded to a whole number with Python's `round`
    (to the nearest, not down), and cash amounts are always rounded to cents. */
module Orders {
  import opened Rounding

  /** The parameters of `MACD_simulation`; the last three default to 1.0, 1.0
      and false. */
  datatype Config = Config(
    startingBudget: real,
    startingActions: real,
    buyingMultiplier: real,
    sellingMultiplier: real,
    isDivisible: bool)

  /** The default keyword arguments: spend and sell everything, whole units. */
  function DefaultConfig(startingBudget: real, startingActions: real): Config {
    Config(startingBudget, startingActions, 1.0, 1.0, false)
  }

  // Each sizing function takes the multiplier and the divisibility flag of
  // the configuration as plain arguments.

  /** The number of actions a sell disposes of: the multiplier's share of
      the holding, rounded to a whole number in indivisible mode. */
  function SoldQuantity(multiplier: real, divisible: bool, actions: real): real {
    if divisible then multiplier * actions
    else Round(multiplier * actions) as real
  }

  /** The worth of q actions at price p. */
  function Value(q: real, p: real): real {
    q * p
  }

  /** The cash a sell brings in: the value of the sold actions, rounded to
      cents. */
  function SellProceeds(multiplier: real, divisible: bool, actions: real, p: real): (c: real)
    ensures IsCents(c)
  {
    RoundCents(Value(SoldQuantity(multiplier, divisible, actions), p))
  }

  /** The number of actions a buy adds: the multiplier's share of the budget
      divided by the price, rounded to a whole number in indivisible mode. */
  function BoughtQuantity(multiplier: real, divisible: bool, budget: real, p: real): real
    requires p != 0.0
  {
    if divisible then multiplier * budget / p
    else Round(multiplier * budget / p) as real
  }

  /** The cash a buy takes out of the budget, rounded to cents: the
      multiplier's share of the budget in divisible mode, the price of the
      whole actions bought otherwise. */
  function BuyCost(multiplier: real, divisible: bool, budget: real, p: real): (c: real)
    requires p != 0.0
    ensures IsCents(c)
  {
    if divisible then RoundCents(multiplier * budget)
    else RoundCents(Value(BoughtQuantity(multiplier, divisible, budget, p), p))
  }

  /** The sold quantity is within half an action of the multiplier's share,
      and a whole number in indivisible mode. */
  lemma SoldNear(multiplier: real, divisible: bool, actions: real)
    ensures -0.5 <= SoldQuantity(multiplier, divisible, actions) - multiplier * actions <= 0.5
    ensures !divisible ==> IsInt(SoldQuantity(multiplier, divisible, actions))
  {
    if !divisible {
      WholeIsInt(Round(multiplier * actions));
    }
  }

  /** Selling everything of a holding that is whole (or divisible) empties it. */
  lemma {:induction false} SellAllSoldQuantity(divisible: bool, actions: real)
    requires divisible || IsInt(actions)
    ensures SoldQuantity(1.0, divisible, actions) == actions
  {
    if !divisible {
      assert 1.0 * actions == actions;
      RoundOfInt(actions);
    }
  }

  /** The bought quantity is within half an action of the multiplier's
      share of the budget divided by the price, and a whole number in
      indivisible mode. */
  lemma BoughtNear(multiplier: real, divisible: bool, budget: real, p: real)
    requires p != 0.0
    ensures -0.5 <= BoughtQuantity(multiplier, divisible, budget, p) - multiplier * budget / p <= 0.5
    ensures !divisible ==> IsInt(BoughtQuantity(multiplier, divisible, budget, p))
  {
    if !divisible {
      WholeIsInt(Round(multiplier * budget / p));
    }
  }

  /** The proceeds of a sell are within half a cent of the sold actions'
      value. */
  lemma ProceedsNear(multiplier: real, divisible: bool, actions: real, p: real)
    ensures -0.005 <= SellProceeds(multiplier, divisible, actions, p) - SoldQuantity(multiplier, divisible, actions) * p <= 0.005
  {
  }

  /** The cost of a buy is within half a cent of the multiplier's share of
      the budget in divisible mode, and of the bought actions' value
      otherwise. */
  lemma CostNear(multiplier: real, divisible: bool, budget: real, p: real)
    requires p != 0.0
    ensures divisible ==> -0.005 <= BuyCost(multiplier, divisible, budget, p) - multiplier * budget <= 0.005
    ensures !divisible ==> -0.005 <= BuyCost(multiplier, divisible, budget, p) - BoughtQuantity(multiplier, divisible, budget, p) * p <= 0.005
  {
  }

  /** Multiplying both sides of an inequality by a positive number. */
  lemma MulMonotone(a: real, b: real, p: real)
    requires a <= b && 0.0 < p
    ensures a * p <= b * p
  {
    assert 0.0 <= (b - a) * p;
  }

  /** Buying q ~ want/p units at price p, rounded to the nearest unit, and
      paying their price rounded to cents, costs at most half a price and
      half a cent more than `want`. */
  lemma OverspendArith(want: real, p: real, q: real, cost: real)
    requires 0.0 < p && q - want / p <= 0.5 && cost - q * p <= 0.005
    ensures cost <= want + p / 2.0 + 0.005
  {
    var x := want / p;
    assert x * p == want;
    MulMonotone(q, x + 0.5, p);
    assert (x + 0.5) * p == x * p + 0.5 * p;
  }

  /** In indivisible mode the quantity is rounded to the nearest whole
      action, not down, so a buy can cost more than the multiplier's share
      of the budget: by at most half a price plus half a cent. */
  lemma IndivisibleCostBounded(multiplier: real, budget: real, p: real)
    requires 0.0 < p
    ensures BuyCost(multiplier, false, budget, p) <= multiplier * budget + p / 2.0 + 0.005
  {
    BoughtNear(multiplier, false, budget, p);
    CostNear(multiplier, false, budget, p);
    OverspendArith(multiplier * budget, p, BoughtQuantity(multiplier, false, budget, p), BuyCost(multiplier, false, budget, p));
  }

  /** The bound is reached: with the default multiplier, a budget of 11 and a
      price of 4, round(2.75) = 3 actions are bought for 12. */
  lemma OverspendExample()
    ensures BoughtQuantity(1.0, false, 11.0, 4.0) == 3.0
    ensures BuyCost(1.0, false, 11.0, 4.0) == 12.0
  {
    assert 1.0 * 11.0 / 4.0 == 2.75;
    assert Round(2.75) == 3;
    assert BoughtQuantity(1.0, false, 11.0, 4.0) * 4.0 == 12.0;
    assert IsCents(12.0) by {
      WholeIsInt(1200);
    }
    RoundCentsOfCents(12.0);
  }

  /** In divisible mode with multiplier 1, a budget in cents buys
      budget/p actions for exactly the budget. */
  lemma AllIn(budget: real, p: real)
    requires IsCents(budget) && p != 0.0
    ensures BuyCost(1.0, true, budget, p) == budget
    ensures BoughtQuantity(1.0, true, budget, p) == budget / p
  {
    assert 1.0 * budget == budget;
    RoundCentsOfCents(budget);
  }

  /** In divisible mode with multiplier 1, a sell disposes of the whole
      holding and brings in its value rounded to cents. */
  lemma AllOut(actions: real, p: real)
    ensures SoldQuantity(1.0, true, actions) == actions
    ensures SellProceeds(1.0, true, actions, p) == RoundCents(Value(actions, p))
  {
    SellAllSoldQuantity(true, actions);
  }
}
