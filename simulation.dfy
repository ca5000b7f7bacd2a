/** The MACD crossover trading simulation.

    From bar 26 on, the simulation holds a flag `isOver` (MACD above SIGNAL).
    It sells when the flag holds and MACD drops below SIGNAL, and buys when
    the flag is clear and MACD rises above SIGNAL. Each trade records its bar
    and flips the flag. After the last bar the holding is valued at the last
    price, and profit is measured against the starting budget.

    `Step` and `Run` are the specification; `Simulate` is the bar-by-bar loop,
    proved equal to it. */
module Simulation {
  import opened Common
  import opened Rounding
  import opened Indicators
  import opened Orders

  datatype Side = Buy | Sell

  /** A trade event: the bar it happened on, its direction and the price. */
  datatype Trade = Trade(index: nat, side: Side, price: real)

  /** The three index-aligned inputs of `MACD_simulation`. */
  datatype Series = Series(prices: seq<real>, macd: seq<real>, signal: seq<real>)

  /** The simulation's mutable locals, with the trades recorded so far. */
  datatype State = State(isOver: bool, budget: real, actions: real, trades: seq<Trade>)

  /** What a run produces. `finalBudget` is the budget after the holding is
      valued at the last price; the summary prints it rounded to cents.
      `holding` is the number of actions still held (the valuation does not
      sell them). */
  datatype Report = Report(
    trades: seq<Trade>,
    finalBudget: real,
    holding: real,
    profit: real,
    profitPercent: real)

  /** The selling branch at bar i with price p. */
  function ApplySell(cfg: Config, st: State, i: nat, p: real): State {
    var m, d := cfg.sellingMultiplier, cfg.isDivisible;
    State(false, st.budget + SellProceeds(m, d, st.actions, p), st.actions - SoldQuantity(m, d, st.actions),
          st.trades + [Trade(i, Sell, p)])
  }

  /** The buying branch at bar i with price p; dividing by a zero price is
      ZeroDivisionError. */
  function ApplyBuy(cfg: Config, st: State, i: nat, p: real): Result<State> {
    if p == 0.0 then Err(DivisionByZero)
    else
      var m, d := cfg.buyingMultiplier, cfg.isDivisible;
      Ok(State(true, st.budget - BuyCost(m, d, st.budget, p), st.actions + BoughtQuantity(m, d, st.budget, p),
               st.trades + [Trade(i, Buy, p)]))
  }

  /** Bar i: read MACD and SIGNAL, then sell, buy or do nothing. */
  function Step(cfg: Config, data: Series, st: State, i: nat): Result<State> {
    var m :- At(data.macd, i);
    var s :- At(data.signal, i);
    if st.isOver && m < s then
      var p :- At(data.prices, i);
      Ok(ApplySell(cfg, st, i, p))
    else if !st.isOver && m > s then
      var p :- At(data.prices, i);
      ApplyBuy(cfg, st, i, p)
    else
      Ok(st)
  }

  /** Bars i .. rows-1, in order; the first error ends the run. */
  function Run(cfg: Config, data: Series, st: State, i: nat, rows: nat): Result<State>
    decreases rows - i
  {
    if rows <= i then Ok(st)
    else
      var next :- Step(cfg, data, st, i);
      Run(cfg, data, next, i + 1, rows)
  }

  /** The state before bar 26: the flag says whether MACD starts above SIGNAL. */
  function Initial(cfg: Config, data: Series): Result<State> {
    var m :- At(data.macd, WarmUp);
    var s :- At(data.signal, WarmUp);
    Ok(State(m > s, cfg.startingBudget, cfg.startingActions, []))
  }

  /** The whole of `MACD_simulation`. Reading bar 26 of a series that is too
      short is IndexError; a zero starting budget is ZeroDivisionError in the
      profit percentage. */
  function MacdSimulation(cfg: Config, data: Series, rows: nat): (r: Result<Report>)
    ensures |data.macd| <= WarmUp || |data.signal| <= WarmUp ==> r == Err(IndexOutOfRange)
    ensures cfg.startingBudget == 0.0 ==> r.Err?
  {
    var init :- Initial(cfg, data);
    var fin :- Run(cfg, data, init, WarmUp, rows);
    var last :- At(data.prices, rows as int - 1);
    Settle(cfg, fin, last)
  }

  /** The budget after the holding is valued at the last price (the actions
      are not sold). */
  function Valuation(fin: State, last: real): (v: real)
    ensures IsCents(fin.budget) ==> IsCents(v)
  {
    var value := RoundCents(Value(fin.actions, last));
    if IsCents(fin.budget) then CentsClosed(fin.budget, value); fin.budget + value
    else fin.budget + value
  }

  /** The profit against the starting budget, rounded to cents. */
  function Profit(cfg: Config, budget: real): real {
    RoundCents(budget - cfg.startingBudget)
  }

  /** The profit as a percentage of the starting budget, rounded to cents. */
  function ProfitPercent(cfg: Config, profit: real): real
    requires cfg.startingBudget != 0.0
  {
    RoundCents(profit / cfg.startingBudget * 100.0)
  }

  /** After the last bar: value the holding at the last price, then report
      profit against the starting budget and as a percentage of it. */
  function Settle(cfg: Config, fin: State, last: real): Result<Report> {
    if cfg.startingBudget == 0.0 then Err(DivisionByZero)
    else
      var budget := Valuation(fin, last);
      var profit := Profit(cfg, budget);
      Ok(Report(fin.trades, budget, fin.actions, profit, ProfitPercent(cfg, profit)))
  }

  /** `MACD_simulation`: updates budget, actions and the flag bar by bar. */
  method Simulate(cfg: Config, data: Series, rows: nat) returns (r: Result<Report>)
    ensures r == MacdSimulation(cfg, data, rows)
  {
    var budget := cfg.startingBudget;
    var actions := cfg.startingActions;
    var trades: seq<Trade> := [];
    var isOver := false;
    var m0 :- At(data.macd, WarmUp);
    var s0 :- At(data.signal, WarmUp);
    if m0 > s0 {
      isOver := true;
    }
    ghost var init := State(isOver, budget, actions, trades);
    assert Initial(cfg, data) == Ok(init);
    var i := WarmUp;
    while i < rows
      invariant WarmUp <= i
      invariant Run(cfg, data, init, WarmUp, rows) == Run(cfg, data, State(isOver, budget, actions, trades), i, rows)
      decreases rows - i
    {
      ghost var cur := State(isOver, budget, actions, trades);
      StepOutcomes(cfg, data, cur, i);
      RunFirstStep(cfg, data, cur, i, rows);
      SimulationViaRun(cfg, data, rows);
      var m :- At(data.macd, i);
      var s :- At(data.signal, i);
      if isOver && m < s {
        var p :- At(data.prices, i);
        budget := budget + SellProceeds(cfg.sellingMultiplier, cfg.isDivisible, actions, p);
        actions := actions - SoldQuantity(cfg.sellingMultiplier, cfg.isDivisible, actions);
        isOver := false;
        trades := trades + [Trade(i, Sell, p)];
        assert State(isOver, budget, actions, trades) == ApplySell(cfg, cur, i, p);
      } else if !isOver && m > s {
        var p :- At(data.prices, i);
        if p == 0.0 {
          return Err(DivisionByZero);
        }
        var cost := BuyCost(cfg.buyingMultiplier, cfg.isDivisible, budget, p);
        actions := actions + BoughtQuantity(cfg.buyingMultiplier, cfg.isDivisible, budget, p);
        budget := budget - cost;
        isOver := true;
        trades := trades + [Trade(i, Buy, p)];
        assert Ok(State(isOver, budget, actions, trades)) == ApplyBuy(cfg, cur, i, p);
      }
      i := i + 1;
    }
    var fin := State(isOver, budget, actions, trades);
    assert Run(cfg, data, fin, i, rows) == Ok(fin);
    SimulationViaRun(cfg, data, rows);
    var last :- At(data.prices, rows as int - 1);
    r := Settle(cfg, fin, last);
  }

  /** The report `Settle` produces, field by field. */
  lemma SettleFields(cfg: Config, fin: State, last: real)
    requires cfg.startingBudget != 0.0
    ensures Settle(cfg, fin, last).Ok?
    ensures var rep := Settle(cfg, fin, last).value;
      rep.trades == fin.trades && rep.holding == fin.actions &&
      rep.finalBudget == Valuation(fin, last) &&
      rep.profit == Profit(cfg, rep.finalBudget) &&
      rep.profitPercent == ProfitPercent(cfg, rep.profit)
  {
  }

  /** How bar i ends, case by case (used to follow the loop of `Simulate`). */
  lemma StepOutcomes(cfg: Config, data: Series, st: State, i: nat)
    ensures !(i < |data.macd| && i < |data.signal|) ==> Step(cfg, data, st, i) == Err(IndexOutOfRange)
    ensures i < |data.macd| && i < |data.signal| && !Crosses(data, st.isOver, i) ==> Step(cfg, data, st, i) == Ok(st)
    ensures i < |data.macd| && i < |data.signal| && Crosses(data, st.isOver, i) && |data.prices| <= i ==>
      Step(cfg, data, st, i) == Err(IndexOutOfRange)
    ensures i < |data.macd| && i < |data.signal| && Crosses(data, st.isOver, i) && i < |data.prices| ==>
      Step(cfg, data, st, i) == if st.isOver then Ok(ApplySell(cfg, st, i, data.prices[i])) else ApplyBuy(cfg, st, i, data.prices[i])
  {
  }

  /** A run of at least one bar is its first step followed by the rest. */
  lemma RunFirstStep(cfg: Config, data: Series, st: State, i: nat, rows: nat)
    ensures i < rows && Step(cfg, data, st, i).Err? ==> Run(cfg, data, st, i, rows) == Err(Step(cfg, data, st, i).error)
    ensures i < rows && Step(cfg, data, st, i).Ok? ==> Run(cfg, data, st, i, rows) == Run(cfg, data, Step(cfg, data, st, i).value, i + 1, rows)
  {
  }

  /** The simulation in terms of the outcome of its run. */
  lemma SimulationViaRun(cfg: Config, data: Series, rows: nat)
    ensures Initial(cfg, data).Ok? && Run(cfg, data, Initial(cfg, data).value, WarmUp, rows).Err? ==>
      MacdSimulation(cfg, data, rows) == Err(Run(cfg, data, Initial(cfg, data).value, WarmUp, rows).error)
    ensures Initial(cfg, data).Ok? && Run(cfg, data, Initial(cfg, data).value, WarmUp, rows).Ok? ==>
      MacdSimulation(cfg, data, rows) ==
        var fin := Run(cfg, data, Initial(cfg, data).value, WarmUp, rows).value;
        if InBounds(|data.prices|, rows as int - 1) then Settle(cfg, fin, Get(data.prices, rows as int - 1))
        else Err(IndexOutOfRange)
  {
  }

  // ---------------------------------------------------------------------
  // One bar

  /** Bar i is a crossing for the current flag: MACD strictly below SIGNAL
      while above, or strictly above while below. */
  predicate Crosses(data: Series, isOver: bool, i: nat)
    requires i < |data.macd| && i < |data.signal|
  {
    (isOver && data.macd[i] < data.signal[i]) || (!isOver && data.macd[i] > data.signal[i])
  }

  /** A bar trades exactly when it is a crossing. A trade records the bar, the
      side the flag calls for and the bar's price, and flips the flag; a bar
      that is not a crossing changes nothing at all. */
  lemma StepTradesExactlyOnCross(cfg: Config, data: Series, st: State, i: nat)
    requires Step(cfg, data, st, i).Ok?
    ensures i < |data.macd| && i < |data.signal|
    ensures Crosses(data, st.isOver, i) <==> |Step(cfg, data, st, i).value.trades| == |st.trades| + 1
    ensures !Crosses(data, st.isOver, i) ==> Step(cfg, data, st, i).value == st
    ensures Crosses(data, st.isOver, i) ==>
      i < |data.prices| &&
      Step(cfg, data, st, i).value.isOver == !st.isOver &&
      Step(cfg, data, st, i).value.trades == st.trades + [Trade(i, if st.isOver then Sell else Buy, data.prices[i])]
    ensures Crosses(data, st.isOver, i) && st.isOver ==>
      Step(cfg, data, st, i).value == ApplySell(cfg, st, i, data.prices[i])
    ensures Crosses(data, st.isOver, i) && !st.isOver ==>
      Step(cfg, data, st, i) == ApplyBuy(cfg, st, i, data.prices[i])
  {
  }

  /** On bar 26 the flag was just set from that very bar, so it never trades. */
  lemma FirstBarQuiet(cfg: Config, data: Series)
    requires Initial(cfg, data).Ok?
    ensures Step(cfg, data, Initial(cfg, data).value, WarmUp) == Initial(cfg, data)
  {
    var init := Initial(cfg, data).value;
    assert !Crosses(data, init.isOver, WarmUp);
  }

  /** Bars on which MACD equals SIGNAL change nothing. */
  lemma {:induction false} QuietRunChangesNothing(cfg: Config, data: Series, st: State, i: nat, rows: nat)
    requires i < rows ==> rows <= |data.macd| && rows <= |data.signal|
    requires forall j :: i <= j < rows ==> data.macd[j] == data.signal[j]
    ensures Run(cfg, data, st, i, rows) == Ok(st)
    decreases rows - i
  {
    if i < rows {
      StepOutcomes(cfg, data, st, i);
      QuietRunChangesNothing(cfg, data, st, i + 1, rows);
    }
  }

  // ---------------------------------------------------------------------
  // The trade log

  /** The side of the first trade: a sell if MACD started above SIGNAL. */
  function FirstSide(isOver0: bool): Side {
    if isOver0 then Sell else Buy
  }

  /** Trade t was triggered by its bar: it carries that bar's price, and a sell
      had MACD strictly below SIGNAL, a buy strictly above. */
  predicate Justified(data: Series, t: Trade) {
    t.index < |data.prices| && t.index < |data.macd| && t.index < |data.signal| &&
    t.price == data.prices[t.index] &&
    (t.side == Sell ==> data.macd[t.index] < data.signal[t.index]) &&
    (t.side == Buy ==> data.macd[t.index] > data.signal[t.index])
  }

  /** A log of trades on bars lo .. hi-1, each justified by its bar, in
      strictly increasing bar order, alternating sides and starting with the
      side `FirstSide(isOver0)`. */
  predicate TradeLog(data: Series, isOver0: bool, t: seq<Trade>, lo: nat, hi: nat) {
    (forall k :: 0 <= k < |t| ==> lo <= t[k].index < hi && Justified(data, t[k])) &&
    (forall k :: 0 <= k < |t| - 1 ==> t[k].index < t[k + 1].index && t[k].side != t[k + 1].side) &&
    (|t| > 0 ==> t[0].side == FirstSide(isOver0))
  }

  /** The flag after a bar is the side of the last trade (set by a buy), or
      the initial flag if nothing has traded yet. */
  predicate FlagFollowsLog(isOver0: bool, st: State) {
    st.isOver == (if |st.trades| == 0 then isOver0 else st.trades[|st.trades| - 1].side == Buy)
  }

  predicate Consistent(data: Series, isOver0: bool, st: State, lo: nat, hi: nat) {
    TradeLog(data, isOver0, st.trades, lo, hi) && FlagFollowsLog(isOver0, st)
  }

  /** One bar keeps the log well formed and the flag in step with it. */
  lemma StepConsistent(cfg: Config, data: Series, isOver0: bool, st: State, lo: nat, i: nat)
    requires lo <= i && Consistent(data, isOver0, st, lo, i)
    requires Step(cfg, data, st, i).Ok?
    ensures Consistent(data, isOver0, Step(cfg, data, st, i).value, lo, i + 1)
  {
    StepTradesExactlyOnCross(cfg, data, st, i);
    var st' := Step(cfg, data, st, i).value;
    if Crosses(data, st.isOver, i) {
      var t := st'.trades;
      assert t[|t| - 1] == Trade(i, FirstSide(st.isOver), data.prices[i]);
      assert forall k :: 0 <= k < |st.trades| ==> t[k] == st.trades[k];
    }
  }

  /** Bars i .. rows-1 keep the log well formed and the flag in step with it. */
  lemma {:induction false} RunConsistent(cfg: Config, data: Series, isOver0: bool, st: State, lo: nat, i: nat, rows: nat)
    requires lo <= i <= rows && Consistent(data, isOver0, st, lo, i)
    requires Run(cfg, data, st, i, rows).Ok?
    ensures Consistent(data, isOver0, Run(cfg, data, st, i, rows).value, lo, rows)
    decreases rows - i
  {
    if i < rows {
      StepConsistent(cfg, data, isOver0, st, lo, i);
      RunConsistent(cfg, data, isOver0, Step(cfg, data, st, i).value, lo, i + 1, rows);
    }
  }

  /** The trades of a successful run: each lies on a bar after 26 and before
      `rows`, was triggered by a strict crossing on its bar, comes after the
      previous one and has the other side; the first is a sell exactly when
      MACD started above SIGNAL on bar 26. */
  lemma TradesAlternate(cfg: Config, data: Series, rows: nat)
    requires MacdSimulation(cfg, data, rows).Ok?
    ensures WarmUp < |data.macd| && WarmUp < |data.signal|
    ensures TradeLog(data, data.macd[WarmUp] > data.signal[WarmUp], MacdSimulation(cfg, data, rows).value.trades, WarmUp + 1, rows)
  {
    var init := Initial(cfg, data).value;
    if WarmUp < rows {
      FirstBarQuiet(cfg, data);
      assert Run(cfg, data, init, WarmUp, rows) == Run(cfg, data, init, WarmUp + 1, rows);
      RunConsistent(cfg, data, init.isOver, init, WarmUp + 1, WarmUp + 1, rows);
    }
  }

  /** Bars on which MACD equals SIGNAL never trade. */
  lemma TiesNeverTrade(cfg: Config, data: Series, rows: nat)
    requires MacdSimulation(cfg, data, rows).Ok?
    requires forall j :: WarmUp < j < rows && j < |data.macd| && j < |data.signal| ==> data.macd[j] == data.signal[j]
    ensures MacdSimulation(cfg, data, rows).value.trades == []
  {
    TradesAlternate(cfg, data, rows);
  }

  // ---------------------------------------------------------------------
  // Units

  // Two independent invariants: every cash movement is rounded to cents, so
  // a budget in cents stays in cents; in indivisible mode every quantity is
  // rounded to a whole number, so a whole holding stays whole, whatever the
  // budget.

  /** The budget is a whole number of cents. */
  predicate InCents(st: State) {
    IsCents(st.budget)
  }

  /** In indivisible mode the holding is a whole number of actions. */
  predicate WholeHolding(cfg: Config, st: State) {
    !cfg.isDivisible ==> IsInt(st.actions)
  }

  lemma SellKeepsCents(cfg: Config, st: State, i: nat, p: real)
    requires InCents(st)
    ensures InCents(ApplySell(cfg, st, i, p))
  {
    SellShape(cfg, st, i, p);
    CentsClosed(st.budget, SellProceeds(cfg.sellingMultiplier, cfg.isDivisible, st.actions, p));
  }

  lemma BuyKeepsCents(cfg: Config, st: State, i: nat, p: real)
    requires InCents(st) && p != 0.0
    ensures ApplyBuy(cfg, st, i, p).Ok? && InCents(ApplyBuy(cfg, st, i, p).value)
  {
    BuyShape(cfg, st, i, p);
    CentsClosed(st.budget, BuyCost(cfg.buyingMultiplier, cfg.isDivisible, st.budget, p));
  }

  lemma SellKeepsWhole(cfg: Config, st: State, i: nat, p: real)
    requires WholeHolding(cfg, st)
    ensures WholeHolding(cfg, ApplySell(cfg, st, i, p))
  {
    SellShape(cfg, st, i, p);
    var m, d := cfg.sellingMultiplier, cfg.isDivisible;
    if !d {
      SoldNear(m, d, st.actions);
      IntClosed(st.actions, SoldQuantity(m, d, st.actions));
    }
  }

  lemma BuyKeepsWhole(cfg: Config, st: State, i: nat, p: real)
    requires WholeHolding(cfg, st) && p != 0.0
    ensures ApplyBuy(cfg, st, i, p).Ok? && WholeHolding(cfg, ApplyBuy(cfg, st, i, p).value)
  {
    BuyShape(cfg, st, i, p);
    var m, d := cfg.buyingMultiplier, cfg.isDivisible;
    if !d {
      BoughtNear(m, d, st.budget, p);
      IntClosed(st.actions, BoughtQuantity(m, d, st.budget, p));
    }
  }

  lemma StepKeepsCents(cfg: Config, data: Series, st: State, i: nat)
    requires InCents(st) && Step(cfg, data, st, i).Ok?
    ensures InCents(Step(cfg, data, st, i).value)
  {
    StepTradesExactlyOnCross(cfg, data, st, i);
    if Crosses(data, st.isOver, i) {
      if st.isOver {
        SellKeepsCents(cfg, st, i, data.prices[i]);
      } else {
        BuyKeepsCents(cfg, st, i, data.prices[i]);
      }
    }
  }

  lemma StepKeepsWhole(cfg: Config, data: Series, st: State, i: nat)
    requires WholeHolding(cfg, st) && Step(cfg, data, st, i).Ok?
    ensures WholeHolding(cfg, Step(cfg, data, st, i).value)
  {
    StepTradesExactlyOnCross(cfg, data, st, i);
    if Crosses(data, st.isOver, i) {
      if st.isOver {
        SellKeepsWhole(cfg, st, i, data.prices[i]);
      } else {
        BuyKeepsWhole(cfg, st, i, data.prices[i]);
      }
    }
  }

  lemma {:induction false} RunKeepsCents(cfg: Config, data: Series, st: State, i: nat, rows: nat)
    requires InCents(st) && Run(cfg, data, st, i, rows).Ok?
    ensures InCents(Run(cfg, data, st, i, rows).value)
    decreases rows - i
  {
    if i < rows {
      StepKeepsCents(cfg, data, st, i);
      RunKeepsCents(cfg, data, Step(cfg, data, st, i).value, i + 1, rows);
    }
  }

  lemma {:induction false} RunKeepsWhole(cfg: Config, data: Series, st: State, i: nat, rows: nat)
    requires WholeHolding(cfg, st) && Run(cfg, data, st, i, rows).Ok?
    ensures WholeHolding(cfg, Run(cfg, data, st, i, rows).value)
    decreases rows - i
  {
    if i < rows {
      StepKeepsWhole(cfg, data, st, i);
      RunKeepsWhole(cfg, data, Step(cfg, data, st, i).value, i + 1, rows);
    }
  }

  /** From a starting budget in cents the final budget is in cents, so the
      printed `round(budget, 2)` is the budget itself. */
  lemma SimulationKeepsCents(cfg: Config, data: Series, rows: nat)
    requires IsCents(cfg.startingBudget)
    requires MacdSimulation(cfg, data, rows).Ok?
    ensures IsCents(MacdSimulation(cfg, data, rows).value.finalBudget)
    ensures RoundCents(MacdSimulation(cfg, data, rows).value.finalBudget) == MacdSimulation(cfg, data, rows).value.finalBudget
  {
    var init := Initial(cfg, data).value;
    assert init.budget == cfg.startingBudget;
    SimulationViaRun(cfg, data, rows);
    RunKeepsCents(cfg, data, init, WarmUp, rows);
    var fin := Run(cfg, data, init, WarmUp, rows).value;
    var last := Get(data.prices, rows as int - 1);
    SettleFields(cfg, fin, last);
    RoundCentsOfCents(Valuation(fin, last));
  }

  /** In indivisible mode, from a whole starting holding, the final holding
      is whole, whatever the budget. */
  lemma SimulationKeepsWhole(cfg: Config, data: Series, rows: nat)
    requires !cfg.isDivisible && IsInt(cfg.startingActions)
    requires MacdSimulation(cfg, data, rows).Ok?
    ensures IsInt(MacdSimulation(cfg, data, rows).value.holding)
  {
    var init := Initial(cfg, data).value;
    assert init.actions == cfg.startingActions;
    SimulationViaRun(cfg, data, rows);
    RunKeepsWhole(cfg, data, init, WarmUp, rows);
    var fin := Run(cfg, data, init, WarmUp, rows).value;
    SettleFields(cfg, fin, Get(data.prices, rows as int - 1));
  }

  // ---------------------------------------------------------------------
  // Order sizing

  /** The state a sell produces, field by field. */
  lemma SellShape(cfg: Config, st: State, i: nat, p: real)
    ensures ApplySell(cfg, st, i, p).budget ==
      st.budget + SellProceeds(cfg.sellingMultiplier, cfg.isDivisible, st.actions, p)
    ensures ApplySell(cfg, st, i, p).actions ==
      st.actions - SoldQuantity(cfg.sellingMultiplier, cfg.isDivisible, st.actions)
  {
  }

  /** The state a buy produces, field by field. */
  lemma BuyShape(cfg: Config, st: State, i: nat, p: real)
    requires p != 0.0
    ensures ApplyBuy(cfg, st, i, p).Ok?
    ensures ApplyBuy(cfg, st, i, p).value.budget ==
      st.budget - BuyCost(cfg.buyingMultiplier, cfg.isDivisible, st.budget, p)
    ensures ApplyBuy(cfg, st, i, p).value.actions ==
      st.actions + BoughtQuantity(cfg.buyingMultiplier, cfg.isDivisible, st.budget, p)
  {
  }

  /** Selling with multiplier 1 empties the holding: in divisible mode always,
      in indivisible mode when the holding is whole. */
  lemma SellAllEmptiesHolding(cfg: Config, st: State, i: nat, p: real)
    requires cfg.sellingMultiplier == 1.0 && (cfg.isDivisible || IsInt(st.actions))
    ensures ApplySell(cfg, st, i, p).actions == 0.0
  {
    SellShape(cfg, st, i, p);
    SellAllSoldQuantity(cfg.isDivisible, st.actions);
  }

  /** All in, all out, in divisible mode, from a budget in cents and no
      holding: buying at p1 and selling at p2 leaves no holding and the
      budget scaled by p2/p1, rounded to cents. */
  lemma AllInRoundTrip(cfg: Config, st: State, i: nat, p1: real, j: nat, p2: real)
    requires cfg.isDivisible && cfg.buyingMultiplier == 1.0 && cfg.sellingMultiplier == 1.0
    requires IsCents(st.budget) && st.actions == 0.0 && p1 != 0.0
    ensures ApplyBuy(cfg, st, i, p1).Ok?
    ensures ApplySell(cfg, ApplyBuy(cfg, st, i, p1).value, j, p2).budget == RoundCents(Value(st.budget / p1, p2))
    ensures ApplySell(cfg, ApplyBuy(cfg, st, i, p1).value, j, p2).actions == 0.0
  {
    BuyShape(cfg, st, i, p1);
    AllIn(st.budget, p1);
    var bought := ApplyBuy(cfg, st, i, p1).value;
    var q := st.budget / p1;
    assert bought.budget == 0.0 && bought.actions == q;
    SellShape(cfg, bought, j, p2);
    AllOut(q, p2);
  }

  /** In indivisible mode the bought quantity is rounded to the nearest whole
      action, not down, so a buy can spend more than the multiplier's share
      of the budget, and more than the whole budget: by at most half a price
      plus half a cent. */
  lemma IndivisibleBuyOverspendBounded(cfg: Config, st: State, i: nat, p: real)
    requires !cfg.isDivisible && 0.0 < p
    ensures ApplyBuy(cfg, st, i, p).Ok?
    ensures ApplyBuy(cfg, st, i, p).value.budget >=
      st.budget - cfg.buyingMultiplier * st.budget - p / 2.0 - 0.005
  {
    BuyShape(cfg, st, i, p);
    IndivisibleCostBounded(cfg.buyingMultiplier, st.budget, p);
  }

  /** The bound is reached: with the default multiplier, a budget of 11 and a
      price of 4, round(2.75) = 3 actions are bought for 12, leaving a
      budget of -1. */
  lemma IndivisibleBuyCanOverspend()
    ensures ApplyBuy(DefaultConfig(11.0, 0.0), State(false, 11.0, 0.0, []), WarmUp, 4.0).Ok?
    ensures ApplyBuy(DefaultConfig(11.0, 0.0), State(false, 11.0, 0.0, []), WarmUp, 4.0).value.budget == -1.0
    ensures ApplyBuy(DefaultConfig(11.0, 0.0), State(false, 11.0, 0.0, []), WarmUp, 4.0).value.actions == 3.0
  {
    BuyShape(DefaultConfig(11.0, 0.0), State(false, 11.0, 0.0, []), WarmUp, 4.0);
    OverspendExample();
  }

  // ---------------------------------------------------------------------
  // Success

  /** Every bar's reads are in range and no buying price is zero: the run
      cannot fail. */
  lemma {:induction false} RunSucceeds(cfg: Config, data: Series, st: State, i: nat, rows: nat)
    requires rows <= |data.prices| && rows <= |data.macd| && rows <= |data.signal|
    requires forall j :: i <= j < rows ==> data.prices[j] != 0.0
    ensures Run(cfg, data, st, i, rows).Ok?
    decreases rows - i
  {
    if i < rows {
      assert data.prices[i] != 0.0;
      assert Step(cfg, data, st, i).Ok?;
      RunSucceeds(cfg, data, Step(cfg, data, st, i).value, i + 1, rows);
    }
  }

  /** With more than 26 bars, every series long enough, no zero price after
      bar 25 and a non-zero starting budget, the simulation succeeds. */
  lemma SimulationSucceeds(cfg: Config, data: Series, rows: nat)
    requires WarmUp < rows && rows <= |data.prices| && rows <= |data.macd| && rows <= |data.signal|
    requires forall j :: WarmUp <= j < rows ==> data.prices[j] != 0.0
    requires cfg.startingBudget != 0.0
    ensures MacdSimulation(cfg, data, rows).Ok?
  {
    RunSucceeds(cfg, data, Initial(cfg, data).value, WarmUp, rows);
  }

  /** When every read succeeds, a zero starting budget fails with
      ZeroDivisionError in the profit percentage, and with no other error. */
  lemma ZeroBudgetDivides(cfg: Config, data: Series, rows: nat)
    requires WarmUp < rows && rows <= |data.prices| && rows <= |data.macd| && rows <= |data.signal|
    requires forall j :: WarmUp <= j < rows ==> data.prices[j] != 0.0
    requires cfg.startingBudget == 0.0
    ensures MacdSimulation(cfg, data, rows) == Err(DivisionByZero)
  {
    RunSucceeds(cfg, data, Initial(cfg, data).value, WarmUp, rows);
  }
}
