/** The three stages chained as the program wires them: MACD from the
    prices, SIGNAL from MACD, then the simulation over all three, with
    `rows` the number of bars. */
module Backtest {
  import opened Common
  import opened Rounding
  import opened Indicators
  import opened Orders
  import opened Simulation

  /** The three series over `rows` bars of `prices`. */
  function SeriesOf(prices: seq<real>, rows: nat): (data: Series)
    requires Buildable(|prices|, rows)
    ensures data.prices == prices && |data.macd| == rows && |data.signal| == rows
  {
    var macd := MacdSeries(prices, rows);
    Series(prices, macd, SignalSeries(macd, rows))
  }

  /** The report of a backtest over `rows` bars of `prices`, or the error it
      stops with. */
  function Pipeline(cfg: Config, prices: seq<real>, rows: nat): Result<Report> {
    if !Buildable(|prices|, rows) then Err(IndexOutOfRange)
    else MacdSimulation(cfg, SeriesOf(prices, rows), rows)
  }

  /** With 26 bars or fewer, bar 26 of MACD does not exist: IndexError. */
  lemma TooFewBarsFails(cfg: Config, prices: seq<real>, rows: nat)
    requires rows <= WarmUp
    ensures Pipeline(cfg, prices, rows) == Err(IndexOutOfRange)
  {
  }

  /** Over all the bars of more than 26 non-zero prices, from a non-zero
      budget, the backtest completes. */
  lemma PipelineSucceeds(cfg: Config, prices: seq<real>)
    requires WarmUp < |prices|
    requires forall j :: WarmUp <= j < |prices| ==> prices[j] != 0.0
    requires cfg.startingBudget != 0.0
    ensures Pipeline(cfg, prices, |prices|).Ok?
  {
    var data := SeriesOf(prices, |prices|);
    SimulationSucceeds(cfg, data, |prices|);
  }

  /** On flat prices both indicators are zero everywhere. */
  lemma FlatIndicators(prices: seq<real>, c: real)
    requires forall j :: 0 <= j < |prices| ==> prices[j] == c
    ensures forall j :: 0 <= j < |prices| ==> SeriesOf(prices, |prices|).macd[j] == 0.0
    ensures forall j :: 0 <= j < |prices| ==> SeriesOf(prices, |prices|).signal[j] == 0.0
  {
    var rows := |prices|;
    MacdOfFlatPrices(prices, rows, c);
    SignalOfZeroMacd(MacdSeries(prices, rows), rows);
  }

  /** The run over bars whose MACD equals SIGNAL: nothing trades, so the run
      ends in the initial state. */
  lemma FlatRunIsInitial(cfg: Config, prices: seq<real>, c: real)
    requires WarmUp < |prices|
    requires forall j :: 0 <= j < |prices| ==> prices[j] == c
    ensures Initial(cfg, SeriesOf(prices, |prices|)) == Ok(State(false, cfg.startingBudget, cfg.startingActions, []))
    ensures Run(cfg, SeriesOf(prices, |prices|), State(false, cfg.startingBudget, cfg.startingActions, []), WarmUp, |prices|)
      == Ok(State(false, cfg.startingBudget, cfg.startingActions, []))
  {
    var data := SeriesOf(prices, |prices|);
    FlatIndicators(prices, c);
    QuietRunChangesNothing(cfg, data, State(false, cfg.startingBudget, cfg.startingActions, []), WarmUp, |prices|);
  }

  /** A flat market never trades: the report lists no trades, keeps the
      starting holding and values it at the flat price. */
  lemma FlatMarketNeverTrades(cfg: Config, prices: seq<real>, c: real)
    requires WarmUp < |prices|
    requires forall j :: 0 <= j < |prices| ==> prices[j] == c
    requires cfg.startingBudget != 0.0
    ensures Pipeline(cfg, prices, |prices|).Ok?
    ensures Pipeline(cfg, prices, |prices|).value.trades == []
    ensures Pipeline(cfg, prices, |prices|).value.holding == cfg.startingActions
    ensures Pipeline(cfg, prices, |prices|).value.finalBudget ==
      cfg.startingBudget + RoundCents(Value(cfg.startingActions, c))
  {
    var data := SeriesOf(prices, |prices|);
    var init := State(false, cfg.startingBudget, cfg.startingActions, []);
    FlatRunIsInitial(cfg, prices, c);
    SimulationViaRun(cfg, data, |prices|);
    assert Get(data.prices, |prices| - 1) == c;
    SettleFields(cfg, init, c);
  }

  /** ... and from no holding it makes no profit. */
  lemma FlatMarketNoProfit(cfg: Config, prices: seq<real>, c: real)
    requires WarmUp < |prices|
    requires forall j :: 0 <= j < |prices| ==> prices[j] == c
    requires cfg.startingBudget != 0.0 && cfg.startingActions == 0.0
    ensures Pipeline(cfg, prices, |prices|).Ok?
    ensures Pipeline(cfg, prices, |prices|).value.finalBudget == cfg.startingBudget
    ensures Pipeline(cfg, prices, |prices|).value.profit == 0.0
    ensures Pipeline(cfg, prices, |prices|).value.profitPercent == 0.0
  {
    FlatMarketNeverTrades(cfg, prices, c);
    var data := SeriesOf(prices, |prices|);
    var init := State(false, cfg.startingBudget, cfg.startingActions, []);
    FlatRunIsInitial(cfg, prices, c);
    SimulationViaRun(cfg, data, |prices|);
    assert Get(data.prices, |prices| - 1) == c;
    SettleFields(cfg, init, c);
    assert Value(0.0, c) == 0.0;
    assert IsCents(0.0) by { WholeIsInt(0); }
    RoundCentsOfCents(0.0);
    assert 0.0 / cfg.startingBudget * 100.0 == 0.0;
  }

  /** The profit is measured against the starting budget alone, so a
      starting holding counts as profit: on a flat market the whole value of
      the starting holding is reported as profit. */
  lemma FlatMarketProfitIsHolding(cfg: Config, prices: seq<real>, c: real)
    requires WarmUp < |prices|
    requires forall j :: 0 <= j < |prices| ==> prices[j] == c
    requires cfg.startingBudget != 0.0
    ensures Pipeline(cfg, prices, |prices|).Ok?
    ensures Pipeline(cfg, prices, |prices|).value.profit == RoundCents(Value(cfg.startingActions, c))
  {
    FlatMarketNeverTrades(cfg, prices, c);
    var data := SeriesOf(prices, |prices|);
    var init := State(false, cfg.startingBudget, cfg.startingActions, []);
    FlatRunIsInitial(cfg, prices, c);
    SimulationViaRun(cfg, data, |prices|);
    assert Get(data.prices, |prices| - 1) == c;
    SettleFields(cfg, init, c);
    var v := RoundCents(Value(cfg.startingActions, c));
    assert cfg.startingBudget + v - cfg.startingBudget == v;
    RoundCentsOfCents(v);
  }
}
