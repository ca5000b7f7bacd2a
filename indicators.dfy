/** The MACD and SIGNAL series, index-aligned with the price list.

    Both hold the sentinel 0 below index 26. From 26 on, MACD is the 12-period
    average of the prices minus their 26-period average, and SIGNAL is the
    9-period average of MACD. SIGNAL starts at 26 too, so for indices 26..34
    its window still reaches back into MACD's sentinel zeros. */
module Indicators {
  import opened Common
  import opened MovingAverage

  /** The index from which both series carry real values. */
  const WarmUp: nat := 26
  const FastPeriod: nat := 12
  const SlowPeriod: nat := 26
  const SignalPeriod: nat := 9

  /** A builder over an input of length `len` can produce `rows` values
      without reading past the end of its input. */
  predicate Buildable(len: nat, rows: nat) {
    rows <= WarmUp || rows <= len
  }

  /** Entry i of `create_MACD(prices, rows)`. */
  function MacdAt(prices: seq<real>, i: nat): real
    requires i < WarmUp || i < |prices|
  {
    if i < WarmUp then 0.0
    else EmaOf(prices, FastPeriod, i) - EmaOf(prices, SlowPeriod, i)
  }

  /** The list `create_MACD(prices, rows)` returns. */
  function MacdSeries(prices: seq<real>, rows: nat): seq<real>
    requires Buildable(|prices|, rows)
  {
    seq(rows, i requires 0 <= i < rows => MacdAt(prices, i))
  }

  /** Entry i of `create_SIGNAL(macd, rows)`. */
  function SignalAt(macd: seq<real>, i: nat): real
    requires i < WarmUp || i < |macd|
  {
    if i < WarmUp then 0.0 else EmaOf(macd, SignalPeriod, i)
  }

  /** The list `create_SIGNAL(macd, rows)` returns. */
  function SignalSeries(macd: seq<real>, rows: nat): seq<real>
    requires Buildable(|macd|, rows)
  {
    seq(rows, i requires 0 <= i < rows => SignalAt(macd, i))
  }

  /** `create_MACD(prices, rows)`: appends one entry per index. It raises
      IndexError exactly when some index from 26 on is past the end of the
      prices; otherwise it returns MacdSeries. */
  method CreateMacd(prices: seq<real>, rows: nat) returns (r: Result<seq<real>>)
    ensures r.Ok? <==> Buildable(|prices|, rows)
    ensures r.Ok? ==> r.value == MacdSeries(prices, rows)
    ensures r.Err? ==> r.error == IndexOutOfRange
  {
    var macd: seq<real> := [];
    for i := 0 to rows
      invariant |macd| == i && Buildable(|prices|, i)
      invariant forall j :: 0 <= j < i ==> macd[j] == MacdAt(prices, j)
    {
      if i < WarmUp {
        macd := macd + [0.0];
      } else {
        // Both windows are valid exactly when i is an index of `prices`.
        var ema12 := Ema(prices, FastPeriod, i);
        var ema26 := Ema(prices, SlowPeriod, i);
        if ema12.Err? || ema26.Err? {
          return Err(IndexOutOfRange);
        }
        macd := macd + [ema12.value - ema26.value];
      }
    }
    return Ok(macd);
  }

  /** `create_SIGNAL(macd, rows)`: appends one entry per index. Its windows
      start at index i - 9 >= 17, so it never reads before the start of the
      list; it raises IndexError exactly when some index from 26 on is past
      the end of `macd`. */
  method CreateSignal(macd: seq<real>, rows: nat) returns (r: Result<seq<real>>)
    ensures r.Ok? <==> Buildable(|macd|, rows)
    ensures r.Ok? ==> r.value == SignalSeries(macd, rows)
    ensures r.Err? ==> r.error == IndexOutOfRange
  {
    var signal: seq<real> := [];
    for i := 0 to rows
      invariant |signal| == i && Buildable(|macd|, i)
      invariant forall j :: 0 <= j < i ==> signal[j] == SignalAt(macd, j)
    {
      if i < WarmUp {
        signal := signal + [0.0];
      } else {
        var ema9 :- Ema(macd, SignalPeriod, i);
        signal := signal + [ema9];
      }
    }
    return Ok(signal);
  }

  /** A flat price list gives a MACD of zeros everywhere: the sentinels, and
      two averages of the same constant after them. */
  lemma MacdOfFlatPrices(prices: seq<real>, rows: nat, c: real)
    requires Buildable(|prices|, rows)
    requires forall j :: 0 <= j < |prices| ==> prices[j] == c
    ensures forall i :: 0 <= i < rows ==> MacdSeries(prices, rows)[i] == 0.0
  {
    forall i | WarmUp <= i < rows
      ensures MacdAt(prices, i) == 0.0
    {
      EmaOfConstantWindow(prices, FastPeriod, i, c);
      EmaOfConstantWindow(prices, SlowPeriod, i, c);
    }
  }

  /** From index 26 on, MACD is bounded by the spread of the 27 prices
      `i-26 .. i` of the slow window. */
  lemma MacdWithinSpread(prices: seq<real>, i: nat, lo: real, hi: real)
    requires WarmUp <= i < |prices|
    requires forall j :: i - SlowPeriod <= j <= i ==> lo <= prices[j] <= hi
    ensures lo - hi <= MacdAt(prices, i) <= hi - lo
  {
    EmaWithinWindowBounds(prices, FastPeriod, i, lo, hi);
    EmaWithinWindowBounds(prices, SlowPeriod, i, lo, hi);
  }

  /** A MACD of zeros gives a SIGNAL of zeros. */
  lemma SignalOfZeroMacd(macd: seq<real>, rows: nat)
    requires Buildable(|macd|, rows)
    requires forall j :: 0 <= j < |macd| ==> macd[j] == 0.0
    ensures forall i :: 0 <= i < rows ==> SignalSeries(macd, rows)[i] == 0.0
  {
    forall i | WarmUp <= i < rows
      ensures SignalAt(macd, i) == 0.0
    {
      EmaOfConstantWindow(macd, SignalPeriod, i, 0.0);
    }
  }

  /** For 26 <= i <= 34 the SIGNAL window still covers MACD's sentinels: only
      the entries 26..i contribute to the numerator, while the denominator
      keeps all ten weights, so SIGNAL is damped towards 0 there. */
  lemma SignalWarmupDamped(macd: seq<real>, i: nat)
    requires WarmUp <= i < WarmUp + SignalPeriod && i < |macd|
    requires forall j :: 0 <= j < WarmUp ==> macd[j] == 0.0
    ensures 1.0 <= TotalWeight(Weights(SignalPeriod), SignalPeriod + 1)
    ensures SignalAt(macd, i) ==
      WeightedSum(macd, Weights(SignalPeriod), i, i - WarmUp + 1) / TotalWeight(Weights(SignalPeriod), SignalPeriod + 1)
  {
    TotalWeightAtLeastOne(Weights(SignalPeriod), SignalPeriod + 1);
    WeightedSumZeroTail(macd, Weights(SignalPeriod), i, i - WarmUp + 1, SignalPeriod + 1);
  }
}
