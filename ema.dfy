/** The finite-window, re-normalised exponential moving average.

    With alpha = 2/(N+1) and q = 1 - alpha, the average of `samples` at
    `offset` is

        sum_{i=0..N} q^i * samples[offset - i]  /  sum_{i=0..N} q^i

    where `samples[j]` is Python's subscript (a negative j counts from the
    end of the list). */
module MovingAverage {
  import opened Common

  /** `q^i`, Python's `(1-alpha)**i` on exact reals. */
  function Pow(q: real, i: nat): (r: real)
    ensures 0.0 <= q ==> 0.0 <= r
    ensures 0.0 <= q <= 1.0 ==> r <= 1.0
  {
    if i == 0 then 1.0
    else
      var p := Pow(q, i - 1);
      assert 0.0 <= q && 0.0 <= p ==> 0.0 <= q * p;
      assert 0.0 <= q <= 1.0 && 0.0 <= p <= 1.0 ==> q * p <= p;
      q * p
  }

  /** The decay factor `1 - alpha` of an N-period average: it lies in [0, 1)
      for every period of one or more, and is -1 for period 0 (alpha = 2). */
  function Decay(n: nat): (q: real)
    ensures 1 <= n ==> 0.0 <= q < 1.0
    ensures n == 0 ==> q == -1.0
  {
    var d := n as real + 1.0;
    assert 1 <= n ==> 2.0 / d <= 1.0 by {
      if 1 <= n { assert (2.0 / d) * d == 2.0; }
    }
    1.0 - 2.0 / d
  }

  /** The weight table of an N-period average: `w[i] = (1-alpha)^i` for
      `i` in `0..N`. The first weight is 1 and every weight lies in [0, 1]. */
  function Weights(n: nat): (w: seq<real>)
    ensures |w| == n + 1 && w[0] == 1.0
    ensures forall i :: 0 <= i < |w| ==> 0.0 <= w[i] <= 1.0
  {
    seq(n + 1, i requires 0 <= i => Pow(Decay(n), i))
  }

  /** Every index of the window `offset-n .. offset` is a valid subscript. */
  predicate WindowOk(len: nat, n: nat, offset: int) {
    offset < len && -(len as int) <= offset - n
  }

  /** The first k indices `offset, offset-1, ..., offset-k+1` are valid. */
  predicate PrefixOk(len: nat, offset: int, k: nat) {
    k == 0 || WindowOk(len, k - 1, offset)
  }

  /** The numerator after k terms: sum_{i<k} w[i] * samples[offset - i]. */
  function WeightedSum(s: seq<real>, w: seq<real>, offset: int, k: nat): real
    requires PrefixOk(|s|, offset, k) && k <= |w|
  {
    if k == 0 then 0.0
    else WeightedSum(s, w, offset, k - 1) + w[k - 1] * Get(s, offset - (k - 1))
  }

  /** The denominator after k terms: sum_{i<k} w[i]. */
  function TotalWeight(w: seq<real>, k: nat): real
    requires k <= |w|
  {
    if k == 0 then 0.0 else TotalWeight(w, k - 1) + w[k - 1]
  }

  /** The denominator is at least 1 when the first weight is 1 and no weight
      is negative; in particular the division in `EMA` never fails. */
  lemma {:induction false} TotalWeightAtLeastOne(w: seq<real>, k: nat)
    requires 1 <= k <= |w| && w[0] == 1.0
    requires forall i :: 0 <= i < k ==> 0.0 <= w[i]
    ensures 1.0 <= TotalWeight(w, k)
  {
    if k > 1 {
      TotalWeightAtLeastOne(w, k - 1);
      assert 0.0 <= w[k - 1];
    }
  }

  /** The value `EMA(samples, n, offset)` returns. */
  function EmaOf(s: seq<real>, n: nat, offset: int): real
    requires WindowOk(|s|, n, offset)
  {
    TotalWeightAtLeastOne(Weights(n), n + 1);
    WeightedSum(s, Weights(n), offset, n + 1) / TotalWeight(Weights(n), n + 1)
  }

  /** `EMA(samples, N, offset)`: accumulates numerator and denominator over
      the window in a loop; raises IndexError exactly when a subscript of the
      window is outside the list. */
  method Ema(samples: seq<real>, n: nat, offset: int) returns (r: Result<real>)
    ensures r.Ok? <==> WindowOk(|samples|, n, offset)
    ensures r.Ok? ==> r.value == EmaOf(samples, n, offset)
    ensures r.Err? ==> r.error == IndexOutOfRange
  {
    var alpha := 2.0 / (n as real + 1.0);
    ghost var w := Weights(n);
    assert 1.0 - alpha == Decay(n);
    var nominator := 0.0;
    var denominator := 0.0;
    for i := 0 to n + 1
      invariant PrefixOk(|samples|, offset, i)
      invariant nominator == WeightedSum(samples, w, offset, i)
      invariant denominator == TotalWeight(w, i)
    {
      var x :- At(samples, offset - i);
      assert Pow(1.0 - alpha, i) == w[i];
      nominator := nominator + Pow(1.0 - alpha, i) * x;
      denominator := denominator + Pow(1.0 - alpha, i);
    }
    TotalWeightAtLeastOne(w, n + 1);
    r := Ok(nominator / denominator);
  }

  /** One more term with a non-negative weight keeps a weighted sum above a
      lower bound. */
  lemma AddAbove(num: real, den: real, p: real, x: real, lo: real, num': real, den': real)
    requires lo * den <= num && 0.0 <= p && lo <= x
    requires num' == num + p * x && den' == den + p
    ensures lo * den' <= num'
  {
    assert 0.0 <= (x - lo) * p;
    assert lo * den' == lo * den + lo * p;
  }

  /** One more term with a non-negative weight keeps a weighted sum below an
      upper bound. */
  lemma AddBelow(num: real, den: real, p: real, x: real, hi: real, num': real, den': real)
    requires num <= hi * den && 0.0 <= p && x <= hi
    requires num' == num + p * x && den' == den + p
    ensures num' <= hi * den'
  {
    assert 0.0 <= (hi - x) * p;
    assert hi * den' == hi * den + hi * p;
  }

  /** Dividing a weighted sum by its total weight stays between the bounds. */
  lemma DivBetween(num: real, den: real, lo: real, hi: real)
    requires 0.0 < den && lo * den <= num <= hi * den
    ensures lo <= num / den <= hi
  {
    var a := num / den;
    assert a * den == num;
    assert 0.0 <= (a - lo) * den;
    assert 0.0 <= (hi - a) * den;
  }

  /** Pushes a lower bound on the samples through the first k terms. */
  lemma {:induction false} WeightedSumAbove(s: seq<real>, w: seq<real>, offset: int, k: nat, lo: real)
    requires PrefixOk(|s|, offset, k) && k <= |w|
    requires forall i :: 0 <= i < k ==> 0.0 <= w[i]
    requires forall j :: offset - k < j <= offset ==> lo <= Get(s, j)
    ensures lo * TotalWeight(w, k) <= WeightedSum(s, w, offset, k)
  {
    if k > 0 {
      WeightedSumAbove(s, w, offset, k - 1, lo);
      assert lo <= Get(s, offset - (k - 1));
      AddAbove(WeightedSum(s, w, offset, k - 1), TotalWeight(w, k - 1), w[k - 1],
               Get(s, offset - (k - 1)), lo, WeightedSum(s, w, offset, k), TotalWeight(w, k));
    }
  }

  /** Pushes an upper bound on the samples through the first k terms. */
  lemma {:induction false} WeightedSumBelow(s: seq<real>, w: seq<real>, offset: int, k: nat, hi: real)
    requires PrefixOk(|s|, offset, k) && k <= |w|
    requires forall i :: 0 <= i < k ==> 0.0 <= w[i]
    requires forall j :: offset - k < j <= offset ==> Get(s, j) <= hi
    ensures WeightedSum(s, w, offset, k) <= hi * TotalWeight(w, k)
  {
    if k > 0 {
      WeightedSumBelow(s, w, offset, k - 1, hi);
      assert Get(s, offset - (k - 1)) <= hi;
      AddBelow(WeightedSum(s, w, offset, k - 1), TotalWeight(w, k - 1), w[k - 1],
               Get(s, offset - (k - 1)), hi, WeightedSum(s, w, offset, k), TotalWeight(w, k));
    }
  }

  /** A weighted average with non-negative weights, the first of them 1, lies
      between any bounds of the samples it reads. */
  lemma AverageWithinBounds(s: seq<real>, w: seq<real>, offset: int, k: nat, lo: real, hi: real)
    requires PrefixOk(|s|, offset, k) && 1 <= k <= |w| && w[0] == 1.0
    requires forall i :: 0 <= i < k ==> 0.0 <= w[i]
    requires forall j :: offset - k < j <= offset ==> lo <= Get(s, j) <= hi
    ensures 1.0 <= TotalWeight(w, k)
    ensures lo <= WeightedSum(s, w, offset, k) / TotalWeight(w, k) <= hi
  {
    var num, den := WeightedSum(s, w, offset, k), TotalWeight(w, k);
    TotalWeightAtLeastOne(w, k);
    assert lo * den <= num by { WeightedSumAbove(s, w, offset, k, lo); }
    assert num <= hi * den by { WeightedSumBelow(s, w, offset, k, hi); }
    DivBetween(num, den, lo, hi);
  }

  /** The average is a convex combination of its window: it lies between any
      lower and upper bound of the samples `offset-n .. offset`. */
  lemma EmaWithinWindowBounds(s: seq<real>, n: nat, offset: int, lo: real, hi: real)
    requires WindowOk(|s|, n, offset)
    requires forall j :: offset - n <= j <= offset ==> lo <= Get(s, j) <= hi
    ensures lo <= EmaOf(s, n, offset) <= hi
  {
    AverageWithinBounds(s, Weights(n), offset, n + 1, lo, hi);
  }

  /** A constant window averages to that constant. */
  lemma EmaOfConstantWindow(s: seq<real>, n: nat, offset: int, c: real)
    requires WindowOk(|s|, n, offset)
    requires forall j :: offset - n <= j <= offset ==> Get(s, j) == c
    ensures EmaOf(s, n, offset) == c
  {
    EmaWithinWindowBounds(s, n, offset, c, c);
  }

  /** Period 0 gives alpha = 2 and a single weight of 1: the sample itself. */
  lemma EmaOfPeriodZero(s: seq<real>, offset: int)
    requires WindowOk(|s|, 0, offset)
    ensures EmaOf(s, 0, offset) == Get(s, offset)
  {
    assert WeightedSum(s, Weights(0), offset, 1) == Get(s, offset);
  }

  /** The first k terms depend only on the samples they read. */
  lemma {:induction false} WeightedSumFrame(s1: seq<real>, s2: seq<real>, w: seq<real>, offset: int, k: nat)
    requires PrefixOk(|s1|, offset, k) && PrefixOk(|s2|, offset, k) && k <= |w|
    requires forall j :: offset - k < j <= offset ==> Get(s1, j) == Get(s2, j)
    ensures WeightedSum(s1, w, offset, k) == WeightedSum(s2, w, offset, k)
  {
    if k > 0 {
      WeightedSumFrame(s1, s2, w, offset, k - 1);
      assert Get(s1, offset - (k - 1)) == Get(s2, offset - (k - 1));
    }
  }

  /** With `n <= offset` the average reads only `samples[offset-n .. offset]`:
      two lists that agree there give the same average. */
  lemma EmaReadsOnlyWindow(s1: seq<real>, s2: seq<real>, n: nat, offset: int)
    requires n <= offset && offset < |s1| && offset < |s2|
    requires s1[offset - n .. offset + 1] == s2[offset - n .. offset + 1]
    ensures EmaOf(s1, n, offset) == EmaOf(s2, n, offset)
  {
    forall j | offset - (n + 1) < j <= offset
      ensures Get(s1, j) == Get(s2, j)
    {
      assert s1[j] == s1[offset - n .. offset + 1][j - (offset - n)];
      assert s2[j] == s2[offset - n .. offset + 1][j - (offset - n)];
    }
    WeightedSumFrame(s1, s2, Weights(n), offset, n + 1);
  }

  /** Terms that read zeros add nothing: if the samples at positions
      `offset-k2+1 .. offset-k1` are 0, the first k2 terms sum to the first k1. */
  lemma {:induction false} WeightedSumZeroTail(s: seq<real>, w: seq<real>, offset: int, k1: nat, k2: nat)
    requires k1 <= k2 && PrefixOk(|s|, offset, k2) && k2 <= |w|
    requires forall j :: offset - k2 < j <= offset - k1 ==> Get(s, j) == 0.0
    ensures WeightedSum(s, w, offset, k2) == WeightedSum(s, w, offset, k1)
  {
    if k1 < k2 {
      assert Get(s, offset - (k2 - 1)) == 0.0;
      WeightedSumZeroTail(s, w, offset, k1, k2 - 1);
    }
  }
}
