/**
 * The supertrend indicator: two bands around the mid price, a multiple of the average
 * true range apart, that only ratchet towards the price while the price stays inside
 * them, and a trend line that sits on the lower band in an up-trend and on the upper
 * band in a down-trend.
 */
module Supertrend {

  /**
   * The per-index inputs of the indicator: high, low and close prices and the average
   * true range, all indexed by the same candles.
   */
  datatype Series = Series(high: seq<real>, low: seq<real>, close: seq<real>, atr: seq<real>)
  {
    predicate Aligned()
    {
      |low| == |high| && |close| == |high| && |atr| == |high|
    }

    function Length(): nat
    {
      |high|
    }
  }

  /** The final bands and the trend line at one index. */
  datatype Bands = Bands(upper: real, lower: real, trend: real)

  /**
   * The basic bands at one index: the mid price plus and minus the multiplier times the
   * average true range.
   */
  function BasicBands(s: Series, multiplier: int, i: int): (real, real)
    requires s.Aligned() && 0 <= i < s.Length()
  {
    var avgPrice := (s.high[i] + s.low[i]) / 2.0;
    var atrDiff := multiplier as real * s.atr[i];
    (avgPrice + atrDiff, avgPrice - atrDiff)
  }

  /**
   * The final bands and the trend line at index i. At index 0 the final bands are the
   * basic ones and the trend starts on the lower band. Afterwards the upper band takes
   * the basic value when that is tighter or when the previous close broke above it, and
   * keeps its previous value otherwise; the lower band mirrors this. The trend moves to
   * the lower band when the close breaks above the upper band, to the upper band when it
   * breaks below the lower band, and otherwise stays on the band it was on.
   */
  function BandsAt(s: Series, multiplier: int, i: int): (r: Bands)
    requires s.Aligned() && 0 <= i < s.Length()
    ensures r.trend == r.upper || r.trend == r.lower
  {
    var (basicUpper, basicLower) := BasicBands(s, multiplier, i);
    if i == 0 then Bands(basicUpper, basicLower, basicLower)
    else
      var prev := BandsAt(s, multiplier, i - 1);
      var lastClose := s.close[i - 1];
      var upper := if basicUpper < prev.upper || lastClose > prev.upper then basicUpper else prev.upper;
      var lower := if basicLower > prev.lower || lastClose < prev.lower then basicLower else prev.lower;
      var trend :=
        if lastClose <= prev.upper && s.close[i] > upper then lower
        else if lastClose >= prev.lower && s.close[i] < lower then upper
        else if prev.trend == prev.upper then upper
        else lower;
      Bands(upper, lower, trend)
  }

  /**
   * Builds the indicator: one pass over the candles fills the basic and final band arrays
   * and the trend line, each step reading the final bands and the trend of the step before.
   * The basic band arrays are only ever read back at the index just written, so the
   * loop keeps no invariant about them.
   */
  method NewSupertrend(s: Series, multiplier: int) returns (supertrend: array<real>)
    requires s.Aligned()
    ensures fresh(supertrend)
    ensures supertrend.Length == s.Length()
    ensures forall i :: 0 <= i < s.Length() ==> supertrend[i] == BandsAt(s, multiplier, i).trend
  {
    var n := s.Length();
    var basicUpperBand := new real[n];
    var basicLowerBand := new real[n];
    var finalUpperBand := new real[n];
    var finalLowerBand := new real[n];
    supertrend := new real[n];
    ghost var spec := seq(n, k requires 0 <= k < n => BandsAt(s, multiplier, k));
    var i := 0;
    while i < n
      invariant 0 <= i <= n
      invariant forall k :: 0 <= k < i ==> finalUpperBand[k] == spec[k].upper
      invariant forall k :: 0 <= k < i ==> finalLowerBand[k] == spec[k].lower
      invariant forall k :: 0 <= k < i ==> supertrend[k] == spec[k].trend
    {
      var basicUpper, basicLower := BasicBands(s, multiplier, i).0, BasicBands(s, multiplier, i).1;
      var upper, lower, trend;
      if i == 0 {
        upper, lower, trend := basicUpper, basicLower, basicLower;
      } else {
        upper, lower, trend := Step(s, multiplier, i, basicUpper, basicLower, finalUpperBand[i - 1], finalLowerBand[i - 1], supertrend[i - 1]);
      }
      assert Bands(upper, lower, trend) == spec[i];
      basicUpperBand[i], basicLowerBand[i] := basicUpper, basicLower;
      finalUpperBand[i], finalLowerBand[i], supertrend[i] := upper, lower, trend;
      i := i + 1;
    }
  }

  /**
   * One step after the first: from the basic bands at index i and the final bands and
   * trend at index i - 1, the final bands and trend at index i.
   */
  method Step(s: Series, multiplier: int, i: int, basicUpper: real, basicLower: real,
              lastUpper: real, lastLower: real, lastTrend: real)
    returns (upper: real, lower: real, trend: real)
    requires s.Aligned() && 0 < i < s.Length()
    requires (basicUpper, basicLower) == BasicBands(s, multiplier, i)
    requires Bands(lastUpper, lastLower, lastTrend) == BandsAt(s, multiplier, i - 1)
    ensures Bands(upper, lower, trend) == BandsAt(s, multiplier, i)
  {
    var close := s.close[i];
    var lastClose := s.close[i - 1];
    if basicUpper < lastUpper || lastClose > lastUpper {
      upper := basicUpper;
    } else {
      upper := lastUpper;
    }
    if basicLower > lastLower || lastClose < lastLower {
      lower := basicLower;
    } else {
      lower := lastLower;
    }
    if lastClose <= lastUpper && close > upper {
      trend := lower;
    } else if lastClose >= lastLower && close < lower {
      trend := upper;
    } else if lastTrend == lastUpper {
      trend := upper;
    } else {
      trend := lower;
    }
  }

  /** The basic bands are centred on the mid price and twice the multiple of the average true range apart. */
  lemma BasicBandsWidth(s: Series, multiplier: int, i: int)
    requires s.Aligned() && 0 <= i < s.Length()
    ensures BasicBands(s, multiplier, i).0 - BasicBands(s, multiplier, i).1 == 2.0 * (multiplier as real * s.atr[i])
    ensures BasicBands(s, multiplier, i).0 + BasicBands(s, multiplier, i).1 == s.high[i] + s.low[i]
  {
  }

  /** At the first index the trend line is the basic lower band, the mid price less the multiple of the range. */
  lemma FirstIndex(s: Series, multiplier: int)
    requires s.Aligned() && s.Length() > 0
    ensures BandsAt(s, multiplier, 0).upper - BandsAt(s, multiplier, 0).lower == 2.0 * (multiplier as real * s.atr[0])
    ensures BandsAt(s, multiplier, 0).trend == (s.high[0] + s.low[0]) / 2.0 - multiplier as real * s.atr[0]
  {
  }

  /** While the previous close stays at or below the upper band, the upper band does not rise. */
  lemma UpperStep(s: Series, multiplier: int, i: int)
    requires s.Aligned() && 0 < i < s.Length()
    requires s.close[i - 1] <= BandsAt(s, multiplier, i - 1).upper
    ensures BandsAt(s, multiplier, i).upper <= BandsAt(s, multiplier, i - 1).upper
  {
  }

  /** While the previous close stays at or above the lower band, the lower band does not fall. */
  lemma LowerStep(s: Series, multiplier: int, i: int)
    requires s.Aligned() && 0 < i < s.Length()
    requires s.close[i - 1] >= BandsAt(s, multiplier, i - 1).lower
    ensures BandsAt(s, multiplier, i).lower >= BandsAt(s, multiplier, i - 1).lower
  {
  }

  /** The upper band ratchets down: over a stretch where every close stays at or below it, it never rises. */
  lemma {:induction false} UpperRatchet(s: Series, multiplier: int, j: int, k: int)
    requires s.Aligned() && 0 <= j <= k < s.Length()
    requires forall t :: j <= t < k ==> s.close[t] <= BandsAt(s, multiplier, t).upper
    ensures BandsAt(s, multiplier, k).upper <= BandsAt(s, multiplier, j).upper
    decreases k - j
  {
    if j < k {
      UpperRatchet(s, multiplier, j, k - 1);
      UpperStep(s, multiplier, k);
    }
  }

  /** The lower band ratchets up: over a stretch where every close stays at or above it, it never falls. */
  lemma {:induction false} LowerRatchet(s: Series, multiplier: int, j: int, k: int)
    requires s.Aligned() && 0 <= j <= k < s.Length()
    requires forall t :: j <= t < k ==> s.close[t] >= BandsAt(s, multiplier, t).lower
    ensures BandsAt(s, multiplier, k).lower >= BandsAt(s, multiplier, j).lower
    decreases k - j
  {
    if j < k {
      LowerRatchet(s, multiplier, j, k - 1);
      LowerStep(s, multiplier, k);
    }
  }

  /** A band moves away from the price only after the price broke through it. */
  lemma BandsWidenOnlyOnBreak(s: Series, multiplier: int, i: int)
    requires s.Aligned() && 0 < i < s.Length()
    ensures BandsAt(s, multiplier, i).upper > BandsAt(s, multiplier, i - 1).upper
      ==> s.close[i - 1] > BandsAt(s, multiplier, i - 1).upper
    ensures BandsAt(s, multiplier, i).lower < BandsAt(s, multiplier, i - 1).lower
      ==> s.close[i - 1] < BandsAt(s, multiplier, i - 1).lower
  {
  }

  /**
   * When the close crosses neither band, the trend line stays on the band it was on:
   * on the upper band if it was on the upper band, on the lower band otherwise.
   */
  lemma TrendSticks(s: Series, multiplier: int, i: int)
    requires s.Aligned() && 0 < i < s.Length()
    requires !(s.close[i - 1] <= BandsAt(s, multiplier, i - 1).upper && s.close[i] > BandsAt(s, multiplier, i).upper)
    requires !(s.close[i - 1] >= BandsAt(s, multiplier, i - 1).lower && s.close[i] < BandsAt(s, multiplier, i).lower)
    ensures BandsAt(s, multiplier, i - 1).trend == BandsAt(s, multiplier, i - 1).upper
      ==> BandsAt(s, multiplier, i).trend == BandsAt(s, multiplier, i).upper
    ensures BandsAt(s, multiplier, i - 1).trend != BandsAt(s, multiplier, i - 1).upper
      ==> BandsAt(s, multiplier, i).trend == BandsAt(s, multiplier, i).lower
  {
  }

  /**
   * A close breaking up through the upper band from at or below it turns the trend up,
   * onto the lower band; one breaking down through the lower band from at or above it,
   * without breaking up, turns the trend down, onto the upper band.
   */
  lemma TrendFlips(s: Series, multiplier: int, i: int)
    requires s.Aligned() && 0 < i < s.Length()
    ensures s.close[i - 1] <= BandsAt(s, multiplier, i - 1).upper && s.close[i] > BandsAt(s, multiplier, i).upper
      ==> BandsAt(s, multiplier, i).trend == BandsAt(s, multiplier, i).lower
    ensures !(s.close[i - 1] <= BandsAt(s, multiplier, i - 1).upper && s.close[i] > BandsAt(s, multiplier, i).upper)
      && s.close[i - 1] >= BandsAt(s, multiplier, i - 1).lower && s.close[i] < BandsAt(s, multiplier, i).lower
      ==> BandsAt(s, multiplier, i).trend == BandsAt(s, multiplier, i).upper
  {
  }

  /**
   * The test suite's candles (highs 2.5, 3.5, 4.5, 5.5; lows 0.5, 1.5, 2.5, 3.5; closes 2, 3, 4, 5)
   * with multiplier 2, taking as average true range the values 0, 0, 0, 2 that a
   * three-candle average gives there.
   */
  const ExampleSeries := Series([2.5, 3.5, 4.5, 5.5], [0.5, 1.5, 2.5, 3.5], [2.0, 3.0, 4.0, 5.0], [0.0, 0.0, 0.0, 2.0])

  /** The test suite's trend line: 1.5, 2.5, 3.5, then 8.5 once the range widens the upper band. */
  lemma Example(s: Series)
    requires s == ExampleSeries
    ensures s.Aligned() && s.Length() == 4
    ensures BandsAt(s, 2, 0).trend == 1.5
    ensures BandsAt(s, 2, 1).trend == 2.5
    ensures BandsAt(s, 2, 2).trend == 3.5
    ensures BandsAt(s, 2, 3).trend == 8.5
  {
    assert BandsAt(s, 2, 0) == Bands(1.5, 1.5, 1.5);
    assert BandsAt(s, 2, 1) == Bands(2.5, 2.5, 2.5);
    assert BandsAt(s, 2, 2) == Bands(3.5, 3.5, 3.5);
    assert BandsAt(s, 2, 3) == Bands(8.5, 3.5, 8.5);
  }
}
