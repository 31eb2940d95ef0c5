/**
 * The account history: an append-only log of account snapshots, each paired with
 * the pricing snapshot of the same period.
 */
module Histories {
  import opened Wrappers
  import opened Positions

  /** A frozen copy of the account at the end of one period. */
  datatype AccountSnapshot = AccountSnapshot(
    period: int,
    equity: real,
    cash: real,
    positions: seq<PositionSnapshot>)

  /** The prices quoted for one period. */
  datatype PricingSnapshot = PricingSnapshot(period: int, prices: map<string, real>)

  class AccountHistory {
    var snapshots: seq<AccountSnapshot>
    var prices: seq<PricingSnapshot>
    /** The security used as a buy-and-hold benchmark. */
    var benchmark: string

    /** Account and pricing snapshots are paired one to one, period by period. */
    ghost predicate Valid()
      reads this
    {
      && |snapshots| == |prices|
      && forall i :: 0 <= i < |snapshots| ==> snapshots[i].period == prices[i].period
    }

    constructor ()
      ensures Valid()
      ensures snapshots == [] && prices == [] && benchmark == ""
    {
      snapshots := [];
      prices := [];
      benchmark := "";
    }

    /**
     * Appends an account snapshot and its pricing snapshot. Snapshots whose
     * periods differ are refused and the log is left as it was.
     */
    method ApplySnapshot(a: AccountSnapshot, p: PricingSnapshot) returns (err: Option<Error>)
      requires Valid()
      modifies this
      ensures Valid() && benchmark == old(benchmark)
      ensures a.period == p.period ==>
        err == None && snapshots == old(snapshots) + [a] && prices == old(prices) + [p]
      ensures a.period != p.period ==>
        err == Some(SnapshotPeriodMismatch) && snapshots == old(snapshots) && prices == old(prices)
    {
      if a.period != p.period {
        return Some(SnapshotPeriodMismatch);
      }
      snapshots := snapshots + [a];
      prices := prices + [p];
      return None;
    }

    /** The index of the latest snapshot: one less than the number of snapshots. */
    function LastIndex(): (r: int)
      reads this
      ensures r + 1 == |snapshots|
      ensures |snapshots| > 0 ==> 0 <= r < |snapshots|
    {
      |snapshots| - 1
    }

    /** The price of a security in the i-th pricing snapshot, if it was quoted. */
    function PriceAtIndex(security: string, i: int): (r: Option<real>)
      reads this
      requires Valid() && 0 <= i < |prices|
      ensures r.Some? <==> security in prices[i].prices
      ensures r.Some? ==> r.value == prices[i].prices[security]
    {
      if security in prices[i].prices then Some(prices[i].prices[security]) else None
    }

    /** The account equity as an indicator: one value per snapshot, in log order. */
    function EquityIndicator(): (r: seq<real>)
      reads this
      ensures |r| == |snapshots|
      ensures forall i :: 0 <= i < |r| ==> r[i] == snapshots[i].equity
    {
      seq(|snapshots|, i requires 0 <= i < |snapshots| reads this => snapshots[i].equity)
    }

    /** The change in equity from the first snapshot to the last; nothing with a single snapshot. */
    function TotalProfit(): (r: real)
      reads this
      requires |snapshots| > 0
      ensures snapshots[0].equity + r == snapshots[|snapshots| - 1].equity
      ensures |snapshots| == 1 ==> r == 0.0
    {
      snapshots[LastIndex()].equity - snapshots[0].equity
    }

    /**
     * The total profit as a fraction of the first equity (not multiplied by 100); zero
     * when the first equity is zero.
     */
    function PercentGain(): (r: real)
      reads this
      requires |snapshots| > 0
      ensures snapshots[0].equity == 0.0 ==> r == 0.0
      ensures snapshots[0].equity != 0.0 ==> r * snapshots[0].equity == TotalProfit()
    {
      if snapshots[0].equity == 0.0 then 0.0
      else TotalProfit() / snapshots[0].equity
    }

    /** The benchmark's first and last quoted prices, when both are quoted and nonzero. */
    function BenchmarkPrices(): Option<(real, real)>
      reads this
      requires Valid() && |snapshots| > 0
    {
      var start := PriceAtIndex(benchmark, 0);
      if start.None? || start.value == 0.0 then None
      else
        var end := PriceAtIndex(benchmark, LastIndex());
        if end.None? || end.value == 0.0 then None
        else Some((start.value, end.value))
    }

    /**
     * The benchmark's price change as a fraction of its first price; zero when either
     * price is missing or zero.
     */
    function BenchmarkBuyHoldPercentGain(): (r: real)
      reads this
      requires Valid() && |snapshots| > 0
      ensures BenchmarkPrices().None? ==> r == 0.0
      ensures BenchmarkPrices().Some? ==>
        r * BenchmarkPrices().value.0 == BenchmarkPrices().value.1 - BenchmarkPrices().value.0
    {
      match BenchmarkPrices()
      case None => 0.0
      case Some((start, end)) => (end - start) / start
    }

    /**
     * The buy-and-hold profit as the source computes it: the first equity times the
     * benchmark's price change per share; zero when either price is missing or zero.
     */
    function BenchmarkBuyHoldTotalProfitAsWritten(): (r: real)
      reads this
      requires Valid() && |snapshots| > 0
      ensures BenchmarkPrices().None? ==> r == 0.0
    {
      match BenchmarkPrices()
      case None => 0.0
      case Some((start, end)) => snapshots[0].equity * (end - start)
    }

    /**
     * The profit of buying the benchmark with the first equity and holding it to the
     * last snapshot: the first equity times the benchmark's gain; zero when either price
     * is missing or zero.
     */
    function BenchmarkBuyHoldTotalProfit(): (r: real)
      reads this
      requires Valid() && |snapshots| > 0
      ensures BenchmarkPrices().None? ==> r == 0.0
    {
      snapshots[0].equity * BenchmarkBuyHoldPercentGain()
    }
  }

  /** The sum of a sequence of reals. */
  function Sum(xs: seq<real>): real
  {
    if |xs| == 0 then 0.0 else Sum(xs[..|xs| - 1]) + xs[|xs| - 1]
  }

  /** The change from each value of a series to the next. */
  function Changes(e: seq<real>): (c: seq<real>)
    ensures |c| == if |e| == 0 then 0 else |e| - 1
  {
    if |e| <= 1 then [] else seq(|e| - 1, i requires 0 <= i < |e| - 1 => e[i + 1] - e[i])
  }

  /** The period-by-period changes of a series add up to its overall change. */
  lemma {:induction false} ChangesTelescope(e: seq<real>)
    requires |e| > 0
    ensures Sum(Changes(e)) == e[|e| - 1] - e[0]
    decreases |e|
  {
    if |e| > 1 {
      var init := e[..|e| - 1];
      ChangesTelescope(init);
      assert Changes(e)[..|e| - 2] == Changes(init);
    }
  }

  /** The total profit is the sum of the equity changes from each snapshot to the next. */
  lemma ProfitIsSumOfChanges(h: AccountHistory)
    requires |h.snapshots| > 0
    ensures h.TotalProfit() == Sum(Changes(h.EquityIndicator()))
  {
    ChangesTelescope(h.EquityIndicator());
  }

  /**
   * From a positive first equity, the gain is positive exactly when the last equity is
   * higher and negative exactly when it is lower.
   */
  lemma PercentGainSign(h: AccountHistory)
    requires |h.snapshots| > 0 && h.snapshots[0].equity > 0.0
    ensures h.PercentGain() > 0.0 <==> h.snapshots[|h.snapshots| - 1].equity > h.snapshots[0].equity
    ensures h.PercentGain() < 0.0 <==> h.snapshots[|h.snapshots| - 1].equity < h.snapshots[0].equity
  {
    var g, e := h.PercentGain(), h.snapshots[0].equity;
    SignOfProduct(g, e);
  }

  /** With a positive factor e, g * e has the sign of g. */
  lemma SignOfProduct(g: real, e: real)
    requires e > 0.0
    ensures g * e > 0.0 <==> g > 0.0
    ensures g * e < 0.0 <==> g < 0.0
  {
    if g > 0.0 {
      assert g * e > 0.0;
    } else if g < 0.0 {
      assert g * e < 0.0;
    }
  }

  /**
   * As the source computes it, the buy-and-hold profit is the first price times the
   * profit of actually buying and holding the benchmark.
   */
  lemma BuyHoldAsWrittenScalesWithPrice(h: AccountHistory)
    requires h.Valid() && |h.snapshots| > 0 && h.BenchmarkPrices().Some?
    ensures h.BenchmarkBuyHoldTotalProfitAsWritten() == h.BenchmarkPrices().value.0 * h.BenchmarkBuyHoldTotalProfit()
  {
    var (start, end) := h.BenchmarkPrices().value;
    var g := h.BenchmarkBuyHoldPercentGain();
    assert g * start == end - start;
    assert start * (h.snapshots[0].equity * g) == h.snapshots[0].equity * (g * start);
  }

  /**
   * The buy-and-hold profit is what the shares bought with the first equity at the
   * first price are worth at the last price, less the first equity.
   */
  lemma BuyHoldProfitIsHoldingValue(h: AccountHistory)
    requires h.Valid() && |h.snapshots| > 0 && h.BenchmarkPrices().Some?
    ensures var (start, end) := h.BenchmarkPrices().value;
      h.BenchmarkBuyHoldTotalProfit() == h.snapshots[0].equity / start * end - h.snapshots[0].equity
  {
    var (start, end) := h.BenchmarkPrices().value;
    var e := h.snapshots[0].equity;
    var g := h.BenchmarkBuyHoldPercentGain();
    assert g == (end - start) / start;
    assert e * ((end - start) / start) == e / start * end - e;
  }

  /**
   * With equity 100 and the benchmark going from 10 to 11, buying and holding earns 10,
   * while the source's formula reports 100.
   */
  lemma BuyHoldAsWrittenOverstates(h: AccountHistory)
    requires h.Valid() && |h.snapshots| == 2 && h.snapshots[0].equity == 100.0
    requires h.benchmark in h.prices[0].prices && h.prices[0].prices[h.benchmark] == 10.0
    requires h.benchmark in h.prices[1].prices && h.prices[1].prices[h.benchmark] == 11.0
    ensures h.BenchmarkBuyHoldTotalProfitAsWritten() == 100.0
    ensures h.BenchmarkBuyHoldTotalProfit() == 10.0
  {
    assert h.BenchmarkPrices() == Some((10.0, 11.0));
    assert h.BenchmarkBuyHoldPercentGain() == 0.1;
  }

  /** The test suite's history: equities 1 then 2 give profit 1 and gain 1 (the whole first equity). */
  lemma ExampleGrowth(h: AccountHistory)
    requires |h.snapshots| == 2 && h.snapshots[0].equity == 1.0 && h.snapshots[1].equity == 2.0
    ensures h.TotalProfit() == 1.0 && h.PercentGain() == 1.0
  {
  }

  /** The test suite's history continued: a third equity of 0 gives profit -1 and gain -1. */
  lemma ExampleLoss(h: AccountHistory)
    requires |h.snapshots| == 3 && h.snapshots[0].equity == 1.0 && h.snapshots[2].equity == 0.0
    ensures h.TotalProfit() == -1.0 && h.PercentGain() == -1.0
  {
  }

  /** A first equity of zero gives no gain whatever follows. */
  lemma ExampleZeroStart(h: AccountHistory)
    requires |h.snapshots| == 2 && h.snapshots[0].equity == 0.0 && h.snapshots[1].equity == 2.0
    ensures h.PercentGain() == 0.0
  {
  }
}
