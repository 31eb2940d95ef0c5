/**
 * Analyses: single numbers that summarise an account history's performance.
 */
module Analyses {
  import opened Histories

  /** The available methodologies. */
  datatype Analysis = TotalProfitAnalysis | PercentGainAnalysis
  {
    /**
     * Total profit: last equity less first equity. Percent gain: that change as a
     * fraction of the first equity, zero when the first equity is zero. Each agrees with
     * the history's own measure of the same name.
     */
    function Analyze(hist: AccountHistory): (r: real)
      reads hist
      requires |hist.snapshots| > 0
      ensures this.TotalProfitAnalysis? ==> r == hist.TotalProfit()
      ensures this.PercentGainAnalysis? ==> r == hist.PercentGain()
    {
      var endEquity := hist.snapshots[hist.LastIndex()].equity;
      var startEquity := hist.snapshots[0].equity;
      match this
      case TotalProfitAnalysis => endEquity - startEquity
      case PercentGainAnalysis => if startEquity == 0.0 then 0.0 else (endEquity - startEquity) / startEquity
    }
  }

  /** The percent gain is the total profit in units of the first equity, whenever that is nonzero. */
  lemma GainIsProfitPerEquity(hist: AccountHistory)
    requires |hist.snapshots| > 0 && hist.snapshots[0].equity != 0.0
    ensures PercentGainAnalysis.Analyze(hist) * hist.snapshots[0].equity == TotalProfitAnalysis.Analyze(hist)
  {
  }
}
