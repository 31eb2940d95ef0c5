/**
 * Strategies: a security together with its price candles and the rule that says, at
 * each candle index, whether the security should be held.
 */
module Strategies {

  /** One candle of a time series: its period and its closing price. */
  datatype Candle = Candle(period: int, close: real)

  /**
   * A strategy for one security. The rule is the strategy's trading signal, asked at a
   * candle index; the indicators it is built from are folded into it.
   */
  datatype Strategy = Strategy(security: string, candles: seq<Candle>, rule: int -> bool)
  {
    /** The index of the last candle: one less than the number of candles. */
    function LastIndex(): (r: int)
      ensures r + 1 == |candles|
      ensures |candles| > 0 ==> 0 <= r < |candles|
    {
      |candles| - 1
    }
  }

  /** A rule read off a list of signals; indices outside the list are not satisfied. */
  function SignalRule(signals: seq<bool>): (rule: int -> bool)
    ensures forall i :: 0 <= i < |signals| ==> rule(i) == signals[i]
  {
    i => 0 <= i < |signals| && signals[i]
  }
}
