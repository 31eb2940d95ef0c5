/**
 * The windowed percent-change indicator: the percent change of an input series
 * over a fixed lookback, shortened near the start of the series.
 */
module WindowedPercentChange {

  /** How far back the comparison reaches: the window less one, or the index when that is smaller. */
  function Lookback(window: int, index: int): (k: int)
    ensures k == if index < window - 1 then index else window - 1
    ensures k <= index && k <= window - 1
  {
    var calcWindow := window - 1;
    if index < calcWindow then index else calcWindow
  }

  /**
   * The percent change from the value one lookback earlier to the value at the index.
   * A window shorter than two values gives zero. From a zero start the change is
   * +100 for a positive end, -100 for a negative end and zero otherwise.
   */
  function Calculate(x: seq<real>, window: int, index: int): (r: real)
    requires window >= 2 ==> 0 <= index < |x|
    ensures window < 2 ==> r == 0.0
    ensures window >= 2 ==>
      var start := x[index - Lookback(window, index)];
      var end := x[index];
      && (start == 0.0 ==> r == (if end > 0.0 then 100.0 else if end < 0.0 then -100.0 else 0.0))
      && (start != 0.0 ==> r * start == (end - start) * 100.0)
  {
    if window < 2 then 0.0
    else
      var end := x[index];
      var start := x[index - Lookback(window, index)];
      if start == 0.0 then
        if end > 0.0 then 100.0 else if end < 0.0 then -100.0 else 0.0
      else
        (end - start) / start * 100.0
  }

  /** At the first index the value is compared with itself, so the change is zero. */
  lemma FirstIndexIsZero(x: seq<real>, window: int)
    requires |x| > 0
    ensures Calculate(x, window, 0) == 0.0
  {
    if window >= 2 {
      assert Lookback(window, 0) == 0;
      var s := x[0];
      if s != 0.0 {
        ZeroQuotient(Calculate(x, window, 0), s);
      }
    }
  }

  lemma ZeroQuotient(r: real, s: real)
    requires s != 0.0 && r * s == 0.0
    ensures r == 0.0
  {
  }

  /**
   * Away from a zero start the change is positive exactly when the end has moved
   * away from the start in the start's own direction.
   */
  lemma PositiveStartSign(x: seq<real>, window: int, index: int)
    requires window >= 2 && 0 <= index < |x| && x[index - Lookback(window, index)] > 0.0
    ensures Calculate(x, window, index) > 0.0 <==> x[index] > x[index - Lookback(window, index)]
  {
    var r := Calculate(x, window, index);
    var s := x[index - Lookback(window, index)];
    var d := (x[index] - s) * 100.0;
    assert r * s == d;
    if r > 0.0 {
      assert r * s > 0.0;
    } else {
      assert (-r) * s >= 0.0;
    }
  }

  /** The series 1, 1.5, 2, 1.5, 1, ... with a window of three values. */
  lemma Example()
    ensures var x := [1.0, 1.5, 2.0, 1.5, 1.0, 1.5, 2.0, 1.5, 1.0];
      && Calculate(x, 3, 0) == 0.0 && Calculate(x, 3, 1) == 50.0
      && Calculate(x, 3, 2) == 100.0 && Calculate(x, 3, 3) == 0.0
      && Calculate(x, 3, 4) == -50.0 && Calculate(x, 3, 5) == 0.0
      && Calculate(x, 3, 6) == 100.0 && Calculate(x, 3, 7) == 0.0
      && Calculate(x, 3, 8) == -50.0
  {
  }
}
