/**
 * The rate-of-change indicator: the change of an input series across a window,
 * divided by the number of values in the window.
 */
module RateOfChange {

  /** The first index of the window ending at index. */
  function WindowStart(window: int, index: int): int {
    index - (window - 1)
  }

  /**
   * The rate of change at an index: zero for a window shorter than two values or
   * before the first full window; otherwise the change from the window's first value
   * to its last, divided by the window length (not by the number of steps in it).
   */
  function Calculate(x: seq<real>, window: int, index: int): (r: real)
    requires window >= 2 && index >= window - 1 ==> index < |x|
    ensures window < 2 || index < window - 1 ==> r == 0.0
    ensures window >= 2 && index >= window - 1 ==>
      0 <= WindowStart(window, index) <= index < |x| &&
      r * window as real == x[index] - x[WindowStart(window, index)]
  {
    if index < window - 1 || window < 2 then 0.0
    else
      var start := x[WindowStart(window, index)];
      var end := x[index];
      (end - start) / window as real
  }

  /** The rate of change has the sign of the change across the window. */
  lemma SignOfChange(x: seq<real>, window: int, index: int)
    requires window >= 2 && window - 1 <= index < |x|
    ensures var d := x[index] - x[WindowStart(window, index)];
      && (Calculate(x, window, index) > 0.0 <==> d > 0.0)
      && (Calculate(x, window, index) < 0.0 <==> d < 0.0)
      && (Calculate(x, window, index) == 0.0 <==> d == 0.0)
  {
    var r := Calculate(x, window, index);
    var w := window as real;
    var d := x[index] - x[WindowStart(window, index)];
    assert r * w == d;
    if r > 0.0 {
      PositiveProduct(r, w);
    } else if r < 0.0 {
      PositiveProduct(-r, w);
    }
  }

  lemma PositiveProduct(a: real, b: real)
    requires a > 0.0 && b > 0.0
    ensures a * b > 0.0
  {
  }

  /** On a constant series the rate of change is zero everywhere. */
  lemma ConstantSeries(x: seq<real>, window: int, index: int)
    requires forall i, j :: 0 <= i < |x| && 0 <= j < |x| ==> x[i] == x[j]
    requires window >= 2 && index >= window - 1 ==> index < |x|
    ensures Calculate(x, window, index) == 0.0
  {
    if window >= 2 && index >= window - 1 {
      SignOfChange(x, window, index);
    }
  }

  /** The series 0, .5, 1, .5, 0, ... with a window of three values. */
  lemma Example()
    ensures var x := [0.0, 0.5, 1.0, 0.5, 0.0, 0.5, 1.0, 0.5, 0.0];
      && Calculate(x, 3, 0) == 0.0 && Calculate(x, 3, 1) == 0.0
      && Calculate(x, 3, 2) == 1.0 / 3.0 && Calculate(x, 3, 3) == 0.0
      && Calculate(x, 3, 4) == -1.0 / 3.0 && Calculate(x, 3, 5) == 0.0
      && Calculate(x, 3, 6) == 1.0 / 3.0 && Calculate(x, 3, 7) == 0.0
      && Calculate(x, 3, 8) == -1.0 / 3.0
  {
  }
}
