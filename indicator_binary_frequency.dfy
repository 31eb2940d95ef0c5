/**
 * The binary-frequency indicator: over a lookback window, how many times the
 * values of a group of input series were above zero.
 */
module BinaryFrequency {

  /**
   * How far back the count reaches: the whole prefix up to and including index
   * window, one less than the window afterwards.
   */
  function CalcWindow(window: int, index: int): int {
    if index < window + 1 then index else window - 1
  }

  /** The first index counted. */
  function Start(window: int, index: int): int {
    index - CalcWindow(window, index)
  }

  /** How many of the first k series are above zero at index i. */
  function PositiveCount(inds: seq<seq<real>>, i: int, k: int): int
    requires 0 <= k <= |inds| && 0 <= i
    requires forall j :: 0 <= j < k ==> i < |inds[j]|
  {
    if k == 0 then 0
    else PositiveCount(inds, i, k - 1) + (if inds[k - 1][i] > 0.0 then 1 else 0)
  }

  /** How many (index, series) pairs with lo <= index < hi have a value above zero. */
  function WindowCount(inds: seq<seq<real>>, lo: int, hi: int): int
    requires 0 <= lo
    requires forall j :: 0 <= j < |inds| ==> hi <= |inds[j]|
    decreases hi - lo
  {
    if hi <= lo then 0
    else WindowCount(inds, lo, hi - 1) + PositiveCount(inds, hi - 1, |inds|)
  }

  /** The start of the counted range is never negative once the range is nonempty. */
  lemma StartInRange(window: int, index: int)
    requires Start(window, index) <= index
    ensures 0 <= Start(window, index)
  {
  }

  /** The frequency the indicator reports at an index. */
  function Frequency(inds: seq<seq<real>>, window: int, index: int): int
    requires forall j :: 0 <= j < |inds| ==> index < |inds[j]|
  {
    if Start(window, index) > index then 0
    else
      StartInRange(window, index);
      WindowCount(inds, Start(window, index), index + 1)
  }

  /**
   * The nested counting loop: for every index of the range and every series, one
   * more when the value is above zero. The threshold is accepted and never read.
   */
  method Calculate(inds: seq<seq<real>>, window: int, threshold: real, index: int) returns (frequency: int)
    requires forall j :: 0 <= j < |inds| ==> index < |inds[j]|
    ensures frequency == Frequency(inds, window, index)
  {
    var calcWindow := window - 1;
    if index < window + 1 {
      calcWindow := index;
    }
    frequency := 0;
    var i := index - calcWindow;
    if i > index {
      return;
    }
    StartInRange(window, index);
    while i <= index
      invariant Start(window, index) <= i <= index + 1
      invariant frequency == WindowCount(inds, Start(window, index), i)
    {
      var k := 0;
      var before := frequency;
      while k < |inds|
        invariant 0 <= k <= |inds|
        invariant frequency == before + PositiveCount(inds, i, k)
      {
        if inds[k][i] > 0.0 {
          frequency := frequency + 1;
        }
        k := k + 1;
      }
      i := i + 1;
    }
  }

  /** The count over k series at one index lies between zero and k. */
  lemma {:induction false} PositiveCountBounds(inds: seq<seq<real>>, i: int, k: int)
    requires 0 <= k <= |inds| && 0 <= i
    requires forall j :: 0 <= j < k ==> i < |inds[j]|
    ensures 0 <= PositiveCount(inds, i, k) <= k
  {
    if k > 0 {
      PositiveCountBounds(inds, i, k - 1);
    }
  }

  /** The count over a range lies between zero and the range length times the number of series. */
  lemma {:induction false} WindowCountBounds(inds: seq<seq<real>>, lo: int, hi: int)
    requires 0 <= lo <= hi
    requires forall j :: 0 <= j < |inds| ==> hi <= |inds[j]|
    ensures 0 <= WindowCount(inds, lo, hi) <= (hi - lo) * |inds|
    decreases hi - lo
  {
    if hi > lo {
      WindowCountBounds(inds, lo, hi - 1);
      PositiveCountBounds(inds, hi - 1, |inds|);
      assert (hi - lo) * |inds| == (hi - 1 - lo) * |inds| + |inds|;
    }
  }

  /** The frequency lies between zero and the counted range length times the number of series. */
  lemma FrequencyBounds(inds: seq<seq<real>>, window: int, index: int)
    requires forall j :: 0 <= j < |inds| ==> index < |inds[j]|
    ensures 0 <= Frequency(inds, window, index)
    ensures Start(window, index) <= index ==>
      Frequency(inds, window, index) <= (CalcWindow(window, index) + 1) * |inds|
  {
    if Start(window, index) <= index {
      WindowCountBounds(inds, Start(window, index), index + 1);
    }
  }

  /** When every value is above zero, every pair is counted. */
  lemma {:induction false} AllPositiveCountsAll(inds: seq<seq<real>>, lo: int, hi: int)
    requires 0 <= lo <= hi
    requires forall j :: 0 <= j < |inds| ==> hi <= |inds[j]|
    requires forall j, i :: 0 <= j < |inds| && lo <= i < hi ==> inds[j][i] > 0.0
    ensures WindowCount(inds, lo, hi) == (hi - lo) * |inds|
    decreases hi - lo
  {
    if hi > lo {
      AllPositiveCountsAll(inds, lo, hi - 1);
      AllPositiveAtIndex(inds, hi - 1, |inds|);
      assert (hi - lo) * |inds| == (hi - 1 - lo) * |inds| + |inds|;
    }
  }

  lemma {:induction false} AllPositiveAtIndex(inds: seq<seq<real>>, i: int, k: int)
    requires 0 <= k <= |inds| && 0 <= i
    requires forall j :: 0 <= j < k ==> i < |inds[j]| && inds[j][i] > 0.0
    ensures PositiveCount(inds, i, k) == k
  {
    if k > 0 {
      AllPositiveAtIndex(inds, i, k - 1);
    }
  }

  /** For a single series: how many of its values at lo <= index < hi are above zero. */
  function CountAbove(x: seq<real>, lo: int, hi: int): int
    requires 0 <= lo && hi <= |x|
    decreases hi - lo
  {
    if hi <= lo then 0 else CountAbove(x, lo, hi - 1) + (if x[hi - 1] > 0.0 then 1 else 0)
  }

  /** With one series the window count is the count of its values above zero. */
  lemma {:induction false} SingleSeries(x: seq<real>, lo: int, hi: int)
    requires 0 <= lo && hi <= |x|
    ensures WindowCount([x], lo, hi) == CountAbove(x, lo, hi)
    decreases hi - lo
  {
    if hi > lo {
      SingleSeries(x, lo, hi - 1);
      assert PositiveCount([x], hi - 1, 1) == PositiveCount([x], hi - 1, 0) + (if x[hi - 1] > 0.0 then 1 else 0);
    }
  }

  /** The test suite's series: 0, 0, 2, 2, 0, 0, 0, 2, 0. */
  const ExampleSeries: seq<real> := [0.0, 0.0, 2.0, 2.0, 0.0, 0.0, 0.0, 2.0, 0.0]

  /** With a window of three the first four frequencies are 0, 0, 1, 2 (the range grows from index 0). */
  lemma ExampleGrowing()
    ensures Frequency([ExampleSeries], 3, 0) == 0 && Frequency([ExampleSeries], 3, 1) == 0
    ensures Frequency([ExampleSeries], 3, 2) == 1 && Frequency([ExampleSeries], 3, 3) == 2
  {
    var x := ExampleSeries;
    assert CountAbove(x, 0, 2) == 0;
    assert CountAbove(x, 0, 3) == 1;
    assert CountAbove(x, 0, 4) == 2;
    SingleSeries(x, 0, 1);
    SingleSeries(x, 0, 2);
    SingleSeries(x, 0, 3);
    SingleSeries(x, 0, 4);
  }

  /** After that the range slides with three values: 2, 1, 0, 1, 1. */
  lemma ExampleSliding()
    ensures Frequency([ExampleSeries], 3, 4) == 2 && Frequency([ExampleSeries], 3, 5) == 1
    ensures Frequency([ExampleSeries], 3, 6) == 0 && Frequency([ExampleSeries], 3, 7) == 1
    ensures Frequency([ExampleSeries], 3, 8) == 1
  {
    var x := ExampleSeries;
    assert CountAbove(x, 2, 5) == 2;
    assert CountAbove(x, 3, 6) == 1;
    assert CountAbove(x, 4, 7) == 0;
    assert CountAbove(x, 5, 8) == 1;
    assert CountAbove(x, 6, 9) == 1;
    SingleSeries(x, 2, 5);
    SingleSeries(x, 3, 6);
    SingleSeries(x, 4, 7);
    SingleSeries(x, 5, 8);
    SingleSeries(x, 6, 9);
  }
}
