/**
 * The maximum-drawdown indicator: pairs each local peak with the fall that follows it
 * and reports, at every index, the largest fall seen so far in percent of its peak.
 */
module MaximumDrawdown {
  import LocalExtrema

  /** The loop's running values: the largest drawdown so far, the last peak, and whether a fall is being tracked. */
  datatype Tracker = Tracker(maxDrawdown: real, lastPeak: real, inDrawdown: bool)

  /** The fall from a peak to a value, in percent of the peak. */
  function Drawdown(lastPeak: real, value: real): real
    requires lastPeak != 0.0
  {
    (lastPeak - value) / lastPeak * 100.0
  }

  /** Every index marked as a peak before n has a nonzero value, so no fall divides by zero. */
  predicate PeaksNonzero(x: seq<real>, e: seq<int>, n: int)
    requires 0 <= n <= |x| && n <= |e|
  {
    forall k :: 0 <= k < n && e[k] > 0 ==> x[k] != 0.0
  }

  /**
   * The running values after the first n indices: a peak (+1 mark) records its value
   * and starts tracking; while tracking, every other index offers its fall from the
   * peak as a candidate, and a valley (-1 mark) stops tracking after it has been counted.
   */
  function Track(x: seq<real>, e: seq<int>, n: int): (t: Tracker)
    requires 0 <= n <= |x| && n <= |e| && PeaksNonzero(x, e, n)
    ensures t.inDrawdown ==> t.lastPeak != 0.0
    ensures t.maxDrawdown >= 0.0
  {
    if n == 0 then Tracker(0.0, 0.0, false)
    else
      var t := Track(x, e, n - 1);
      var i := n - 1;
      if e[i] > 0 then Tracker(t.maxDrawdown, x[i], true)
      else if t.inDrawdown then
        var d := Drawdown(t.lastPeak, x[i]);
        Tracker(if d > t.maxDrawdown then d else t.maxDrawdown, t.lastPeak, !(e[i] < 0))
      else t
  }

  /** The indicator values: the largest drawdown after each index. */
  function Drawdowns(x: seq<real>, e: seq<int>, n: int): (d: seq<real>)
    requires 0 <= n <= |x| && n <= |e| && PeaksNonzero(x, e, n)
    ensures |d| == n
  {
    seq(n, i requires 0 <= i < n => Track(x, e, i + 1).maxDrawdown)
  }

  /**
   * Builds the indicator: the local extrema of the series, then one pass that keeps
   * the running values and appends the largest drawdown at every index.
   */
  method NewMaximumDrawdown(x: seq<real>, window: int, length: int) returns (drawdowns: seq<real>)
    requires 0 <= length <= |x|
    requires PeaksNonzero(x, LocalExtrema.Extrema(x, window, length), length)
    ensures drawdowns == Drawdowns(x, LocalExtrema.Extrema(x, window, length), length)
  {
    var extrema := LocalExtrema.NewLocalExtrema(x, window, length);
    ghost var e := extrema[..];
    drawdowns := [];
    var maxDrawdown := 0.0;
    var lastPeak := 0.0;
    var inDrawdown := false;
    var i := 0;
    while i < length
      invariant 0 <= i <= length
      invariant Tracker(maxDrawdown, lastPeak, inDrawdown) == Track(x, e, i)
      invariant drawdowns == Drawdowns(x, e, i)
    {
      var isExtrema := extrema[i];
      if isExtrema > 0 {
        lastPeak := x[i];
        inDrawdown := true;
      } else if inDrawdown {
        var drawdown := (lastPeak - x[i]) / lastPeak * 100.0;
        if drawdown > maxDrawdown {
          maxDrawdown := drawdown;
        }
        if isExtrema < 0 {
          inDrawdown := false;
        }
      }
      drawdowns := drawdowns + [maxDrawdown];
      i := i + 1;
    }
  }

  /** The largest drawdown never decreases from one index to a later one. */
  lemma {:induction false} Nondecreasing(x: seq<real>, e: seq<int>, i: int, j: int)
    requires 0 <= i <= j <= |x| && j <= |e| && PeaksNonzero(x, e, j)
    ensures Track(x, e, i).maxDrawdown <= Track(x, e, j).maxDrawdown
    decreases j - i
  {
    if i < j {
      Nondecreasing(x, e, i, j - 1);
    }
  }

  /** The indicator series is nondecreasing and never negative. */
  lemma DrawdownsMonotone(x: seq<real>, e: seq<int>, n: int)
    requires 0 <= n <= |x| && n <= |e| && PeaksNonzero(x, e, n)
    ensures forall i, j :: 0 <= i <= j < n ==> 0.0 <= Drawdowns(x, e, n)[i] <= Drawdowns(x, e, n)[j]
  {
    forall i, j | 0 <= i <= j < n
      ensures 0.0 <= Drawdowns(x, e, n)[i] <= Drawdowns(x, e, n)[j]
    {
      Nondecreasing(x, e, i + 1, j + 1);
    }
  }

  /** Until the first peak nothing is tracked and the largest drawdown stays zero. */
  lemma {:induction false} ZeroBeforeFirstPeak(x: seq<real>, e: seq<int>, n: int)
    requires 0 <= n <= |x| && n <= |e| && PeaksNonzero(x, e, n)
    requires forall k :: 0 <= k < n ==> e[k] <= 0
    ensures Track(x, e, n) == Tracker(0.0, 0.0, false)
  {
    if n > 0 {
      ZeroBeforeFirstPeak(x, e, n - 1);
    }
  }

  /**
   * Every fall counted while tracking is at most the largest drawdown from then on:
   * the indicator is a running maximum of the falls from the last peak.
   */
  lemma FallIsBounded(x: seq<real>, e: seq<int>, k: int, n: int)
    requires 0 <= k < n <= |x| && n <= |e| && PeaksNonzero(x, e, n)
    requires e[k] <= 0 && Track(x, e, k).inDrawdown
    ensures Drawdown(Track(x, e, k).lastPeak, x[k]) <= Track(x, e, n).maxDrawdown
  {
    Nondecreasing(x, e, k + 1, n);
  }

  /**
   * The largest drawdown is one of the counted falls, unless it is still zero: with
   * FallIsBounded, it is the largest fall from the last peak counted so far.
   */
  lemma {:induction false} MaxIsAttained(x: seq<real>, e: seq<int>, n: int)
    requires 0 <= n <= |x| && n <= |e| && PeaksNonzero(x, e, n)
    ensures Track(x, e, n).maxDrawdown == 0.0
      || exists k :: 0 <= k < n && e[k] <= 0 && Track(x, e, k).inDrawdown
           && Track(x, e, n).maxDrawdown == Drawdown(Track(x, e, k).lastPeak, x[k])
  {
    if n > 0 {
      MaxIsAttained(x, e, n - 1);
    }
  }

  /** On the test suite's series, with the test suite's marks: the running values after the first peak and valley. */
  lemma ExampleFirstFall(x: seq<real>, e: seq<int>)
    requires x == LocalExtrema.ExampleSeries && e == LocalExtrema.ExampleMarks
    ensures Track(x, e, 6) == Tracker(250.0 / 3.0, 3.0, false)
  {
    assert Track(x, e, 2) == Tracker(0.0, 0.0, false);
    assert Track(x, e, 3) == Tracker(0.0, 3.0, true);
    assert Track(x, e, 4) == Tracker(100.0 / 3.0, 3.0, true);
    assert Track(x, e, 5) == Tracker(200.0 / 3.0, 3.0, true);
  }

  /** The second peak's falls, 50 and 75 percent, stay below the first; the last, 87.5, exceeds it. */
  lemma ExampleSecondFall(x: seq<real>, e: seq<int>)
    requires x == LocalExtrema.ExampleSeries && e == LocalExtrema.ExampleMarks
    ensures Track(x, e, 14) == Tracker(87.5, 4.0, true)
  {
    ExampleFirstFall(x, e);
    assert Track(x, e, 10) == Tracker(250.0 / 3.0, 3.0, false);
    assert Track(x, e, 11) == Tracker(250.0 / 3.0, 4.0, true);
    assert Track(x, e, 12) == Tracker(250.0 / 3.0, 4.0, true);
    assert Track(x, e, 13) == Tracker(250.0 / 3.0, 4.0, true);
  }

  /** The running values in the plateau between the first valley and the second peak. */
  lemma ExamplePlateau(x: seq<real>, e: seq<int>, n: int)
    requires x == LocalExtrema.ExampleSeries && e == LocalExtrema.ExampleMarks
    requires 6 <= n <= 10
    ensures Track(x, e, n) == Tracker(250.0 / 3.0, 3.0, false)
  {
    ExampleFirstFall(x, e);
    if n > 6 {
      ExamplePlateau(x, e, n - 1);
    }
  }

  /** The test suite's indicator values at the test suite's marks. */
  const ExampleDrawdowns: seq<real> := [0.0, 0.0, 0.0, 100.0 / 3.0, 200.0 / 3.0,
    250.0 / 3.0, 250.0 / 3.0, 250.0 / 3.0, 250.0 / 3.0, 250.0 / 3.0,
    250.0 / 3.0, 250.0 / 3.0, 250.0 / 3.0, 87.5]

  /** Every running value on the test suite's series agrees with the test suite's indicator value. */
  lemma ExampleTrack(x: seq<real>, e: seq<int>, i: int)
    requires x == LocalExtrema.ExampleSeries && e == LocalExtrema.ExampleMarks
    requires 0 <= i < 14
    ensures Track(x, e, i + 1).maxDrawdown == ExampleDrawdowns[i]
  {
    if i < 5 {
      ExampleFirstFall(x, e);
      assert Track(x, e, 1) == Tracker(0.0, 0.0, false);
      assert Track(x, e, 2) == Tracker(0.0, 0.0, false);
      assert Track(x, e, 3) == Tracker(0.0, 3.0, true);
      assert Track(x, e, 4) == Tracker(100.0 / 3.0, 3.0, true);
      assert Track(x, e, 5) == Tracker(200.0 / 3.0, 3.0, true);
    } else if i < 10 {
      ExamplePlateau(x, e, i + 1);
    } else {
      ExampleSecondFall(x, e);
    }
  }

  /** On the test suite's marks, the indicator is the test suite's one. */
  lemma ExampleOnMarks(x: seq<real>, e: seq<int>)
    requires x == LocalExtrema.ExampleSeries && e == LocalExtrema.ExampleMarks
    ensures PeaksNonzero(x, e, 14)
    ensures Drawdowns(x, e, 14) == ExampleDrawdowns
  {
    forall i | 0 <= i < 14
      ensures Drawdowns(x, e, 14)[i] == ExampleDrawdowns[i]
    {
      ExampleTrack(x, e, i);
    }
  }

  /** The test suite's indicator: 0, 0, 0, 33.3, 66.7, then 83.3 until the last index, which gives 87.5. */
  lemma Example(x: seq<real>)
    requires x == LocalExtrema.ExampleSeries
    ensures PeaksNonzero(x, LocalExtrema.Extrema(x, 3, 14), 14)
    ensures Drawdowns(x, LocalExtrema.Extrema(x, 3, 14), 14) == ExampleDrawdowns
  {
    LocalExtrema.Example(x);
    ExampleOnMarks(x, LocalExtrema.ExampleMarks);
  }
}
