/**
 * The local-extrema indicator: marks local minima with -1 and local maxima with +1
 * by looking back over a window whenever the rate of change turns.
 */
module LocalExtrema {
  import RateOfChange

  /**
   * The index of the largest value in x[start..end]; among equal largest values the
   * latest wins.
   */
  function MaxIndexIn(x: seq<real>, start: int, end: int): (m: int)
    requires 0 <= start <= end < |x|
    ensures start <= m <= end
    ensures forall j :: start <= j <= end ==> x[j] <= x[m]
    ensures forall j :: m < j <= end ==> x[j] < x[m]
    decreases end - start
  {
    if end == start then start
    else
      var m := MaxIndexIn(x, start, end - 1);
      if x[end] >= x[m] then end else m
  }

  /**
   * The index of the smallest value in x[start..end]; among equal smallest values the
   * latest wins.
   */
  function MinIndexIn(x: seq<real>, start: int, end: int): (m: int)
    requires 0 <= start <= end < |x|
    ensures start <= m <= end
    ensures forall j :: start <= j <= end ==> x[m] <= x[j]
    ensures forall j :: m < j <= end ==> x[m] < x[j]
    decreases end - start
  {
    if end == start then start
    else
      var m := MinIndexIn(x, start, end - 1);
      if x[end] <= x[m] then end else m
  }

  /** The scan for the window maximum; an empty window gives its start. */
  method FindMaxIndexInWindow(x: seq<real>, startIndex: int, endIndex: int) returns (maxIndex: int)
    requires startIndex <= endIndex ==> 0 <= startIndex && endIndex < |x|
    ensures startIndex > endIndex ==> maxIndex == startIndex
    ensures startIndex <= endIndex ==> maxIndex == MaxIndexIn(x, startIndex, endIndex)
  {
    maxIndex := startIndex;
    var i := startIndex;
    while i <= endIndex
      invariant startIndex <= endIndex ==> startIndex <= i <= endIndex + 1
      invariant startIndex <= endIndex && i > startIndex ==> maxIndex == MaxIndexIn(x, startIndex, i - 1)
      invariant startIndex > endIndex ==> i == startIndex
      invariant i == startIndex ==> maxIndex == startIndex
    {
      if x[i] >= x[maxIndex] {
        maxIndex := i;
      }
      i := i + 1;
    }
    if startIndex <= endIndex {
      assert i - 1 == endIndex;
    }
  }

  /** The scan for the window minimum; an empty window gives its start. */
  method FindMinIndexInWindow(x: seq<real>, startIndex: int, endIndex: int) returns (minIndex: int)
    requires startIndex <= endIndex ==> 0 <= startIndex && endIndex < |x|
    ensures startIndex > endIndex ==> minIndex == startIndex
    ensures startIndex <= endIndex ==> minIndex == MinIndexIn(x, startIndex, endIndex)
  {
    minIndex := startIndex;
    var i := startIndex;
    while i <= endIndex
      invariant startIndex <= endIndex ==> startIndex <= i <= endIndex + 1
      invariant startIndex <= endIndex && i > startIndex ==> minIndex == MinIndexIn(x, startIndex, i - 1)
      invariant startIndex > endIndex ==> i == startIndex
      invariant i == startIndex ==> minIndex == startIndex
    {
      if x[i] <= x[minIndex] {
        minIndex := i;
      }
      i := i + 1;
    }
    if startIndex <= endIndex {
      assert i - 1 == endIndex;
    }
  }

  /** The first index of the lookback window at step i, clamped at zero. */
  function WindowStart(window: int, i: int): (s: int)
    ensures s == if i - (window - 1) < 0 then 0 else i - (window - 1)
  {
    var startIndex := i - (window - 1);
    if startIndex < 0 then 0 else startIndex
  }

  /** The inputs the indicator can be built from: the series covers every scanned index. */
  predicate Covers(x: seq<real>, window: int, length: int) {
    0 <= length && (window >= 2 ==> length <= |x|)
  }

  /** The rate of change turns up at step i. */
  predicate TurnsUp(x: seq<real>, window: int, i: int)
    requires Covers(x, window, i + 1)
  {
    RateOfChange.Calculate(x, window, i) > 0.0 && RateOfChange.Calculate(x, window, i - 1) <= 0.0
  }

  /** The rate of change turns down at step i. */
  predicate TurnsDown(x: seq<real>, window: int, i: int)
    requires Covers(x, window, i + 1)
  {
    RateOfChange.Calculate(x, window, i) <= 0.0 && RateOfChange.Calculate(x, window, i - 1) > 0.0
  }

  /** A turn needs a full window: the rate of change is zero before it and for short windows. */
  lemma TurnNeedsWindow(x: seq<real>, window: int, i: int)
    requires Covers(x, window, i + 1) && (TurnsUp(x, window, i) || TurnsDown(x, window, i))
    ensures window >= 2 && window - 1 <= i < |x|
  {
  }

  /**
   * One step of the scan: a turn up marks the window's minimum with -1, a turn
   * down marks the window's maximum with +1, anything else leaves the marks.
   */
  function Step(e: seq<int>, x: seq<real>, window: int, i: int): (e': seq<int>)
    requires 0 <= i < |e| && Covers(x, window, i + 1)
    ensures |e'| == |e|
  {
    if TurnsUp(x, window, i) then
      TurnNeedsWindow(x, window, i);
      e[MinIndexIn(x, WindowStart(window, i), i) := -1]
    else if TurnsDown(x, window, i) then
      TurnNeedsWindow(x, window, i);
      e[MaxIndexIn(x, WindowStart(window, i), i) := 1]
    else e
  }

  /** The index k is inside the lookback window of step i. */
  predicate InWindow(window: int, i: int, k: int) {
    WindowStart(window, i) <= k <= i
  }

  /**
   * The marks after the steps window-1 .. n-1, starting from all zeros: every entry is
   * -1, 0 or +1.
   */
  function Marks(x: seq<real>, window: int, length: int, n: int): (e: seq<int>)
    requires Covers(x, window, length) && n <= length
    ensures |e| == length
    ensures forall k :: 0 <= k < length ==> -1 <= e[k] <= 1
    decreases n - window
  {
    if n <= window - 1 then seq(length, k => 0)
    else
      var before := Marks(x, window, length, n - 1);
      var i := n - 1;
      if i < 0 then before else Step(before, x, window, i)
  }

  /** Every marked entry lies in the lookback window of one of the steps taken so far. */
  lemma {:induction false} MarkedInWindow(x: seq<real>, window: int, length: int, n: int, k: int)
    requires Covers(x, window, length) && n <= length && 0 <= k < length
    requires Marks(x, window, length, n)[k] != 0
    ensures exists i :: window - 1 <= i < n && InWindow(window, i, k)
    decreases n - window
  {
    if n > window - 1 {
      var before := Marks(x, window, length, n - 1);
      if n - 1 < 0 || before[k] != 0 {
        MarkedInWindow(x, window, length, n - 1, k);
      } else {
        assert InWindow(window, n - 1, k);
      }
    }
  }

  /** The indicator's marks over the whole length. */
  function Extrema(x: seq<real>, window: int, length: int): seq<int>
    requires Covers(x, window, length)
  {
    Marks(x, window, length, length)
  }

  /**
   * Builds the marks: a zero-filled array, then one step per index from window-1 on,
   * later marks overwriting earlier ones.
   */
  method NewLocalExtrema(x: seq<real>, window: int, length: int) returns (extrema: array<int>)
    requires Covers(x, window, length)
    ensures fresh(extrema)
    ensures extrema[..] == Extrema(x, window, length)
  {
    extrema := NewZeroed(length);
    var calcWindow := window - 1;
    var i := calcWindow;
    if i >= length {
      NoStepsNoMarks(x, window, length, length);
      return;
    }
    NoStepsNoMarks(x, window, length, i);
    while i < length
      invariant calcWindow <= i <= length
      invariant extrema[..] == Marks(x, window, length, i)
    {
      ApplyStep(extrema, x, window, length, i);
      i := i + 1;
    }
  }

  /** A new array of the given length, every entry zero. */
  method NewZeroed(length: nat) returns (a: array<int>)
    ensures fresh(a) && a[..] == seq(length, k => 0)
  {
    a := new int[length];
    var j := 0;
    while j < length
      invariant 0 <= j <= length
      invariant forall k :: 0 <= k < j ==> a[k] == 0
    {
      a[j] := 0;
      j := j + 1;
    }
  }

  /** Before the first step every entry is zero. */
  lemma NoStepsNoMarks(x: seq<real>, window: int, length: int, n: int)
    requires Covers(x, window, length) && n <= length && n <= window - 1
    ensures Marks(x, window, length, n) == seq(length, k => 0)
  {
  }

  /** One step of the scan, in place. */
  method ApplyStep(extrema: array<int>, x: seq<real>, window: int, length: int, i: int)
    requires Covers(x, window, length) && window - 1 <= i < length
    requires extrema[..] == Marks(x, window, length, i)
    modifies extrema
    ensures extrema[..] == Marks(x, window, length, i + 1)
  {
    var calcWindow := window - 1;
    var roc0 := RateOfChange.Calculate(x, window, i);
    var roc1 := RateOfChange.Calculate(x, window, i - 1);
    var startIndex := i - calcWindow;
    if startIndex < 0 {
      startIndex := 0;
    }
    if roc0 > 0.0 && roc1 <= 0.0 {
      TurnNeedsWindow(x, window, i);
      var minimaIndex := FindMinIndexInWindow(x, startIndex, i);
      extrema[minimaIndex] := -1;
    } else if roc0 <= 0.0 && roc1 > 0.0 {
      TurnNeedsWindow(x, window, i);
      var maximaIndex := FindMaxIndexInWindow(x, startIndex, i);
      extrema[maximaIndex] := 1;
    }
  }

  /** A short window never turns, so nothing is marked. */
  lemma {:induction false} ShortWindowMarksNothing(x: seq<real>, window: int, length: int, n: int)
    requires window < 2 && Covers(x, window, length) && n <= length
    ensures forall k :: 0 <= k < length ==> Marks(x, window, length, n)[k] == 0
    decreases n - window
  {
    if n > window - 1 {
      ShortWindowMarksNothing(x, window, length, n - 1);
    }
  }

  /** The test suite's series, scanned with a window of three over all fourteen values. */
  const ExampleSeries: seq<real> := [1.0, 2.0, 3.0, 2.0, 1.0, 0.5, 1.0, 1.5, 2.0, 3.0, 4.0, 2.0, 1.0, 0.5]

  /** The marks the test expects: a minimum at 0 and 5, a maximum at 2 and 10. */
  const ExampleMarks: seq<int> := [-1, 0, 1, 0, 0, -1, 0, 0, 0, 0, 1, 0, 0, 0]

  /** A step without a turn leaves the marks as they were. */
  lemma NoTurnKeeps(x: seq<real>, window: int, length: int, i: int)
    requires Covers(x, window, length) && window - 1 <= i < length && 0 <= i
    requires !TurnsUp(x, window, i) && !TurnsDown(x, window, i)
    ensures Marks(x, window, length, i + 1) == Marks(x, window, length, i)
  {
  }

  /** A step turning up marks the window minimum with -1. */
  lemma TurnUpMarks(x: seq<real>, window: int, length: int, i: int)
    requires Covers(x, window, length) && window - 1 <= i < length && 0 <= i
    requires TurnsUp(x, window, i) && window >= 2 && i < |x|
    ensures Marks(x, window, length, i + 1) == Marks(x, window, length, i)[MinIndexIn(x, WindowStart(window, i), i) := -1]
  {
    TurnNeedsWindow(x, window, i);
  }

  /** A step turning down marks the window maximum with +1. */
  lemma TurnDownMarks(x: seq<real>, window: int, length: int, i: int)
    requires Covers(x, window, length) && window - 1 <= i < length && 0 <= i
    requires TurnsDown(x, window, i) && !TurnsUp(x, window, i) && window >= 2 && i < |x|
    ensures Marks(x, window, length, i + 1) == Marks(x, window, length, i)[MaxIndexIn(x, WindowStart(window, i), i) := 1]
  {
    TurnNeedsWindow(x, window, i);
  }

  /** Where the rate of change of the test suite's series turns, with a window of three. */
  lemma ExampleTurns(x: seq<real>)
    requires x == ExampleSeries
    ensures TurnsUp(x, 3, 2) && TurnsUp(x, 3, 7)
    ensures TurnsDown(x, 3, 3) && !TurnsUp(x, 3, 3) && TurnsDown(x, 3, 11) && !TurnsUp(x, 3, 11)
    ensures forall i :: i in {4, 5, 6, 8, 9, 10, 12, 13} ==> !TurnsUp(x, 3, i) && !TurnsDown(x, 3, i)
  {
  }

  /** The window minima the turns up pick in the test suite's series. */
  lemma ExampleMinima(x: seq<real>)
    requires x == ExampleSeries
    ensures MinIndexIn(x, 0, 2) == 0 && MinIndexIn(x, 5, 7) == 5
  {
  }

  /** The window maxima the turns down pick in the test suite's series. */
  lemma ExampleMaxima(x: seq<real>)
    requires x == ExampleSeries
    ensures MaxIndexIn(x, 1, 3) == 2 && MaxIndexIn(x, 9, 11) == 10
  {
  }

  /** Steps 2 to 7: minima marked at 0 and 5, the maximum at 2. */
  lemma ExampleFirstTurns(x: seq<real>)
    requires x == ExampleSeries
    ensures Marks(x, 3, 14, 8) == seq(14, k => 0)[0 := -1][2 := 1][5 := -1]
  {
    ExampleTurns(x);
    ExampleMinima(x);
    ExampleMaxima(x);
    NoStepsNoMarks(x, 3, 14, 2);
    TurnUpMarks(x, 3, 14, 2);
    TurnDownMarks(x, 3, 14, 3);
    NoTurnKeeps(x, 3, 14, 4);
    NoTurnKeeps(x, 3, 14, 5);
    NoTurnKeeps(x, 3, 14, 6);
    TurnUpMarks(x, 3, 14, 7);
  }

  /** Steps 8 to 13: the maximum marked at 10. */
  lemma Example(x: seq<real>)
    requires x == ExampleSeries
    ensures Extrema(x, 3, 14) == ExampleMarks
  {
    ExampleTurns(x);
    ExampleMinima(x);
    ExampleMaxima(x);
    ExampleFirstTurns(x);
    NoTurnKeeps(x, 3, 14, 8);
    NoTurnKeeps(x, 3, 14, 9);
    NoTurnKeeps(x, 3, 14, 10);
    TurnDownMarks(x, 3, 14, 11);
    NoTurnKeeps(x, 3, 14, 12);
    NoTurnKeeps(x, 3, 14, 13);
  }
}
