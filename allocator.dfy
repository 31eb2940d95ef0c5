/**
 * The naive allocator: every strategy whose rule holds at an index gets an equal share
 * of the total fraction, capped at the single-position fraction. The account-aware
 * variant keeps only the triggered securities that are already held or that have just
 * been entered (their rule held at the previous index too).
 */
module Allocators {
  import opened Wrappers
  import opened Strategies
  import opened Sums
  import opened Accounts

  /** The caps of the naive allocator, both as fractions of equity. */
  datatype NaiveAllocator = NaiveAllocator(maxSinglePositionFraction: real, maxTotalPositionFraction: real)
  {
    /**
     * The allocation loops: collects the securities of the triggered strategies, then
     * gives each of them the same fraction.
     */
    method Allocate(index: int, strategies: seq<Strategy>) returns (allocations: map<string, real>)
      ensures allocations == Allocation(this, index, strategies)
    {
      var triggers: seq<string> := [];
      allocations := map[];
      for i := 0 to |strategies|
        invariant triggers == Triggers(index, strategies[..i])
      {
        assert strategies[..i + 1][..i] == strategies[..i];
        if strategies[i].rule(index) {
          triggers := triggers + [strategies[i].security];
        }
      }
      assert strategies[..|strategies|] == strategies;
      if |triggers| == 0 {
        return allocations;
      }
      var allocationFraction := maxTotalPositionFraction / |triggers| as real;
      if allocationFraction > maxSinglePositionFraction {
        allocationFraction := maxSinglePositionFraction;
      }
      for j := 0 to |triggers|
        invariant allocations == map s | s in triggers[..j] :: allocationFraction
      {
        assert triggers[..j + 1] == triggers[..j] + [triggers[j]];
        allocations := allocations[triggers[j] := allocationFraction];
      }
      assert triggers[..|triggers|] == triggers;
    }

    /**
     * The account-aware allocation loops: at index 0 the plain allocation; afterwards the
     * triggered securities and the entries among them, then the common fraction for each
     * triggered security that is held or entered.
     */
    method AllocateWithAccount(index: int, strategies: seq<Strategy>, account: Account)
      returns (allocations: map<string, real>)
      ensures allocations == AllocationWithAccount(this, index, strategies, account.positions.Keys)
    {
      if index == 0 {
        allocations := Allocate(index, strategies);
        return;
      }
      var triggers: seq<string> := [];
      var entries: map<string, bool> := map[];
      allocations := map[];
      for i := 0 to |strategies|
        invariant triggers == Triggers(index, strategies[..i])
        invariant entries.Keys == Entries(index, strategies[..i])
      {
        assert strategies[..i + 1][..i] == strategies[..i];
        if strategies[i].rule(index) {
          triggers := triggers + [strategies[i].security];
          if strategies[i].rule(index - 1) {
            entries := entries[strategies[i].security := true];
          }
        }
      }
      assert strategies[..|strategies|] == strategies;
      if |triggers| == 0 {
        return allocations;
      }
      var allocationFraction := maxTotalPositionFraction / |triggers| as real;
      if allocationFraction > maxSinglePositionFraction {
        allocationFraction := maxSinglePositionFraction;
      }
      for j := 0 to |triggers|
        invariant allocations ==
          map s | s in triggers[..j] && (s in account.positions || s in entries) :: allocationFraction
      {
        assert triggers[..j + 1] == triggers[..j] + [triggers[j]];
        var t := triggers[j];
        var hasPosition := account.OpenPosition(t).Some?;
        var isEntry := t in entries;
        if hasPosition || isEntry {
          allocations := allocations[t := allocationFraction];
        }
      }
      assert triggers[..|triggers|] == triggers;
    }
  }

  /**
   * A new naive allocator: each fraction above 1 becomes 1, then a single-position
   * fraction above the total fraction becomes the total fraction.
   */
  function NewNaiveAllocator(maxSingle: real, maxTotal: real): (r: NaiveAllocator)
    ensures r.maxSinglePositionFraction <= r.maxTotalPositionFraction <= 1.0
    ensures r.maxTotalPositionFraction == if maxTotal > 1.0 then 1.0 else maxTotal
    ensures maxSingle <= r.maxTotalPositionFraction ==> r.maxSinglePositionFraction == maxSingle
    ensures maxSingle > r.maxTotalPositionFraction ==> r.maxSinglePositionFraction == r.maxTotalPositionFraction
  {
    var single := if maxSingle > 1.0 then 1.0 else maxSingle;
    var total := if maxTotal > 1.0 then 1.0 else maxTotal;
    var single' := if single > total then total else single;
    NaiveAllocator(single', total)
  }

  /** The securities of the strategies whose rule holds at the index, in strategy order, repeats kept. */
  function Triggers(index: int, strategies: seq<Strategy>): (t: seq<string>)
    ensures |t| <= |strategies|
  {
    if |strategies| == 0 then []
    else
      var last := strategies[|strategies| - 1];
      Triggers(index, strategies[..|strategies| - 1]) + (if last.rule(index) then [last.security] else [])
  }

  /** The securities of the strategies whose rule holds both at the index and at the index before. */
  function Entries(index: int, strategies: seq<Strategy>): set<string>
  {
    if |strategies| == 0 then {}
    else
      var last := strategies[|strategies| - 1];
      Entries(index, strategies[..|strategies| - 1]) +
        (if last.rule(index) && last.rule(index - 1) then {last.security} else {})
  }

  /** The common fraction for n triggers: the total fraction split n ways, capped at the single-position fraction. */
  function Fraction(a: NaiveAllocator, n: nat): real
    requires n > 0
  {
    var f := a.maxTotalPositionFraction / n as real;
    if f > a.maxSinglePositionFraction then a.maxSinglePositionFraction else f
  }

  /** The plain allocation: nothing without triggers, otherwise the common fraction for every triggered security. */
  function Allocation(a: NaiveAllocator, index: int, strategies: seq<Strategy>): map<string, real>
  {
    var t := Triggers(index, strategies);
    if |t| == 0 then map[]
    else map s | s in t :: Fraction(a, |t|)
  }

  /**
   * The account-aware allocation, given the securities with an open position: the plain
   * allocation at index 0, otherwise the common fraction (still over all triggers) for each
   * triggered security that is held or whose rule also held at the previous index.
   */
  function AllocationWithAccount(a: NaiveAllocator, index: int, strategies: seq<Strategy>, held: set<string>)
    : map<string, real>
  {
    if index == 0 then Allocation(a, index, strategies)
    else
      var t := Triggers(index, strategies);
      if |t| == 0 then map[]
      else map s | s in t && (s in held || s in Entries(index, strategies)) :: Fraction(a, |t|)
  }

  /** Whether some strategy for the security has its rule satisfied at the index. */
  ghost predicate Triggered(index: int, strategies: seq<Strategy>, s: string)
  {
    exists i :: 0 <= i < |strategies| && strategies[i].security == s && strategies[i].rule(index)
  }

  /** A security is among the triggers exactly when one of its strategies is satisfied. */
  lemma {:induction false} TriggersMeaning(index: int, strategies: seq<Strategy>, s: string)
    ensures s in Triggers(index, strategies) <==> Triggered(index, strategies, s)
    decreases |strategies|
  {
    if |strategies| > 0 {
      var n := |strategies| - 1;
      var init := strategies[..n];
      TriggersMeaning(index, init, s);
      if Triggered(index, strategies, s) {
        var i :| 0 <= i < |strategies| && strategies[i].security == s && strategies[i].rule(index);
        if i < n {
          assert init[i] == strategies[i];
        }
      }
      if Triggered(index, init, s) {
        var i :| 0 <= i < |init| && init[i].security == s && init[i].rule(index);
        assert strategies[i] == init[i];
      }
    }
  }

  /** A security is among the entries exactly when one of its strategies holds at the index and the one before. */
  lemma {:induction false} EntriesMeaning(index: int, strategies: seq<Strategy>, s: string)
    ensures s in Entries(index, strategies) <==>
      (exists i :: 0 <= i < |strategies| && strategies[i].security == s
                   && strategies[i].rule(index) && strategies[i].rule(index - 1))
    decreases |strategies|
  {
    if |strategies| > 0 {
      var n := |strategies| - 1;
      var init := strategies[..n];
      EntriesMeaning(index, init, s);
      if s in Entries(index, init) {
        var i :| 0 <= i < |init| && init[i].security == s && init[i].rule(index) && init[i].rule(index - 1);
        assert strategies[i] == init[i];
      }
      if (exists i :: 0 <= i < |strategies| && strategies[i].security == s
                      && strategies[i].rule(index) && strategies[i].rule(index - 1)) {
        var i :| 0 <= i < |strategies| && strategies[i].security == s
          && strategies[i].rule(index) && strategies[i].rule(index - 1);
        if i < n {
          assert init[i] == strategies[i];
        }
      }
    }
  }

  /**
   * The common fraction is capped at the single-position fraction and takes at most the
   * total fraction over the n triggers; one of the two bounds is met exactly.
   */
  lemma FractionBounds(a: NaiveAllocator, n: nat)
    requires n > 0
    ensures Fraction(a, n) <= a.maxSinglePositionFraction
    ensures Fraction(a, n) * n as real <= a.maxTotalPositionFraction
    ensures Fraction(a, n) == a.maxSinglePositionFraction || Fraction(a, n) * n as real == a.maxTotalPositionFraction
  {
    var f := a.maxTotalPositionFraction / n as real;
    assert f * n as real == a.maxTotalPositionFraction;
    if f > a.maxSinglePositionFraction {
      assert a.maxSinglePositionFraction * n as real <= f * n as real;
    }
  }

  /** The plain allocation holds exactly the triggered securities. */
  lemma AllocationKeys(a: NaiveAllocator, index: int, strategies: seq<Strategy>, s: string)
    ensures s in Allocation(a, index, strategies) <==> Triggered(index, strategies, s)
  {
    TriggersMeaning(index, strategies, s);
  }

  /**
   * Every security in the plain allocation gets the same fraction: the common fraction
   * for the number of triggers, repeats included.
   */
  lemma AllocationFractions(a: NaiveAllocator, index: int, strategies: seq<Strategy>, s: string)
    requires s in Allocation(a, index, strategies)
    ensures |Triggers(index, strategies)| > 0
    ensures Allocation(a, index, strategies)[s] == Fraction(a, |Triggers(index, strategies)|)
  {
  }

  /** Without any triggered strategy nothing is allocated. */
  lemma NoTriggersNoAllocation(a: NaiveAllocator, index: int, strategies: seq<Strategy>)
    requires forall i :: 0 <= i < |strategies| ==> !strategies[i].rule(index)
    ensures Allocation(a, index, strategies) == map[]
  {
    if |Triggers(index, strategies)| > 0 {
      var s := Triggers(index, strategies)[0];
      TriggersMeaning(index, strategies, s);
    }
  }

  /** A sequence has at least as many entries as it has distinct values. */
  lemma {:induction false} DistinctAtMostLength(t: seq<string>)
    ensures |set s | s in t| <= |t|
  {
    if |t| > 0 {
      var n := |t| - 1;
      DistinctAtMostLength(t[..n]);
      assert (set s | s in t) == (set s | s in t[..n]) + {t[n]} by {
        forall s | s in t
          ensures s in t[..n] || s == t[n]
        {
          var i :| 0 <= i < |t| && t[i] == s;
          if i < n {
            assert t[..n][i] == s;
          }
        }
      }
    }
  }

  /**
   * With a nonnegative total fraction, the fractions handed out add up to at most the
   * total fraction: every one of at most n distinct securities gets at most total/n.
   */
  lemma AllocationWithinTotal(a: NaiveAllocator, index: int, strategies: seq<Strategy>)
    requires a.maxTotalPositionFraction >= 0.0
    ensures SumValues(Allocation(a, index, strategies), Allocation(a, index, strategies).Keys)
      <= a.maxTotalPositionFraction
  {
    var r := Allocation(a, index, strategies);
    var t := Triggers(index, strategies);
    if |t| == 0 {
      assert r.Keys == {};
    } else {
      var n := |t|;
      assert r.Keys == set s | s in t;
      DistinctAtMostLength(t);
      FractionBounds(a, n);
      EqualSharesWithinTotal(r, Fraction(a, n), n, a.maxTotalPositionFraction);
    }
  }

  /** At most n equal shares f with f * n <= total and total >= 0 add up to at most total. */
  lemma EqualSharesWithinTotal(r: map<string, real>, f: real, n: nat, total: real)
    requires forall s :: s in r ==> r[s] == f
    requires |r.Keys| <= n && total >= 0.0
    requires f * n as real <= total
    ensures SumValues(r, r.Keys) <= total
  {
    SumConstant(r, r.Keys, f);
    BoundedTotal(|r.Keys|, n, f, total);
  }

  /** d copies of a value f with f * n <= total, d <= n and total >= 0 add up to at most total. */
  lemma BoundedTotal(d: nat, n: nat, f: real, total: real)
    requires d <= n && total >= 0.0
    requires f * n as real <= total
    ensures d as real * f <= total
  {
    if f >= 0.0 {
      assert d as real * f <= n as real * f;
    } else {
      assert d as real * f <= 0.0;
    }
  }

  /** At index 0 the account-aware allocation is the plain one. */
  lemma WithAccountAtFirstIndex(a: NaiveAllocator, strategies: seq<Strategy>, held: set<string>)
    ensures AllocationWithAccount(a, 0, strategies, held) == Allocation(a, 0, strategies)
  {
  }

  /**
   * After the first index, a security is in the account-aware allocation exactly when it
   * is triggered and either held or entered (its rule held at the previous index too),
   * and it gets the same fraction as in the plain allocation.
   */
  lemma WithAccountMeaning(a: NaiveAllocator, index: int, strategies: seq<Strategy>, held: set<string>, s: string)
    requires index != 0
    ensures s in AllocationWithAccount(a, index, strategies, held) <==>
      Triggered(index, strategies, s) && (s in held || s in Entries(index, strategies))
    ensures s in AllocationWithAccount(a, index, strategies, held) ==>
      s in Allocation(a, index, strategies) &&
      AllocationWithAccount(a, index, strategies, held)[s] == Allocation(a, index, strategies)[s]
  {
    TriggersMeaning(index, strategies, s);
  }

  /** The account-aware allocation is a part of the plain one at the same index, with the same fractions. */
  lemma WithAccountIsSubAllocation(a: NaiveAllocator, index: int, strategies: seq<Strategy>, held: set<string>)
    ensures var w := AllocationWithAccount(a, index, strategies, held);
      var p := Allocation(a, index, strategies);
      w.Keys <= p.Keys && forall s :: s in w ==> w[s] == p[s]
  {
  }

  /** The test suite's allocator: caps 0.4 and 1.0, over three strategies with the test suite's signals. */
  const ExampleStrategies := [
    Strategy("ONE", [], SignalRule([true, true, true, false])),
    Strategy("TWO", [], SignalRule([false, true, true, false])),
    Strategy("THREE", [], SignalRule([false, true, false, false]))]

  /**
   * The test suite's allocations: ONE alone at 0.4; all three at a third each; ONE and TWO at
   * the 0.4 cap; nothing.
   */
  lemma Example(strategies: seq<Strategy>)
    requires strategies == ExampleStrategies
    ensures Allocation(NewNaiveAllocator(0.4, 1.0), 0, strategies) == map["ONE" := 0.4]
    ensures Allocation(NewNaiveAllocator(0.4, 1.0), 1, strategies)
      == map["ONE" := 1.0 / 3.0, "TWO" := 1.0 / 3.0, "THREE" := 1.0 / 3.0]
    ensures Allocation(NewNaiveAllocator(0.4, 1.0), 2, strategies) == map["ONE" := 0.4, "TWO" := 0.4]
    ensures Allocation(NewNaiveAllocator(0.4, 1.0), 3, strategies) == map[]
  {
    assert strategies[..2][..1] == strategies[..1];
    assert strategies[..3][..2] == strategies[..2];
    assert strategies[..3] == strategies;
    assert Triggers(0, strategies) == ["ONE"];
    assert Triggers(1, strategies) == ["ONE", "TWO", "THREE"];
    assert Triggers(2, strategies) == ["ONE", "TWO"];
    assert Triggers(3, strategies) == [];
  }

  /** The test suite's constructor calls: caps within bounds are kept, larger ones clamped. */
  lemma ConstructorExamples()
    ensures NewNaiveAllocator(0.2, 1.0) == NaiveAllocator(0.2, 1.0)
    ensures NewNaiveAllocator(0.9, 0.8) == NaiveAllocator(0.8, 0.8)
    ensures NewNaiveAllocator(1.1, 1.0) == NaiveAllocator(1.0, 1.0)
    ensures NewNaiveAllocator(0.3, 1.8) == NaiveAllocator(0.3, 1.0)
  {
  }

  /**
   * The fractions need not add up to one: with a single-position cap of 0.4, the one
   * security triggered at the first index of the test suite gets 0.4 and nothing else is allocated.
   */
  lemma FractionsNeedNotAddUpToOne(strategies: seq<Strategy>)
    requires strategies == ExampleStrategies
    ensures var r := Allocation(NewNaiveAllocator(0.4, 1.0), 0, strategies);
      SumValues(r, r.Keys) == 0.4
  {
    Example(strategies);
    var r := map["ONE" := 0.4];
    SumPick(r, r.Keys, "ONE");
    assert r.Keys - {"ONE"} == {};
  }
}
