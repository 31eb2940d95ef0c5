/**
 * Trade plans: the orders that move an account from its current holdings to target
 * allocations (fractions of equity per security). Each allocated security gets the
 * difference between its target share count and its holding; every held security
 * the allocation leaves without a nonzero difference is sold in full. All SELL
 * orders come before all BUY orders; within each group the order is unspecified.
 */
module TradePlans {
  import opened Wrappers
  import opened Orders
  import opened Positions
  import opened FinUtils
  import opened Accounts
  import opened Sums

  /** Shares held of a security: the position's amount, zero without a position. */
  function Held(h: map<string, PositionState>, s: string): real {
    if s in h then h[s].amount else 0.0
  }

  /** The whole number of shares the allocated fraction of the equity buys at the security's price. */
  function Target(alloc: map<string, real>, pricing: map<string, real>, equity: real, s: string): real
    requires s in alloc && s in pricing
  {
    CashToShares(pricing[s], alloc[s] * equity)
  }

  /** The signed share difference the allocation loop computes for one allocated security. */
  function Delta(alloc: map<string, real>, pricing: map<string, real>, equity: real,
                 h: map<string, PositionState>, s: string): real
    requires s in alloc && s in pricing
  {
    Target(alloc, pricing, equity, s) - Held(h, s)
  }

  /** The differences the allocation loop records for the given securities; zero differences are dropped. */
  function AllocationDeltas(alloc: map<string, real>, pricing: map<string, real>, equity: real,
                            h: map<string, PositionState>, keys: set<string>): map<string, real>
    requires keys <= alloc.Keys && keys <= pricing.Keys
  {
    map s | s in keys && Delta(alloc, pricing, equity, h, s) != 0.0 :: Delta(alloc, pricing, equity, h, s)
  }

  /** Recording one more allocated security adds its difference when it is nonzero. */
  lemma AllocationDeltasStep(alloc: map<string, real>, pricing: map<string, real>, equity: real,
                             h: map<string, PositionState>, keys: set<string>, s: string)
    requires keys <= alloc.Keys && keys <= pricing.Keys && s in alloc && s in pricing && s !in keys
    ensures var d := Delta(alloc, pricing, equity, h, s);
      AllocationDeltas(alloc, pricing, equity, h, keys + {s}) ==
        if d != 0.0 then AllocationDeltas(alloc, pricing, equity, h, keys)[s := d]
        else AllocationDeltas(alloc, pricing, equity, h, keys)
  {
  }

  /** Adds minus the held amount for each of the given held securities that has no difference yet. */
  function Liquidations(d: map<string, real>, h: map<string, PositionState>, keys: set<string>): map<string, real>
    requires keys <= h.Keys
  {
    map s | s in d.Keys + keys :: if s in d then d[s] else -h[s].amount
  }

  /** Visiting one more held security adds its liquidation unless it already has a difference. */
  lemma LiquidationsStep(d: map<string, real>, h: map<string, PositionState>, keys: set<string>, s: string)
    requires keys <= h.Keys && s in h
    ensures Liquidations(d, h, keys + {s}) ==
      if s in Liquidations(d, h, keys) then Liquidations(d, h, keys)
      else Liquidations(d, h, keys)[s := -h[s].amount]
  {
  }

  /** All share differences of a trade plan. */
  function ShareDiffs(alloc: map<string, real>, pricing: map<string, real>, equity: real,
                      h: map<string, PositionState>): map<string, real>
    requires alloc.Keys <= pricing.Keys
  {
    Liquidations(AllocationDeltas(alloc, pricing, equity, h, alloc.Keys), h, h.Keys)
  }

  /** An allocated security keeps a difference only when it is nonzero. */
  predicate Rebalanced(alloc: map<string, real>, pricing: map<string, real>, equity: real,
                       h: map<string, PositionState>, s: string)
    requires alloc.Keys <= pricing.Keys
  {
    s in alloc && Delta(alloc, pricing, equity, h, s) != 0.0
  }

  /**
   * The meaning of the share differences: the securities with a difference are exactly
   * the allocated ones with a nonzero difference plus every held one; applying the
   * difference to the holding reaches the target for the former and zero for the rest,
   * which includes a held security whose target equals its holding.
   */
  lemma ShareDiffsMeaning(alloc: map<string, real>, pricing: map<string, real>, equity: real,
                          h: map<string, PositionState>)
    requires alloc.Keys <= pricing.Keys
    ensures var d := ShareDiffs(alloc, pricing, equity, h);
      && (forall s :: s in d <==> Rebalanced(alloc, pricing, equity, h, s) || s in h)
      && (forall s :: s in d ==>
            Held(h, s) + d[s] ==
              if Rebalanced(alloc, pricing, equity, h, s) then Target(alloc, pricing, equity, s) else 0.0)
  {
  }

  /**
   * The literal reading of the liquidation loop: a held security allocated exactly at
   * its current holding gets a SELL of its whole amount.
   */
  lemma ZeroDeltaIsLiquidated(alloc: map<string, real>, pricing: map<string, real>, equity: real,
                              h: map<string, PositionState>, s: string)
    requires alloc.Keys <= pricing.Keys && s in alloc && s in h
    requires Target(alloc, pricing, equity, s) == h[s].amount
    ensures s in ShareDiffs(alloc, pricing, equity, h)
    ensures ShareDiffs(alloc, pricing, equity, h)[s] == -h[s].amount
  {
  }

  /** The order for one share difference: SELL when negative, BUY otherwise, of its absolute size. */
  function OrderFor(d: map<string, real>, pricing: map<string, real>, s: string): (o: Order)
    requires s in d
    ensures o.security == s && o.amount >= 0.0
    ensures (if o.side == Sell then -o.amount else o.amount) == d[s]
    ensures d[s] != 0.0 ==> o.amount > 0.0
  {
    var diff := d[s];
    Order(if diff < 0.0 then Sell else Buy, s,
          if s in pricing then pricing[s] else 0.0,
          if diff < 0.0 then -diff else diff)
  }

  /** The securities of a list of orders. */
  ghost function Secs(xs: seq<Order>): set<string> {
    set i | 0 <= i < |xs| :: xs[i].security
  }

  /** No security is ordered twice. */
  ghost predicate DistinctSecs(xs: seq<Order>) {
    forall i, j :: 0 <= i < j < |xs| ==> xs[i].security != xs[j].security
  }

  /** Every SELL precedes every BUY. */
  predicate SellsFirst(xs: seq<Order>) {
    forall i, j :: 0 <= i < j < |xs| && xs[i].side == Buy ==> xs[j].side == Buy
  }

  /**
   * A plan for the share differences: one order per security with a difference, each
   * the order for that difference, all SELLs first.
   */
  ghost predicate IsTradePlan(plan: seq<Order>, d: map<string, real>, pricing: map<string, real>) {
    && Secs(plan) == d.Keys
    && DistinctSecs(plan)
    && (forall i :: 0 <= i < |plan| ==> plan[i].security in d && plan[i] == OrderFor(d, pricing, plan[i].security))
    && SellsFirst(plan)
  }

  lemma SecsAppend(xs: seq<Order>, o: Order)
    ensures Secs(xs + [o]) == Secs(xs) + {o.security}
  {
    var ys := xs + [o];
    assert ys[|xs|].security == o.security;
    forall s | s in Secs(xs) ensures s in Secs(ys) {
      var i :| 0 <= i < |xs| && xs[i].security == s;
      assert ys[i] == xs[i];
    }
  }

  lemma SecsConcat(xs: seq<Order>, ys: seq<Order>)
    ensures Secs(xs + ys) == Secs(xs) + Secs(ys)
  {
    var zs := xs + ys;
    forall s | s in Secs(xs) ensures s in Secs(zs) {
      var i :| 0 <= i < |xs| && xs[i].security == s;
      assert zs[i] == xs[i];
    }
    forall s | s in Secs(ys) ensures s in Secs(zs) {
      var i :| 0 <= i < |ys| && ys[i].security == s;
      assert zs[|xs| + i] == ys[i];
    }
  }

  /** A list without repeated securities has as many orders as securities. */
  lemma {:induction false} DistinctSize(xs: seq<Order>)
    requires DistinctSecs(xs)
    ensures |Secs(xs)| == |xs|
  {
    if xs != [] {
      var init := xs[..|xs| - 1];
      assert xs == init + [xs[|xs| - 1]];
      DistinctSize(init);
      SecsAppend(init, xs[|xs| - 1]);
      assert xs[|xs| - 1].security !in Secs(init);
    }
  }

  /** A plan has exactly one order per security with a share difference. */
  lemma PlanSize(plan: seq<Order>, d: map<string, real>, pricing: map<string, real>)
    requires IsTradePlan(plan, d, pricing)
    ensures |plan| == |d|
  {
    DistinctSize(plan);
  }

  /** Any two plans for the same differences hold the same orders; only their order can differ. */
  lemma PlansAgree(a: seq<Order>, b: seq<Order>, d: map<string, real>, pricing: map<string, real>)
    requires IsTradePlan(a, d, pricing) && IsTradePlan(b, d, pricing)
    ensures |a| == |b|
    ensures forall o :: o in a <==> o in b
  {
    PlanSize(a, d, pricing);
    PlanSize(b, d, pricing);
    forall o | o in a ensures o in b {
      var i :| 0 <= i < |a| && a[i] == o;
      assert o.security in Secs(b);
      var j :| 0 <= j < |b| && b[j].security == o.security;
    }
    forall o | o in b ensures o in a {
      var i :| 0 <= i < |b| && b[i] == o;
      assert o.security in Secs(a);
      var j :| 0 <= j < |a| && a[j].security == o.security;
    }
  }

  /**
   * Executing an order of a plan moves the holding of its security to the target, or
   * to zero for a security sold off; and with positive holdings every order has a
   * positive amount.
   */
  lemma PlanReachesTargets(plan: seq<Order>, alloc: map<string, real>, pricing: map<string, real>,
                           equity: real, h: map<string, PositionState>)
    requires alloc.Keys <= pricing.Keys
    requires IsTradePlan(plan, ShareDiffs(alloc, pricing, equity, h), pricing)
    ensures forall i :: 0 <= i < |plan| ==>
      Held(h, plan[i].security) + (if plan[i].side == Sell then -plan[i].amount else plan[i].amount) ==
        if Rebalanced(alloc, pricing, equity, h, plan[i].security)
        then Target(alloc, pricing, equity, plan[i].security) else 0.0
    ensures AllPositive(h) ==> forall i :: 0 <= i < |plan| ==> plan[i].amount > 0.0
  {
    ShareDiffsMeaning(alloc, pricing, equity, h);
  }

  /** The test suite's case "add one, sell one, and add to one": two targets, three prices, two positions held. */
  const MixedAllocations: map<string, real> := map["ONE" := 0.6, "TWO" := 0.3]
  const MixedPricing: map<string, real> := map["ONE" := 1.0, "TWO" := 2.0, "THREE" := 3.0]
  const MixedHoldings: map<string, PositionState> :=
    map["ONE" := PositionState("ONE", Buy, 5.0, 1.0, 1.0), "THREE" := PositionState("THREE", Buy, 1.0, 3.0, 3.0)]

  /** Two in cash, five ONE at one and one THREE at three make an equity of ten. */
  lemma MixedEquity(trades: seq<Order>)
    ensures EquityOf(AccountState(2.0, MixedHoldings, trades)) == 10.0
  {
    var m := MarketValues(MixedHoldings);
    assert MixedHoldings.Keys == {"ONE", "THREE"};
    SumPick(m, {"ONE", "THREE"}, "ONE");
    assert {"ONE", "THREE"} - {"ONE"} == {"THREE"};
    SumPick(m, {"THREE"}, "THREE");
    assert {"THREE"} - {"THREE"} == {};
  }

  /** At equity ten the case buys one ONE (six wanted, five held), one TWO (1.5 rounded down) and sells the THREE. */
  lemma MixedShareDiffs()
    ensures ShareDiffs(MixedAllocations, MixedPricing, 10.0, MixedHoldings) == MixedDiffs
  {
    Exact(1.0, 0.6 * 10.0, 6.0);
    Exact(2.0, 0.3 * 10.0, 1.0);
    var d := ShareDiffs(MixedAllocations, MixedPricing, 10.0, MixedHoldings);
    ShareDiffsMeaning(MixedAllocations, MixedPricing, 10.0, MixedHoldings);
    assert Rebalanced(MixedAllocations, MixedPricing, 10.0, MixedHoldings, "ONE");
    assert Rebalanced(MixedAllocations, MixedPricing, 10.0, MixedHoldings, "TWO");
    assert !Rebalanced(MixedAllocations, MixedPricing, 10.0, MixedHoldings, "THREE");
    assert d.Keys == {"ONE", "TWO", "THREE"};
  }

  /** The share differences of that case at its equity of ten. */
  const MixedDiffs: map<string, real> := map["ONE" := 1.0, "TWO" := 1.0, "THREE" := -1.0]

  /**
   * Every plan for that case sells the THREE first and then buys one ONE at one and
   * one TWO at two, in either order.
   */
  lemma MixedPlanExample(plan: seq<Order>, trades: seq<Order>)
    requires IsTradePlan(plan, ShareDiffs(MixedAllocations, MixedPricing,
                                          EquityOf(AccountState(2.0, MixedHoldings, trades)), MixedHoldings), MixedPricing)
    ensures |plan| == 3 && plan[0] == Order(Sell, "THREE", 3.0, 1.0)
    ensures plan[1..] == [Order(Buy, "ONE", 1.0, 1.0), Order(Buy, "TWO", 2.0, 1.0)]
         || plan[1..] == [Order(Buy, "TWO", 2.0, 1.0), Order(Buy, "ONE", 1.0, 1.0)]
  {
    MixedEquity(trades);
    MixedShareDiffs();
    MixedPlanOrders(plan);
  }

  /** A plan for the differences of that case: the one SELL leads, the two BUYs follow. */
  lemma MixedPlanOrders(plan: seq<Order>)
    requires IsTradePlan(plan, MixedDiffs, MixedPricing)
    ensures |plan| == 3 && plan[0] == Order(Sell, "THREE", 3.0, 1.0)
    ensures plan[1..] == [Order(Buy, "ONE", 1.0, 1.0), Order(Buy, "TWO", 2.0, 1.0)]
         || plan[1..] == [Order(Buy, "TWO", 2.0, 1.0), Order(Buy, "ONE", 1.0, 1.0)]
  {
    PlanSize(plan, MixedDiffs, MixedPricing);
    assert |MixedDiffs| == 3 by {
      assert MixedDiffs.Keys == {"ONE", "TWO", "THREE"};
    }
    assert OrderFor(MixedDiffs, MixedPricing, "THREE") == Order(Sell, "THREE", 3.0, 1.0);
    assert OrderFor(MixedDiffs, MixedPricing, "ONE") == Order(Buy, "ONE", 1.0, 1.0);
    assert OrderFor(MixedDiffs, MixedPricing, "TWO") == Order(Buy, "TWO", 2.0, 1.0);
    assert "THREE" in Secs(plan);
    var k :| 0 <= k < 3 && plan[k].security == "THREE";
    assert plan[k].side == Sell;
    assert plan[0].side == Sell;
    assert plan[0].security == "THREE";
    assert plan[1].security != plan[2].security;
  }

  /** The test suite's case "add single position": half of ten in cash at price one buys five ONE. */
  lemma SinglePositionPlan(plan: seq<Order>, trades: seq<Order>)
    requires IsTradePlan(plan, ShareDiffs(map["ONE" := 0.5], map["ONE" := 1.0],
                                          EquityOf(AccountState(10.0, map[], trades)), map[]), map["ONE" := 1.0])
    ensures plan == [Order(Buy, "ONE", 1.0, 5.0)]
  {
    var alloc := map["ONE" := 0.5];
    var pricing := map["ONE" := 1.0];
    var h: map<string, PositionState> := map[];
    assert EquityOf(AccountState(10.0, h, trades)) == 10.0 by {
      assert MarketValues(h).Keys == {};
    }
    Exact(1.0, 0.5 * 10.0, 5.0);
    ShareDiffsMeaning(alloc, pricing, 10.0, h);
    var d := ShareDiffs(alloc, pricing, 10.0, h);
    assert Rebalanced(alloc, pricing, 10.0, h, "ONE");
    assert d.Keys == {"ONE"} && d["ONE"] == 5.0;
    PlanSize(plan, d, pricing);
    assert plan[0].security in Secs(plan);
  }

  /** The test suite's case "missing pricing data": TWO is allocated but has no price. */
  method MissingPricingExample() returns (r: Result<seq<Order>>)
    ensures r == Failure(MissingPricingData)
  {
    var account := new Account();
    r := CreateTradePlan(map["ONE" := 0.5, "TWO" := 0.4], map["ONE" := 1.0], account);
    assert "TWO" in map["ONE" := 0.5, "TWO" := 0.4].Keys;
  }

  /**
   * Builds the trade plan for the target allocations against the account. Fails with
   * MissingPricingData when an allocated security has no price; neither the account
   * nor the inputs change.
   */
  method CreateTradePlan(allocations: map<string, real>, pricing: map<string, real>, account: Account)
    returns (r: Result<seq<Order>>)
    requires account.Valid()
    ensures r.Failure? <==> !(allocations.Keys <= pricing.Keys)
    ensures r.Failure? ==> r.error == MissingPricingData
    ensures r.Success? ==>
      IsTradePlan(r.value, ShareDiffs(allocations, pricing, EquityOf(account.State()), account.Holdings()), pricing)
  {
    var deltas := AllocationDiffs(allocations, pricing, account);
    if deltas.Failure? {
      return Failure(deltas.error);
    }
    var shareDiffs := AddLiquidations(deltas.value, account);
    var plan := SplitSellsAndBuys(shareDiffs, pricing);
    assert shareDiffs == ShareDiffs(allocations, pricing, EquityOf(account.State()), account.Holdings());
    return Success(plan);
  }

  /**
   * The allocation loop: the nonzero share difference of each allocated security,
   * failing as soon as an allocated security has no price.
   */
  method AllocationDiffs(allocations: map<string, real>, pricing: map<string, real>, account: Account)
    returns (r: Result<map<string, real>>)
    requires account.Valid()
    ensures r.Failure? <==> !(allocations.Keys <= pricing.Keys)
    ensures r.Failure? ==> r.error == MissingPricingData
    ensures r.Success? ==>
      r.value == AllocationDeltas(allocations, pricing, EquityOf(account.State()), account.Holdings(), allocations.Keys)
  {
    ghost var equity := EquityOf(account.State());
    ghost var h := account.Holdings();
    var shareDiffs: map<string, real> := map[];
    var todo := allocations.Keys;
    ghost var done: set<string> := {};
    while todo != {}
      invariant todo !! done && todo + done == allocations.Keys
      invariant done <= pricing.Keys
      invariant shareDiffs == AllocationDeltas(allocations, pricing, equity, h, done)
      decreases todo
    {
      var security :| security in todo;
      if security !in pricing {
        return Failure(MissingPricingData);
      }
      var allocShares := SecurityDiff(allocations, pricing, account, security);
      AllocationDeltasStep(allocations, pricing, equity, h, done, security);
      if allocShares != 0.0 {
        shareDiffs := shareDiffs[security := allocShares];
      }
      done := done + {security};
      todo := todo - {security};
    }
    return Success(shareDiffs);
  }

  /** One step of the allocation loop: the target share count less the shares held. */
  method SecurityDiff(allocations: map<string, real>, pricing: map<string, real>, account: Account, security: string)
    returns (d: real)
    requires account.Valid() && security in allocations && security in pricing
    ensures d == Delta(allocations, pricing, EquityOf(account.State()), account.Holdings(), security)
  {
    var e := account.Equity();
    // the allocated cash value, allocations[security] * e, converted to whole shares
    d := Target(allocations, pricing, e, security);
    var position := account.OpenPosition(security);
    if position.Some? {
      d := d - position.value.amount;
    }
  }

  /** The liquidation loop: minus the held amount for every held security without a difference. */
  method AddLiquidations(deltas: map<string, real>, account: Account) returns (shareDiffs: map<string, real>)
    requires account.Valid()
    ensures shareDiffs == Liquidations(deltas, account.Holdings(), account.Holdings().Keys)
  {
    ghost var h := account.Holdings();
    shareDiffs := deltas;
    var held := account.positions.Keys;
    while held != {}
      invariant held <= account.positions.Keys
      invariant shareDiffs == Liquidations(deltas, h, account.positions.Keys - held)
      decreases held
    {
      var security :| security in held;
      ghost var done := account.positions.Keys - held;
      LiquidationsStep(deltas, h, done, security);
      if security !in shareDiffs {
        shareDiffs := shareDiffs[security := 0.0 - account.positions[security].amount];
      }
      assert account.positions.Keys - (held - {security}) == done + {security};
      held := held - {security};
    }
    assert account.positions.Keys - held == h.Keys;
  }

  /** A list of orders of one side, one per security, each the order for its share difference. */
  ghost predicate OneSided(xs: seq<Order>, side: Side, d: map<string, real>, pricing: map<string, real>) {
    && DistinctSecs(xs)
    && forall i :: 0 <= i < |xs| ==>
         xs[i].side == side && xs[i].security in d && xs[i] == OrderFor(d, pricing, xs[i].security)
  }

  /** Appending the order of a security not yet listed keeps a one-sided list. */
  lemma OneSidedAppend(xs: seq<Order>, side: Side, d: map<string, real>, pricing: map<string, real>, s: string)
    requires OneSided(xs, side, d, pricing) && s in d && s !in Secs(xs)
    requires OrderFor(d, pricing, s).side == side
    ensures OneSided(xs + [OrderFor(d, pricing, s)], side, d, pricing)
    ensures Secs(xs + [OrderFor(d, pricing, s)]) == Secs(xs) + {s}
  {
    var o := OrderFor(d, pricing, s);
    SecsAppend(xs, o);
    var ys := xs + [o];
    forall i, j | 0 <= i < j < |ys| ensures ys[i].security != ys[j].security {
      if j == |xs| {
        assert ys[i].security in Secs(xs);
      }
    }
  }

  /** SELLs for some securities followed by BUYs for the others form a trade plan. */
  lemma JoinPlan(sells: seq<Order>, buys: seq<Order>, d: map<string, real>, pricing: map<string, real>)
    requires OneSided(sells, Sell, d, pricing) && OneSided(buys, Buy, d, pricing)
    requires Secs(sells) !! Secs(buys) && Secs(sells) + Secs(buys) == d.Keys
    ensures IsTradePlan(sells + buys, d, pricing)
  {
    SecsConcat(sells, buys);
    var plan := sells + buys;
    forall i | 0 <= i < |plan|
      ensures plan[i] == if i < |sells| then sells[i] else buys[i - |sells|]
    {
    }
    forall i, j | 0 <= i < j < |plan| ensures plan[i].security != plan[j].security {
      if i < |sells| && j >= |sells| {
        assert plan[i].security in Secs(sells);
        assert plan[j].security in Secs(buys);
      }
    }
  }

  /** The order loop: one order per share difference, the SELLs gathered before the BUYs. */
  method SplitSellsAndBuys(shareDiffs: map<string, real>, pricing: map<string, real>) returns (plan: seq<Order>)
    ensures IsTradePlan(plan, shareDiffs, pricing)
  {
    var sells: seq<Order> := [];
    var buys: seq<Order> := [];
    var rest := shareDiffs.Keys;
    while rest != {}
      invariant rest <= shareDiffs.Keys
      invariant Secs(sells) + Secs(buys) == shareDiffs.Keys - rest
      invariant Secs(sells) !! Secs(buys)
      invariant OneSided(sells, Sell, shareDiffs, pricing) && OneSided(buys, Buy, shareDiffs, pricing)
      decreases rest
    {
      var security :| security in rest;
      var shareDiff := shareDiffs[security];
      var orderSide := Buy;
      if shareDiff < 0.0 {
        orderSide := Sell;
      }
      var price := if security in pricing then pricing[security] else 0.0;
      var order := Order(orderSide, security, price, if shareDiff < 0.0 then -shareDiff else shareDiff);
      assert order == OrderFor(shareDiffs, pricing, security);
      if orderSide == Buy {
        OneSidedAppend(buys, Buy, shareDiffs, pricing, security);
        buys := buys + [order];
      } else {
        OneSidedAppend(sells, Sell, shareDiffs, pricing, security);
        sells := sells + [order];
      }
      rest := rest - {security};
    }
    JoinPlan(sells, buys, shareDiffs, pricing);
    plan := sells + buys;
  }
}
