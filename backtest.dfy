/**
 * The backtest: replays a set of strategies candle by candle against an account. At
 * every tick it prices each strategy's security at that candle's close, allocates with
 * the naive allocator, turns the allocation into a trade plan, executes the plan's
 * orders and logs an account snapshot with the tick's pricing.
 */
module Backtests {
  import opened Wrappers
  import opened Orders
  import opened Histories
  import opened Accounts
  import opened TradePlans
  import opened Strategies
  import opened Allocators

  /** Every strategy has a candle at the tick. */
  predicate HasCandle(strategies: seq<Strategy>, tick: int)
  {
    forall i :: 0 <= i < |strategies| ==> 0 <= tick < |strategies[i].candles|
  }

  /** The strategies all have as many candles as the first one. */
  predicate Normalized(strategies: seq<Strategy>)
  {
    |strategies| > 0 && forall i :: 0 <= i < |strategies| ==> |strategies[i].candles| == |strategies[0].candles|
  }

  /**
   * The pricing of a tick over the first n strategies: each strategy's security at the
   * close of its candle; when two strategies share a security the later one's close is kept.
   */
  function PricingOf(strategies: seq<Strategy>, tick: int, n: int): map<string, real>
    requires HasCandle(strategies, tick) && 0 <= n <= |strategies|
  {
    if n == 0 then map[]
    else PricingOf(strategies, tick, n - 1)[strategies[n - 1].security := strategies[n - 1].candles[tick].close]
  }

  /** The pricing of a tick over all the strategies. */
  function PricingAt(strategies: seq<Strategy>, tick: int): map<string, real>
    requires HasCandle(strategies, tick)
  {
    PricingOf(strategies, tick, |strategies|)
  }

  /**
   * Executes orders one after the other against an account state, as the backtest does:
   * a failing order is skipped and leaves the state as it was. Orders of positive amount
   * keep every open position's amount positive.
   */
  function ExecuteAll(s: AccountState, orders: seq<Order>): (r: AccountState)
    requires AllPositive(s.holdings) && forall i :: 0 <= i < |orders| ==> orders[i].amount > 0.0
    ensures AllPositive(r.holdings)
    decreases |orders|
  {
    if |orders| == 0 then s
    else
      var t := ExecuteAll(s, orders[..|orders| - 1]);
      var o := orders[|orders| - 1];
      ApplyKeepsPositive(t, o);
      match AccountApply(t, o)
      case Success(u) => u
      case Failure(_) => t
  }

  class Backtest {
    var tick: int
    var strategies: seq<Strategy>
    var allocator: NaiveAllocator
    var account: Account
    var history: AccountHistory

    /** The account and the history are well formed, and every open position holds a positive amount. */
    ghost predicate Valid()
      reads this, account, account.positions.Values, history
    {
      account.Valid() && AllPositive(account.Holdings()) && history.Valid()
    }

    /**
     * A backtest at tick 0 whose history starts with one snapshot of the account, dated
     * one period before the first candle and paired with an empty pricing.
     */
    constructor (strategies: seq<Strategy>, allocator: NaiveAllocator, account: Account)
      requires |strategies| > 0 && |strategies[0].candles| > 0
      requires account.Valid() && AllPositive(account.Holdings())
      ensures Valid()
      ensures tick == 0 && this.strategies == strategies && this.allocator == allocator
      ensures this.account == account && account.State() == old(account.State())
      ensures fresh(history)
      ensures |history.snapshots| == 1
      ensures IsSnapshotOf(history.snapshots[0], strategies[0].candles[0].period - 1, account.State())
      ensures history.prices == [PricingSnapshot(strategies[0].candles[0].period - 1, map[])]
    {
      tick := 0;
      this.strategies := strategies;
      this.allocator := allocator;
      this.account := account;
      history := new AccountHistory();
      new;
      RecordSnapshot(strategies[0].candles[0].period - 1, map[]);
    }

    /**
     * Runs one tick. Fails with MissingPricingData, changing nothing, when an allocated
     * security has no price. Otherwise executes every order of a trade plan for the
     * tick's allocation in plan order, ignoring the orders that fail, and logs one
     * snapshot of the resulting account, dated at the first strategy's candle, with the
     * tick's pricing.
     */
    method ExecuteTick() returns (err: Option<Error>, ghost plan: seq<Order>)
      requires Valid() && |strategies| > 0 && HasCandle(strategies, tick)
      modifies account, account.positions.Values, history
      ensures Valid()
      ensures forall k :: k in account.positions ==>
        account.positions[k] in old(account.positions.Values) || fresh(account.positions[k])
      ensures err.Some? <==> !(Allocation(allocator, tick, strategies).Keys <= PricingAt(strategies, tick).Keys)
      ensures err.Some? ==>
        && err == Some(MissingPricingData)
        && account.State() == old(account.State())
        && history.snapshots == old(history.snapshots) && history.prices == old(history.prices)
      ensures err.None? ==>
        IsTradePlan(plan, ShareDiffs(Allocation(allocator, tick, strategies), PricingAt(strategies, tick),
                                     EquityOf(old(account.State())), old(account.Holdings())), PricingAt(strategies, tick))
      ensures err.None? ==> forall i :: 0 <= i < |plan| ==> plan[i].amount > 0.0
      ensures err.None? ==> account.State() == ExecuteAll(old(account.State()), plan)
      ensures err.None? ==>
        && |history.snapshots| == |old(history.snapshots)| + 1
        && history.snapshots[..|history.snapshots| - 1] == old(history.snapshots)
        && IsSnapshotOf(history.snapshots[|history.snapshots| - 1], strategies[0].candles[tick].period, account.State())
        && history.prices == old(history.prices) + [PricingSnapshot(strategies[0].candles[tick].period, PricingAt(strategies, tick))]
    {
      ghost var s0 := account.State();
      var prices := CurrentPricing();

      var allocations := allocator.Allocate(tick, strategies);

      var tradePlan := CreateTradePlan(allocations, prices, account);
      if tradePlan.Failure? {
        plan := [];
        err := Some(tradePlan.error);
        assert account.State() == s0;
        return;
      }
      var orders := tradePlan.value;
      plan := orders;
      assert account.State() == s0;
      PlanReachesTargets(orders, allocations, prices, EquityOf(s0), s0.holdings);
      TradeAndLog(orders, strategies[0].candles[tick].period, prices);
      err := None;
    }

    /** The rest of a tick once its plan is known: executes the plan, then logs a snapshot of the account. */
    method TradeAndLog(plan: seq<Order>, period: int, pricing: map<string, real>)
      requires Valid() && forall i :: 0 <= i < |plan| ==> plan[i].amount > 0.0
      modifies account, account.positions.Values, history
      ensures Valid()
      ensures forall k :: k in account.positions ==>
        account.positions[k] in old(account.positions.Values) || fresh(account.positions[k])
      ensures account.State() == ExecuteAll(old(account.State()), plan)
      ensures |history.snapshots| == |old(history.snapshots)| + 1
      ensures history.snapshots[..|history.snapshots| - 1] == old(history.snapshots)
      ensures IsSnapshotOf(history.snapshots[|history.snapshots| - 1], period, account.State())
      ensures history.prices == old(history.prices) + [PricingSnapshot(period, pricing)]
    {
      ghost var s0 := account.State();
      ExecutePlan(plan);
      ghost var s1 := account.State();
      RecordSnapshot(period, pricing);
      assert account.State() == s1 == ExecuteAll(s0, plan);
    }

    /** The pricing of the current tick: every strategy's security at its candle's close, later strategies winning. */
    method CurrentPricing() returns (prices: map<string, real>)
      requires HasCandle(strategies, tick)
      ensures prices == PricingAt(strategies, tick)
    {
      prices := map[];
      for i := 0 to |strategies|
        invariant prices == PricingOf(strategies, tick, i)
      {
        prices := prices[strategies[i].security := strategies[i].candles[tick].close];
      }
    }

    /** Logs a snapshot of the account, dated at the given period, with the given pricing; the account does not change. */
    method RecordSnapshot(period: int, pricing: map<string, real>)
      requires Valid()
      modifies history
      ensures Valid() && account.State() == old(account.State())
      ensures |history.snapshots| == |old(history.snapshots)| + 1
      ensures history.snapshots[..|history.snapshots| - 1] == old(history.snapshots)
      ensures IsSnapshotOf(history.snapshots[|history.snapshots| - 1], period, account.State())
      ensures history.prices == old(history.prices) + [PricingSnapshot(period, pricing)]
    {
      ghost var st := account.State();
      var snap := account.ExportSnapshot(period);
      var _ := history.ApplySnapshot(snap, PricingSnapshot(period, pricing));
      AccountFramed(account);
      assert account.State() == st;
      assert history.snapshots[..|history.snapshots| - 1] == old(history.snapshots);
    }

    /** An account whose object and positions did not change has the same state and well-formedness. */
    twostate lemma AccountFramed(account: Account)
      requires old(account.Valid()) && unchanged(account)
      requires forall p :: p in account.positions.Values ==> unchanged(p)
      ensures account.Valid() && account.State() == old(account.State())
    {
    }

    /** The order loop of a tick: executes every order in turn and ignores the orders that fail. */
    method ExecutePlan(plan: seq<Order>)
      requires Valid() && forall i :: 0 <= i < |plan| ==> plan[i].amount > 0.0
      modifies account, account.positions.Values
      ensures Valid()
      ensures forall k :: k in account.positions ==>
        account.positions[k] in old(account.positions.Values) || fresh(account.positions[k])
      ensures account.State() == ExecuteAll(old(account.State()), plan)
    {
      ghost var s0 := account.State();
      for i := 0 to |plan|
        invariant account.Valid() && AllPositive(account.Holdings())
        invariant forall k :: k in account.positions ==>
          account.positions[k] in old(account.positions.Values) || fresh(account.positions[k])
        invariant account.State() == ExecuteAll(s0, plan[..i])
      {
        assert plan[..i + 1][..i] == plan[..i];
        ApplyKeepsPositive(account.State(), plan[i]);
        var _ := account.ExecuteOrder(plan[i]);
      }
      assert plan[..|plan|] == plan;
    }

    /** Moves to the next tick; nothing else changes. */
    method AdvanceTick()
      requires Valid()
      modifies this
      ensures Valid()
      ensures tick == old(tick) + 1
      ensures strategies == old(strategies) && allocator == old(allocator)
      ensures account == old(account) && history == old(history)
    {
      tick := tick + 1;
    }

    /**
     * Runs every tick from the first to the last candle, advancing between ticks: over
     * n candles it ends at tick n - 1 with one more snapshot per candle.
     */
    method Run() returns (err: Option<Error>)
      requires Valid() && Normalized(strategies) && tick == 0 && |strategies[0].candles| > 0
      modifies this, account, account.positions.Values, history
      ensures Valid() && strategies == old(strategies) && account == old(account) && history == old(history)
      ensures err == None
      ensures tick == |strategies[0].candles| - 1
      ensures |history.snapshots| == |old(history.snapshots)| + |strategies[0].candles|
    {
      var n := |strategies[0].candles|;
      while true
        invariant Valid() && strategies == old(strategies) && account == old(account) && history == old(history)
        invariant 0 <= tick < n
        invariant |history.snapshots| == |old(history.snapshots)| + tick
        invariant forall k :: k in account.positions ==>
          account.positions[k] in old(account.positions.Values) || fresh(account.positions[k])
        decreases n - tick
      {
        AllocationsArePriced(allocator, tick, strategies);
        ghost var plan;
        err, plan := ExecuteTick();
        if tick == n - 1 {
          return;
        }
        AdvanceTick();
      }
    }
  }

  /**
   * The pricing over the first n strategies quotes exactly their securities, each at the
   * close of the last of them for it.
   */
  lemma {:induction false} PricingOfMeaning(strategies: seq<Strategy>, tick: int, n: int, s: string)
    requires HasCandle(strategies, tick) && 0 <= n <= |strategies|
    ensures s in PricingOf(strategies, tick, n) <==> exists i :: 0 <= i < n && strategies[i].security == s
    ensures s in PricingOf(strategies, tick, n) ==>
      exists i :: 0 <= i < n && strategies[i].security == s
        && PricingOf(strategies, tick, n)[s] == strategies[i].candles[tick].close
        && forall j :: i < j < n ==> strategies[j].security != s
    decreases n
  {
    if n > 0 {
      PricingOfMeaning(strategies, tick, n - 1, s);
    }
  }

  /** The pricing quotes exactly the strategies' securities, each at the close of the last strategy for it. */
  lemma PricingMeaning(strategies: seq<Strategy>, tick: int, s: string)
    requires HasCandle(strategies, tick)
    ensures s in PricingAt(strategies, tick) <==> exists i :: 0 <= i < |strategies| && strategies[i].security == s
    ensures s in PricingAt(strategies, tick) ==>
      exists i :: 0 <= i < |strategies| && strategies[i].security == s
        && PricingAt(strategies, tick)[s] == strategies[i].candles[tick].close
        && forall j :: i < j < |strategies| ==> strategies[j].security != s
  {
    PricingOfMeaning(strategies, tick, |strategies|, s);
  }

  /**
   * Every allocated security is priced, since both come from the same strategies: a
   * tick of the backtest never fails for missing pricing.
   */
  lemma AllocationsArePriced(a: NaiveAllocator, tick: int, strategies: seq<Strategy>)
    requires HasCandle(strategies, tick)
    ensures Allocation(a, tick, strategies).Keys <= PricingAt(strategies, tick).Keys
  {
    forall s | s in Allocation(a, tick, strategies)
      ensures s in PricingAt(strategies, tick)
    {
      AllocationKeys(a, tick, strategies, s);
      PricingMeaning(strategies, tick, s);
    }
  }

  /**
   * Executing orders only appends to the trade record: the old record is kept as a
   * prefix and at most one entry is added per order, each one of the orders.
   */
  lemma {:induction false} TradeRecordGrows(s: AccountState, orders: seq<Order>)
    requires AllPositive(s.holdings) && forall i :: 0 <= i < |orders| ==> orders[i].amount > 0.0
    ensures var r := ExecuteAll(s, orders).tradeRecord;
      && |s.tradeRecord| <= |r| <= |s.tradeRecord| + |orders|
      && r[..|s.tradeRecord|] == s.tradeRecord
      && forall k :: |s.tradeRecord| <= k < |r| ==> r[k] in orders
    decreases |orders|
  {
    if |orders| > 0 {
      var init := orders[..|orders| - 1];
      TradeRecordGrows(s, init);
      var t := ExecuteAll(s, init);
      var o := orders[|orders| - 1];
      ApplyKeepsPositive(t, o);
      forall k | |s.tradeRecord| <= k < |t.tradeRecord|
        ensures t.tradeRecord[k] in orders
      {
        var x := t.tradeRecord[k];
        var j :| 0 <= j < |init| && init[j] == x;
        assert orders[j] == x;
      }
    }
  }

  /** Orders that all fail leave the account state as it was. */
  lemma {:induction false} FailingOrdersChangeNothing(s: AccountState, orders: seq<Order>)
    requires AllPositive(s.holdings) && forall i :: 0 <= i < |orders| ==> orders[i].amount > 0.0
    requires forall i :: 0 <= i < |orders| ==> !FundsSuffice(s.cash, orders[i])
    ensures ExecuteAll(s, orders) == s
    decreases |orders|
  {
    if |orders| > 0 {
      FailingOrdersChangeNothing(s, orders[..|orders| - 1]);
      ApplyKeepsPositive(s, orders[|orders| - 1]);
    }
  }
}
