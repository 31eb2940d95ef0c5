/**
 * The trading account: cash on hand, the open positions keyed by security and an
 * append-only record of executed orders. Orders pass a funds check, go through the
 * position state machine, closed positions are removed and the cash is settled.
 */
module Accounts {
  import opened Wrappers
  import opened Orders
  import opened Positions
  import opened Sums
  import opened Histories

  /** The value of an account's fields at one moment; holdings are the open positions. */
  datatype AccountState = AccountState(
    cash: real,
    holdings: map<string, PositionState>,
    tradeRecord: seq<Order>)

  /** The market value of every open position. */
  function MarketValues(h: map<string, PositionState>): (m: map<string, real>)
    ensures m.Keys == h.Keys
  {
    map k | k in h :: MarketValue(h[k])
  }

  /** Cash plus the market value of every open position. */
  ghost function EquityOf(s: AccountState): real {
    s.cash + SumValues(MarketValues(s.holdings), s.holdings.Keys)
  }

  /**
   * The funds check: a SELL always passes (long only); a BUY passes only when its
   * cost is strictly below the cash, so an order costing exactly the cash fails.
   */
  function FundsSuffice(cash: real, o: Order): (ok: bool)
    ensures o.side == Sell ==> ok
    ensures o.side == Buy ==> (ok <==> CostBasis(o) < cash)
    ensures ok && o.side == Buy ==> cash - CostBasis(o) > 0.0
  {
    if o.side == Sell then true else CostBasis(o) < cash
  }

  /** The withdrawal the test suite expects: refused when it exceeds the cash. */
  function WithdrawResult(cash: real, x: real): (r: Result<real>)
    ensures r.Success? <==> x <= cash
    ensures r.Failure? ==> r.error == InsufficientFunds
    ensures r.Success? ==> r.value == cash - x && r.value >= 0.0
  {
    if x > cash then Failure(InsufficientFunds) else Success(cash - x)
  }

  /**
   * Withdraw as written in the source: the guard tests the cash before the
   * withdrawal instead of the cash after it.
   */
  function WithdrawAsWritten(cash: real, x: real): (r: Result<real>)
    ensures r.Success? <==> cash >= 0.0
    ensures r.Success? ==> r.value + x == cash
  {
    var intermediate := cash - x;
    if cash < 0.0 then Failure(InsufficientFunds) else Success(intermediate)
  }

  /** With one unit of cash, withdrawing 1.01 goes through as written and leaves negative cash. */
  lemma WithdrawAsWrittenOverdraws()
    ensures WithdrawAsWritten(1.0, 1.01) == Success(-0.01)
    ensures WithdrawResult(1.0, 1.01) == Failure(InsufficientFunds)
  {
  }

  /** Applying the order to the held position cannot divide zero by zero. */
  predicate AverageDefinedIn(h: map<string, PositionState>, o: Order) {
    o.security in h ==> AverageDefined(h[o.security], o)
  }

  /**
   * The position half of executing an order: the held position takes the order and
   * is dropped once closed (failing with the position's own error), an unheld
   * security is opened by a BUY, and a SELL of an unheld security fails with
   * NoPositionToSell. Every other position is left as it was.
   */
  function ApplyToHoldings(h: map<string, PositionState>, o: Order): (r: Result<map<string, PositionState>>)
    requires AverageDefinedIn(h, o)
    ensures o.security in h ==>
      && (r.Failure? <==> Apply(h[o.security], o).Failure?)
      && (r.Failure? ==> r.error == Apply(h[o.security], o).error)
    ensures o.security !in h ==>
      (r.Failure? <==> o.side == Sell) && (r.Failure? ==> r.error == NoPositionToSell)
    ensures r.Success? ==>
      && r.value.Keys - {o.security} == h.Keys - {o.security}
      && (forall k :: k in h && k != o.security ==> k in r.value && r.value[k] == h[k])
    ensures r.Success? && o.security in h ==>
      var q := Apply(h[o.security], o).value;
      if Closed(q) then o.security !in r.value
      else o.security in r.value && r.value[o.security] == q
    ensures r.Success? && o.security !in h ==>
      o.security in r.value && r.value[o.security] == Opened(o)
  {
    if o.security in h then
      match Apply(h[o.security], o)
      case Failure(e) => Failure(e)
      case Success(q) => Success(if Closed(q) then h - {o.security} else h[o.security := q])
    else if o.side == Buy then
      Success(h[o.security := Opened(o)])
    else
      assert o.side == Sell;
      Failure(NoPositionToSell)
  }

  /**
   * Executing an order against an account state. Fails with InsufficientFunds when
   * the funds check fails and otherwise as the holdings do; on success a BUY lowers
   * and a SELL raises the cash by the order's cost basis and the order is recorded.
   */
  function AccountApply(s: AccountState, o: Order): (r: Result<AccountState>)
    requires AverageDefinedIn(s.holdings, o)
    ensures !FundsSuffice(s.cash, o) ==> r == Failure(InsufficientFunds)
    ensures FundsSuffice(s.cash, o) ==>
      && (r.Failure? <==> ApplyToHoldings(s.holdings, o).Failure?)
      && (r.Failure? ==> r.error == ApplyToHoldings(s.holdings, o).error)
    ensures r.Success? ==>
      && r.value.cash == (if o.side == Buy then s.cash - CostBasis(o) else s.cash + CostBasis(o))
      && r.value.tradeRecord == s.tradeRecord + [o]
      && r.value.holdings == ApplyToHoldings(s.holdings, o).value
  {
    if !FundsSuffice(s.cash, o) then Failure(InsufficientFunds)
    else
      match ApplyToHoldings(s.holdings, o)
      case Failure(e) => Failure(e)
      case Success(h) =>
        var cash := if o.side == Buy then s.cash - CostBasis(o) else s.cash + CostBasis(o);
        Success(AccountState(cash, h, s.tradeRecord + [o]))
  }

  /** Two maps with the same keys and the same value at every key are equal. */
  lemma SameMaps<K, V>(a: map<K, V>, b: map<K, V>)
    requires a.Keys == b.Keys && forall k :: k in a ==> a[k] == b[k]
    ensures a == b
  {
  }

  /** Every open position holds a positive amount. */
  predicate AllPositive(h: map<string, PositionState>) {
    forall k :: k in h ==> h[k].amount > 0.0
  }

  /** Orders of positive amount keep every open position's amount positive. */
  lemma ApplyKeepsPositive(s: AccountState, o: Order)
    requires AllPositive(s.holdings) && o.amount > 0.0
    ensures AverageDefinedIn(s.holdings, o)
    ensures AccountApply(s, o).Success? ==> AllPositive(AccountApply(s, o).value.holdings)
  {
  }

  /** Cash conservation: cash plus the cost basis of all executed orders, signed by side, is invariant. */
  lemma CashConservation(s: AccountState, o: Order)
    requires AverageDefinedIn(s.holdings, o) && AccountApply(s, o).Success?
    ensures AccountApply(s, o).value.cash + (if o.side == Buy then CostBasis(o) else -CostBasis(o)) == s.cash
  {
  }

  /** A BUY that passes the funds check leaves strictly positive cash. */
  lemma BuyKeepsCashPositive(s: AccountState, o: Order)
    requires AverageDefinedIn(s.holdings, o) && AccountApply(s, o).Success? && o.side == Buy
    ensures AccountApply(s, o).value.cash > 0.0
  {
  }

  /**
   * The funds check at the test suite's cash levels 0, 3, 4 and 104 for a BUY costing four:
   * refused with 0 and 3 and, the check being strict, with exactly 4, where the test suite
   * expects a pass; passed with 104, and with 5, the least whole amount above the cost.
   */
  lemma FundsCheckExamples()
    ensures !FundsSuffice(0.0, ExampleOpening) && !FundsSuffice(3.0, ExampleOpening)
    ensures !FundsSuffice(4.0, ExampleOpening) && FundsSuffice(5.0, ExampleOpening)
    ensures FundsSuffice(104.0, ExampleOpening)
    ensures FundsSuffice(0.0, Order(Sell, "FAKE", 2.0, 2.0))
  {
  }

  /** A BUY with no cash is refused, as is a SELL of a security the account does not hold. */
  lemma RefusedOrderExamples()
    ensures AccountApply(AccountState(0.0, map[], []), Order(Buy, "FAKE", 1.0, 1.0))
      == Failure(InsufficientFunds)
    ensures AccountApply(AccountState(40.0, map[], []), Order(Sell, "FAKE", 1.0, 1.0))
      == Failure(NoPositionToSell)
  {
    assert FundsSuffice(40.0, Order(Sell, "FAKE", 1.0, 1.0));
  }

  /** A BUY the cash covers, into an account with no positions, opens exactly that position. */
  lemma FirstBuyOpens(cash: real, o: Order)
    requires o.side == Buy && CostBasis(o) < cash
    ensures AccountApply(AccountState(cash, map[], []), o)
      == Success(AccountState(cash - CostBasis(o), map[o.security := Opened(o)], [o]))
  {
    assert ApplyToHoldings(map[], o) == Success(map[o.security := Opened(o)]);
    assert [] + [o] == [o];
  }

  /**
   * Starting from forty in cash, two BUYs of one share, at one and at three, leave 36 in
   * cash and two shares at an average entry price of two, marked at three.
   */
  lemma AddToPositionExample()
    ensures var b1 := Order(Buy, "FAKE", 1.0, 1.0);
      var b2 := Order(Buy, "FAKE", 3.0, 1.0);
      && AccountApply(AccountState(40.0, map[], []), b1)
        == Success(AccountState(39.0, map["FAKE" := Opened(b1)], [b1]))
      && AccountApply(AccountState(39.0, map["FAKE" := Opened(b1)], [b1]), b2)
        == Success(AccountState(36.0, map["FAKE" := PositionState("FAKE", Buy, 2.0, 2.0, 3.0)], [b1, b2]))
  {
    var b1 := Order(Buy, "FAKE", 1.0, 1.0);
    var b2 := Order(Buy, "FAKE", 3.0, 1.0);
    FirstBuyOpens(40.0, b1);
    var h1: map<string, PositionState> := map["FAKE" := Opened(b1)];
    var q := PositionState("FAKE", Buy, 2.0, 2.0, 3.0);
    assert Opened(b1) == PositionState("FAKE", Buy, 1.0, 1.0, 1.0);
    assert (1.0 * 1.0 + 3.0 * 1.0) / (1.0 + 1.0) == 2.0;
    assert Apply(Opened(b1), b2) == Success(q);
    assert ApplyToHoldings(h1, b2) == Success(h1["FAKE" := q]);
    assert h1["FAKE" := q] == map["FAKE" := q];
    assert [b1] + [b2] == [b1, b2];
  }

  /** A SELL of the whole amount of the only, just-opened position closes it and returns its proceeds to the cash. */
  lemma SellWholeOpening(cash: real, b: Order, s: Order, trades: seq<Order>)
    requires b.side == Buy && s.side == Sell && s.security == b.security && s.amount == b.amount
    ensures AccountApply(AccountState(cash, map[b.security := Opened(b)], trades), s)
      == Success(AccountState(cash + CostBasis(s), map[], trades + [s]))
  {
    var h1: map<string, PositionState> := map[b.security := Opened(b)];
    var q := Opened(b).(amount := 0.0, price := s.price);
    assert Apply(Opened(b), s) == Success(q);
    assert Closed(q);
    assert ApplyToHoldings(h1, s) == Success(h1 - {b.security});
    assert h1 - {b.security} == map[];
  }

  /**
   * Starting from forty in cash, a BUY of three at one followed by a SELL of all three
   * at three closes the position and leaves 46 in cash.
   */
  lemma SellAllExample()
    ensures var b := Order(Buy, "FAKE", 1.0, 3.0);
      var s := Order(Sell, "FAKE", 3.0, 3.0);
      && AccountApply(AccountState(40.0, map[], []), b)
        == Success(AccountState(37.0, map["FAKE" := Opened(b)], [b]))
      && AccountApply(AccountState(37.0, map["FAKE" := Opened(b)], [b]), s)
        == Success(AccountState(46.0, map[], [b, s]))
  {
    var b := Order(Buy, "FAKE", 1.0, 3.0);
    var s := Order(Sell, "FAKE", 3.0, 3.0);
    assert CostBasis(b) == 3.0 && CostBasis(s) == 9.0;
    FirstBuyOpens(40.0, b);
    SellWholeOpening(37.0, b, s, [b]);
    assert [b] + [s] == [b, s];
  }

  /** The position snapshots listed so far: one per security of done, each the snapshot of its position. */
  ghost predicate SnapshotsCover(list: seq<PositionSnapshot>, h: map<string, PositionState>, done: set<string>) {
    && (forall i :: 0 <= i < |list| ==>
          list[i].security in done && list[i].security in h && list[i] == Snapshot(h[list[i].security]))
    && (forall i, j :: 0 <= i < j < |list| ==> list[i].security != list[j].security)
    && (forall k :: k in done ==> exists i :: 0 <= i < |list| && list[i].security == k)
  }

  /** Listing the snapshot of one more held position keeps the list covering. */
  lemma SnapshotsCoverStep(list: seq<PositionSnapshot>, h: map<string, PositionState>, done: set<string>, k: string)
    requires SnapshotsCover(list, h, done) && k in h && h[k].security == k && k !in done
    ensures SnapshotsCover(list + [Snapshot(h[k])], h, done + {k})
  {
    var ys := list + [Snapshot(h[k])];
    forall k' | k' in done + {k}
      ensures exists i :: 0 <= i < |ys| && ys[i].security == k'
    {
      if k' == k {
        assert ys[|list|].security == k;
      } else {
        var i :| 0 <= i < |list| && list[i].security == k';
        assert ys[i] == list[i];
      }
    }
  }

  /**
   * A snapshot of an account state: its period, cash and equity, and exactly one
   * position snapshot per open position, in no particular order.
   */
  ghost predicate IsSnapshotOf(snap: AccountSnapshot, period: int, s: AccountState) {
    && snap.period == period && snap.cash == s.cash && snap.equity == EquityOf(s)
    && (forall i :: 0 <= i < |snap.positions| ==>
          snap.positions[i].security in s.holdings
          && snap.positions[i] == Snapshot(s.holdings[snap.positions[i].security]))
    && (forall i, j :: 0 <= i < j < |snap.positions| ==>
          snap.positions[i].security != snap.positions[j].security)
    && (forall k :: k in s.holdings ==>
          exists i :: 0 <= i < |snap.positions| && snap.positions[i].security == k)
  }

  /** The securities of a list of position snapshots. */
  ghost function Securities(xs: seq<PositionSnapshot>): set<string> {
    set i | 0 <= i < |xs| :: xs[i].security
  }

  /** A list whose securities are pairwise distinct has as many securities as entries. */
  lemma {:induction false} DistinctCount(xs: seq<PositionSnapshot>)
    requires forall i, j :: 0 <= i < j < |xs| ==> xs[i].security != xs[j].security
    ensures |Securities(xs)| == |xs|
  {
    if xs != [] {
      var init := xs[..|xs| - 1];
      DistinctCount(init);
      assert Securities(xs) == Securities(init) + {xs[|xs| - 1].security};
    }
  }

  /** A snapshot has exactly one entry per open position. */
  lemma SnapshotSize(snap: AccountSnapshot, period: int, s: AccountState)
    requires IsSnapshotOf(snap, period, s)
    ensures |snap.positions| == |s.holdings|
  {
    DistinctCount(snap.positions);
    assert Securities(snap.positions) == s.holdings.Keys by {
      forall k | k in s.holdings ensures k in Securities(snap.positions) {
        var i :| 0 <= i < |snap.positions| && snap.positions[i].security == k;
      }
    }
  }

  /**
   * Exporting twice from the same state gives the same snapshot up to the order of
   * its position entries: same period, cash and equity, same length, same entries.
   */
  lemma SnapshotIdempotent(a: AccountSnapshot, b: AccountSnapshot, period: int, s: AccountState)
    requires IsSnapshotOf(a, period, s) && IsSnapshotOf(b, period, s)
    ensures a.period == b.period && a.cash == b.cash && a.equity == b.equity
    ensures |a.positions| == |b.positions|
    ensures forall x :: x in a.positions <==> x in b.positions
  {
    SnapshotSize(a, period, s);
    SnapshotSize(b, period, s);
    SnapshotEntries(a, b, period, s);
    SnapshotEntries(b, a, period, s);
  }

  /** Every entry of one snapshot of a state is an entry of any other snapshot of it. */
  lemma SnapshotEntries(a: AccountSnapshot, b: AccountSnapshot, period: int, s: AccountState)
    requires IsSnapshotOf(a, period, s) && IsSnapshotOf(b, period, s)
    ensures forall x :: x in a.positions ==> x in b.positions
  {
    forall x | x in a.positions ensures x in b.positions {
      var i :| 0 <= i < |a.positions| && a.positions[i] == x;
      var k := x.security;
      assert k in s.holdings && x == Snapshot(s.holdings[k]);
      var j :| 0 <= j < |b.positions| && b.positions[j].security == k;
      assert b.positions[j] == Snapshot(s.holdings[k]);
    }
  }

  /** The value of each position object in a map. */
  function StatesOf(ps: map<string, Position>): (h: map<string, PositionState>)
    reads ps.Values
    ensures h.Keys == ps.Keys
    ensures forall k :: k in ps ==> h[k] == ps[k].State()
  {
    map k | k in ps :: ps[k].State()
  }

  /** Distinct securities map to distinct position objects, each keyed by its own security. */
  ghost predicate WellKeyed(ps: map<string, Position>)
    reads ps.Values
  {
    && (forall k1, k2 :: k1 in ps && k2 in ps && k1 != k2 ==> ps[k1] != ps[k2])
    && (forall k :: k in ps ==> ps[k].security == k)
  }

  class Account {
    var cash: real
    var positions: map<string, Position>
    var tradeRecord: seq<Order>

    /** Distinct securities hold distinct position objects, each keyed by its own security. */
    ghost predicate Valid()
      reads this, positions.Values
    {
      WellKeyed(positions)
    }

    /** The open positions as values. */
    function Holdings(): (h: map<string, PositionState>)
      reads this, positions.Values
      ensures h.Keys == positions.Keys
    {
      StatesOf(positions)
    }

    function State(): AccountState
      reads this, positions.Values
    {
      AccountState(cash, Holdings(), tradeRecord)
    }

    /** A new account: no cash, no positions, no trades. */
    constructor ()
      ensures Valid() && State() == AccountState(0.0, map[], [])
    {
      cash := 0.0;
      positions := map[];
      tradeRecord := [];
    }

    /** The open position for a security, if there is one. */
    function OpenPosition(security: string): (r: Option<Position>)
      reads this
      ensures r.Some? <==> security in positions
      ensures r.Some? ==> r.value == positions[security]
    {
      if security in positions then Some(positions[security]) else None
    }

    /** Adds cash to the account. */
    method Deposit(x: real)
      modifies this
      ensures cash == old(cash) + x
      ensures positions == old(positions) && tradeRecord == old(tradeRecord)
      ensures Holdings() == old(Holdings()) && (old(Valid()) ==> Valid())
    {
      cash := cash + x;
    }

    /** Takes cash out of the account; a withdrawal exceeding the cash fails and changes nothing. */
    method Withdraw(x: real) returns (err: Option<Error>)
      modifies this
      ensures WithdrawResult(old(cash), x).Success? ==>
        err == None && cash == WithdrawResult(old(cash), x).value
      ensures WithdrawResult(old(cash), x).Failure? ==>
        err == Some(InsufficientFunds) && cash == old(cash)
      ensures positions == old(positions) && tradeRecord == old(tradeRecord)
      ensures Holdings() == old(Holdings()) && (old(Valid()) ==> Valid())
    {
      if x > cash {
        return Some(InsufficientFunds);
      }
      cash := cash - x;
      return None;
    }

    /**
     * Marks every open position whose security is priced; positions without a
     * quote keep their last price; no position is added or removed.
     */
    method UpdatePrices(prices: map<string, real>)
      requires Valid()
      modifies positions.Values
      ensures Valid()
      ensures Holdings() == map k | k in old(Holdings()) ::
        if k in prices then old(Holdings())[k].(price := prices[k]) else old(Holdings())[k]
    {
      ghost var before := Holdings();
      ghost var marked := map k | k in before ::
        if k in prices then before[k].(price := prices[k]) else before[k];
      var todo := positions.Keys;
      while todo != {}
        invariant todo <= positions.Keys
        invariant Valid()
        invariant forall k :: k in positions ==>
          positions[k].State() == if k in todo then before[k] else marked[k]
        decreases todo
      {
        var k :| k in todo;
        if k in prices {
          positions[k].UpdatePrice(prices[k]);
        }
        todo := todo - {k};
      }
      SameMaps(Holdings(), marked);
    }

    /** The funds check against the current cash: a SELL always passes, a BUY only below the cash. */
    function HasSufficientFunds(o: Order): (ok: bool)
      reads this
      ensures o.side == Sell ==> ok
      ensures o.side == Buy ==> (ok <==> CostBasis(o) < cash)
    {
      FundsSuffice(cash, o)
    }

    /** Cash plus the market value of every open position. */
    method Equity() returns (e: real)
      requires Valid()
      ensures e == EquityOf(State())
    {
      ghost var values := MarketValues(Holdings());
      e := cash;
      var todo := positions.Keys;
      while todo != {}
        invariant todo <= positions.Keys
        invariant e == cash + SumValues(values, positions.Keys - todo)
        decreases todo
      {
        var k :| k in todo;
        SumAdd(values, positions.Keys - todo, k);
        assert (positions.Keys - todo) + {k} == positions.Keys - (todo - {k});
        e := e + positions[k].UnrealizedEquity();
        todo := todo - {k};
      }
      assert positions.Keys - todo == positions.Keys;
    }

    /** Executes an order; a failed order leaves cash, positions and the trade record unchanged. */
    method ExecuteOrder(o: Order) returns (err: Option<Error>)
      requires Valid() && AverageDefinedIn(Holdings(), o)
      modifies this, positions.Values
      ensures Valid()
      ensures forall k :: k in positions ==> (k in old(positions) && positions[k] == old(positions[k])) || fresh(positions[k])
      ensures AccountApply(old(State()), o).Success? ==>
        err == None && State() == AccountApply(old(State()), o).value
      ensures AccountApply(old(State()), o).Failure? ==>
        err == Some(AccountApply(old(State()), o).error) && State() == old(State())
    {
      ghost var s := State();
      if !HasSufficientFunds(o) {
        return Some(InsufficientFunds);
      }
      ghost var h;
      err, h := ChangePosition(o);
      if err.Some? {
        return err;
      }
      ghost var r := AccountApply(s, o).value;
      assert r.holdings == h;
      Settle(o);
      assert State() == AccountState(r.cash, h, r.tradeRecord);
    }

    /**
     * Reflects an executed order in the cash and the trade record: a BUY withdraws
     * and a SELL deposits the order's cost basis. The withdrawal cannot be refused
     * here, since the order has passed the funds check.
     */
    method Settle(o: Order)
      requires Valid() && FundsSuffice(cash, o)
      modifies this
      ensures Valid() && positions == old(positions) && Holdings() == old(Holdings())
      ensures cash == if o.side == Buy then old(cash) - CostBasis(o) else old(cash) + CostBasis(o)
      ensures tradeRecord == old(tradeRecord) + [o]
    {
      if o.side == Buy {
        var _ := Withdraw(CostBasis(o));
      } else {
        Deposit(CostBasis(o));
      }
      tradeRecord := tradeRecord + [o];
    }

    /**
     * The position half of executing an order: cash and the trade record are left
     * to the caller.
     */
    method ChangePosition(o: Order) returns (err: Option<Error>, ghost h: map<string, PositionState>)
      requires Valid() && AverageDefinedIn(Holdings(), o)
      modifies this, positions.Values
      ensures Valid() && cash == old(cash) && tradeRecord == old(tradeRecord)
      ensures forall k :: k in positions ==> (k in old(positions) && positions[k] == old(positions[k])) || fresh(positions[k])
      ensures h == Holdings()
      ensures ApplyToHoldings(old(Holdings()), o).Success? ==>
        err == None && h == ApplyToHoldings(old(Holdings()), o).value
      ensures ApplyToHoldings(old(Holdings()), o).Failure? ==>
        err == Some(ApplyToHoldings(old(Holdings()), o).error) && h == old(Holdings())
    {
      ghost var before := Holdings();
      if o.security in positions {
        err := UpdateHeld(o);
        h := Holdings();
      } else if o.side == Buy {
        var p := new Position(o);
        positions := positions[o.security := p];
        err := None;
        h := Holdings();
        SameMaps(h, before[o.security := Opened(o)]);
      } else {
        err := Some(NoPositionToSell);
        h := Holdings();
      }
    }

    /** The held position takes the order and is dropped once it is closed. */
    method UpdateHeld(o: Order) returns (err: Option<Error>)
      requires Valid() && AverageDefinedIn(Holdings(), o) && o.security in positions
      modifies this, positions.Values
      ensures Valid() && cash == old(cash) && tradeRecord == old(tradeRecord)
      ensures positions == old(positions) || positions == old(positions) - {o.security}
      ensures ApplyToHoldings(old(Holdings()), o).Success? ==>
        err == None && Holdings() == ApplyToHoldings(old(Holdings()), o).value
      ensures ApplyToHoldings(old(Holdings()), o).Failure? ==>
        err == Some(ApplyToHoldings(old(Holdings()), o).error) && Holdings() == old(Holdings())
    {
      ghost var before := Holdings();
      var p := positions[o.security];
      err := p.ExecuteOrder(o);
      assert forall k :: k in positions && k != o.security ==> positions[k].State() == before[k];
      if err.Some? {
        SameMaps(Holdings(), before);
        return;
      }
      ghost var q := p.State();
      if p.IsClosed() {
        positions := positions - {o.security};
        assert Holdings().Keys == before.Keys - {o.security};
        forall k | k in positions ensures Holdings()[k] == before[k] {
          assert positions[k].State() == before[k];
        }
        SameMaps(Holdings(), before - {o.security});
      } else {
        SameMaps(Holdings(), before[o.security := q]);
      }
    }

    /** A snapshot of the account for the history. */
    method ExportSnapshot(period: int) returns (snap: AccountSnapshot)
      requires Valid()
      ensures IsSnapshotOf(snap, period, State())
    {
      var equity := Equity();
      ghost var h := Holdings();
      var list: seq<PositionSnapshot> := [];
      var todo := positions.Keys;
      ghost var done: set<string> := {};
      while todo != {}
        invariant todo !! done && todo + done == h.Keys
        invariant SnapshotsCover(list, h, done)
        decreases todo
      {
        var k :| k in todo;
        assert positions[k].State() == h[k];
        SnapshotsCoverStep(list, h, done, k);
        list := list + [positions[k].ExportSnapshot()];
        done := done + {k};
        todo := todo - {k};
      }
      snap := AccountSnapshot(period, equity, cash, list);
    }
  }
}
