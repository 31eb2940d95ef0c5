/**
 * Positions: the per-security holding of a long-only account. A position starts
 * from a BUY order, grows with further BUYs (recomputing the average entry price),
 * shrinks with SELLs and is closed when its amount reaches zero.
 */
module Positions {
  import opened Wrappers
  import opened Orders

  /** The value of a position's fields at one moment. */
  datatype PositionState = PositionState(
    security: string,
    side: Side,
    amount: real,
    avgEntryPrice: real,
    price: real)

  /** A frozen copy of a position for the account history. */
  datatype PositionSnapshot = PositionSnapshot(
    security: string,
    side: Side,
    amount: real,
    price: real,
    unrealizedGain: real)

  /** The position a first order opens: amount from the order, both prices at the order price. */
  function Opened(o: Order): PositionState {
    PositionState(o.security, o.side, o.amount, o.price, o.price)
  }

  /**
   * A BUY on a BUY position divides by the new total amount; a zero total makes
   * the exact-decimal division fail, so such an order is outside the domain.
   */
  predicate AverageDefined(p: PositionState, o: Order) {
    !(p.side == Buy && o.side == Buy && p.amount + o.amount == 0.0)
  }

  /**
   * Applying an order to a position. BUY on BUY adds to the amount and recomputes
   * the average entry price; SELL on BUY reduces the amount and fails when more is
   * sold than held; every other combination is unsupported. Every success marks the
   * position at the order price; a failure leaves the position as it was.
   */
  function Apply(p: PositionState, o: Order): (r: Result<PositionState>)
    requires AverageDefined(p, o)
    ensures r.Success? <==> p.side == Buy && (o.side == Buy || o.amount <= p.amount)
    ensures r.Failure? ==> r.error == (if p.side == Buy then OverSell else UnsupportedOperation)
    ensures r.Success? ==>
      r.value.security == p.security && r.value.side == p.side && r.value.price == o.price
    ensures r.Success? && o.side == Sell ==>
      r.value.amount == p.amount - o.amount && r.value.avgEntryPrice == p.avgEntryPrice
    ensures r.Success? && o.side == Buy ==> r.value.amount == p.amount + o.amount
  {
    if p.side == Buy && o.side == Buy then
      var newTotalValue := p.avgEntryPrice * p.amount + o.price * o.amount;
      var newAmount := p.amount + o.amount;
      Success(p.(avgEntryPrice := newTotalValue / newAmount, amount := newAmount, price := o.price))
    else if p.side == Buy && o.side == Sell then
      var intermediate := p.amount - o.amount;
      if intermediate < 0.0 then Failure(OverSell)
      else Success(p.(amount := intermediate, price := o.price))
    else
      Failure(UnsupportedOperation)
  }

  /** A position is closed when it holds a zero amount: it is then worth nothing and has gained nothing. */
  predicate Closed(p: PositionState): (closed: bool)
    ensures closed ==> MarketValue(p) == 0.0 && UnrealizedGain(p) == 0.0
    ensures p.price != 0.0 ==> (closed <==> MarketValue(p) == 0.0)
  {
    p.amount == 0.0
  }

  /** The market value of the position at its mark price: nothing for an empty position, never negative for a long one. */
  function MarketValue(p: PositionState): (v: real)
    ensures p.amount == 0.0 ==> v == 0.0
    ensures p.amount >= 0.0 && p.price >= 0.0 ==> v >= 0.0
  {
    p.amount * p.price
  }

  /** Gain since entry: market value minus what the held amount cost on average. */
  function UnrealizedGain(p: PositionState): (g: real)
    ensures g == p.amount * (p.price - p.avgEntryPrice)
    ensures p.amount >= 0.0 ==> (g >= 0.0 <==> p.amount == 0.0 || p.price >= p.avgEntryPrice)
  {
    p.amount * p.price - p.amount * p.avgEntryPrice
  }

  /** The market value is what the held amount cost at the average entry price plus the unrealized gain. */
  lemma ValueIsCostPlusGain(p: PositionState)
    ensures MarketValue(p) == p.amount * p.avgEntryPrice + UnrealizedGain(p)
  {
  }

  /** The snapshot of a position: its identity, amount, mark price and unrealized gain. */
  function Snapshot(p: PositionState): (s: PositionSnapshot)
    ensures s.security == p.security && s.side == p.side
    ensures s.amount == p.amount && s.price == p.price
    ensures s.unrealizedGain == MarketValue(p) - p.amount * p.avgEntryPrice
  {
    PositionSnapshot(p.security, p.side, p.amount, p.price, UnrealizedGain(p))
  }

  /**
   * A BUY on a BUY position keeps the total cost: the new average entry price times
   * the new amount is the old cost plus the order's cost.
   */
  lemma BuyKeepsCost(p: PositionState, o: Order)
    requires p.side == Buy && o.side == Buy && AverageDefined(p, o)
    ensures Apply(p, o).value.avgEntryPrice * Apply(p, o).value.amount
      == p.avgEntryPrice * p.amount + o.price * o.amount
  {
  }

  /** Selling exactly the held amount succeeds and closes the position. */
  lemma SellAllCloses(p: PositionState, o: Order)
    requires p.side == Buy && o.side == Sell && o.amount == p.amount
    ensures Apply(p, o).Success? && Closed(Apply(p, o).value)
  {
  }

  /** With nonnegative amounts, a BUY moves the average entry price between the old average and the order price. */
  lemma AverageBetween(p: PositionState, o: Order, lo: real, hi: real)
    requires p.side == Buy && o.side == Buy
    requires p.amount >= 0.0 && o.amount >= 0.0 && p.amount + o.amount > 0.0
    requires lo <= p.avgEntryPrice <= hi && lo <= o.price <= hi
    ensures lo <= Apply(p, o).value.avgEntryPrice <= hi
  {
    var a := p.amount + o.amount;
    var avg := Apply(p, o).value.avgEntryPrice;
    BuyKeepsCost(p, o);
    assert avg * a == p.avgEntryPrice * p.amount + o.price * o.amount;
    WeightedBounds(lo, hi, p.avgEntryPrice, o.price, p.amount, o.amount, avg);
  }

  /** A weighted average of two values in [lo, hi] with nonnegative weights lies in [lo, hi]. */
  lemma WeightedBounds(lo: real, hi: real, x: real, y: real, a: real, b: real, avg: real)
    requires lo <= x <= hi && lo <= y <= hi
    requires a >= 0.0 && b >= 0.0 && a + b > 0.0
    requires avg * (a + b) == x * a + y * b
    ensures lo <= avg <= hi
  {
    WeightedLower(lo, x, y, a, b);
    CancelFactor(lo, avg, a + b);
    WeightedLower(-hi, -x, -y, a, b);
    assert -hi * (a + b) <= -x * a + -y * b;
    assert (-avg) * (a + b) == -x * a + -y * b;
    CancelFactor(-hi, -avg, a + b);
  }

  lemma WeightedLower(lo: real, x: real, y: real, a: real, b: real)
    requires lo <= x && lo <= y && a >= 0.0 && b >= 0.0
    ensures lo * (a + b) <= x * a + y * b
  {
    ScaleMono(lo, x, a);
    ScaleMono(lo, y, b);
    assert lo * (a + b) == lo * a + lo * b;
  }

  lemma CancelFactor(x: real, y: real, k: real)
    requires k > 0.0 && x * k <= y * k
    ensures x <= y
  {
    if x > y {
      StrictScale(y, x, k);
    }
  }

  lemma ScaleMono(x: real, y: real, k: real)
    requires x <= y && k >= 0.0
    ensures x * k <= y * k
  {
  }

  lemma StrictScale(x: real, y: real, k: real)
    requires x < y && k > 0.0
    ensures x * k < y * k
  {
  }

  /** The sum of the amounts of a sequence of orders. */
  function TotalAmount(orders: seq<Order>): real {
    if orders == [] then 0.0 else orders[0].amount + TotalAmount(orders[1..])
  }

  /** Every order is a BUY of a nonnegative amount. */
  predicate AllBuys(orders: seq<Order>) {
    forall i :: 0 <= i < |orders| ==> orders[i].side == Buy && orders[i].amount >= 0.0
  }

  /** Applying a sequence of BUY orders, one after the other, to a BUY position holding shares. */
  function ApplyBuys(p: PositionState, orders: seq<Order>): (q: PositionState)
    requires p.side == Buy && p.amount > 0.0 && AllBuys(orders)
    ensures q.side == Buy && q.security == p.security && q.amount > 0.0
    decreases |orders|
  {
    if orders == [] then p
    else ApplyBuys(Apply(p, orders[0]).value, orders[1..])
  }

  /**
   * On a position opened by a BUY, any further sequence of BUYs keeps the average
   * entry price within the range of all the order prices and makes the amount the
   * sum of all ordered amounts.
   */
  lemma {:induction false} BuysKeepAverageInRange(p: PositionState, orders: seq<Order>, lo: real, hi: real)
    requires p.side == Buy && p.amount > 0.0 && AllBuys(orders)
    requires lo <= p.avgEntryPrice <= hi
    requires forall i :: 0 <= i < |orders| ==> lo <= orders[i].price <= hi
    ensures lo <= ApplyBuys(p, orders).avgEntryPrice <= hi
    ensures ApplyBuys(p, orders).amount == p.amount + TotalAmount(orders)
    decreases |orders|
  {
    if orders != [] {
      AverageBetween(p, orders[0], lo, hi);
      var next := Apply(p, orders[0]).value;
      BuysKeepAverageInRange(next, orders[1..], lo, hi);
    }
  }

  /** The same, stated from the opening order: a fresh position followed by BUYs. */
  lemma FreshBuysKeepAverageInRange(first: Order, orders: seq<Order>, lo: real, hi: real)
    requires first.side == Buy && first.amount > 0.0 && AllBuys(orders)
    requires lo <= first.price <= hi
    requires forall i :: 0 <= i < |orders| ==> lo <= orders[i].price <= hi
    ensures lo <= ApplyBuys(Opened(first), orders).avgEntryPrice <= hi
    ensures ApplyBuys(Opened(first), orders).amount == TotalAmount([first] + orders)
  {
    BuysKeepAverageInRange(Opened(first), orders, lo, hi);
    assert ([first] + orders)[1..] == orders;
  }

  /** The test suite's opening order: a BUY of two FAKE at two. */
  const ExampleOpening := Order(Buy, "FAKE", 2.0, 2.0)

  /**
   * The test suite's positions opened by that order: a BUY of two more at three averages the
   * entry price to 2.5; SELLs of one and of two at three keep the average entry price
   * and leave one share or a closed position; a SELL of three is refused, as is any
   * order on a position whose side is SELL.
   */
  lemma ExecuteOrderExamples()
    ensures Apply(Opened(ExampleOpening), Order(Buy, "FAKE", 3.0, 2.0))
      == Success(PositionState("FAKE", Buy, 4.0, 2.5, 3.0))
    ensures Apply(Opened(ExampleOpening), Order(Sell, "FAKE", 3.0, 1.0))
      == Success(PositionState("FAKE", Buy, 1.0, 2.0, 3.0))
    ensures Apply(Opened(ExampleOpening), Order(Sell, "FAKE", 3.0, 2.0))
      == Success(PositionState("FAKE", Buy, 0.0, 2.0, 3.0))
    ensures Closed(Apply(Opened(ExampleOpening), Order(Sell, "FAKE", 3.0, 2.0)).value)
    ensures Apply(Opened(ExampleOpening), Order(Sell, "FAKE", 3.0, 3.0)) == Failure(OverSell)
    ensures Apply(Opened(ExampleOpening).(side := Sell), Order(Sell, "FAKE", 3.0, 3.0))
      == Failure(UnsupportedOperation)
    ensures MarketValue(Opened(ExampleOpening)) == 4.0
  {
  }

  /** A mutable position, updated in place by orders and price marks. */
  class Position {
    var security: string
    var side: Side
    var amount: real
    var avgEntryPrice: real
    var price: real

    /** The current field values. */
    function State(): PositionState
      reads this
    {
      PositionState(security, side, amount, avgEntryPrice, price)
    }

    /** Opens a position from an order: security, side and amount copied, both prices at the order price. */
    constructor (o: Order)
      ensures security == o.security && side == o.side && amount == o.amount
      ensures avgEntryPrice == o.price && price == o.price
      ensures State() == Opened(o)
    {
      security := o.security;
      side := o.side;
      amount := o.amount;
      avgEntryPrice := o.price;
      price := o.price;
    }

    /** Applies an order in place; on failure nothing changes. */
    method ExecuteOrder(o: Order) returns (err: Option<Error>)
      requires AverageDefined(State(), o)
      modifies this
      ensures Apply(old(State()), o).Success? ==>
        err == None && State() == Apply(old(State()), o).value
      ensures Apply(old(State()), o).Failure? ==>
        err == Some(Apply(old(State()), o).error) && State() == old(State())
    {
      if side == Buy && o.side == Buy {
        ghost var next := Apply(State(), o).value;
        var newTotalValue := avgEntryPrice * amount + o.price * o.amount;
        var newAmount := amount + o.amount;
        assert next.avgEntryPrice == newTotalValue / newAmount;
        avgEntryPrice := newTotalValue / newAmount;
        amount := newAmount;
        price := o.price;
        assert State() == next;
        return None;
      } else if side == Buy && o.side == Sell {
        var intermediate := amount - o.amount;
        if intermediate < 0.0 {
          return Some(OverSell);
        }
        amount := intermediate;
        price := o.price;
        return None;
      } else {
        return Some(UnsupportedOperation);
      }
    }

    /** Marks the position at a new price; nothing else changes. */
    method UpdatePrice(newPrice: real)
      modifies this
      ensures State() == old(State()).(price := newPrice)
    {
      price := newPrice;
    }

    function IsClosed(): bool
      reads this
    {
      Closed(State())
    }

    function UnrealizedEquity(): real
      reads this
    {
      MarketValue(State())
    }

    function ExportSnapshot(): PositionSnapshot
      reads this
    {
      Snapshot(State())
    }
  }
}
