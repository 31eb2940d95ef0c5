/** Orders: an instruction to buy or sell an amount of a security at a price. */
module Orders {

  /** The side of an order: exactly the two values BUY and SELL. */
  datatype Side = Buy | Sell

  /** An order. The broker metadata (order type, time in force, execution time) is not modelled. */
  datatype Order = Order(side: Side, security: string, price: real, amount: real)

  /** The total cost of executing the order. */
  function CostBasis(o: Order): (c: real)
    ensures o.amount == 0.0 || o.price == 0.0 ==> c == 0.0
    ensures o.amount >= 0.0 && o.price >= 0.0 ==> c >= 0.0
  {
    o.amount * o.price
  }

  /** The cost basis depends on amount and price only, not on side or security. */
  lemma CostBasisIgnoresSideAndSecurity(o1: Order, o2: Order)
    requires o1.amount == o2.amount && o1.price == o2.price
    ensures CostBasis(o1) == CostBasis(o2)
  {
  }

  /** Ten units at a price of ten cost one hundred. */
  lemma CostBasisExample()
    ensures CostBasis(Order(Buy, "FAKE", 10.0, 10.0)) == 100.0
  {
  }
}
