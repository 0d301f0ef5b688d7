/** Domain values shared by every component (include/qsl/core/types.hpp, include/qsl/engine/order.hpp). */
module Types {
  type OrderId = nat
  type SymbolId = nat
  type Price = int
  type Quantity = nat

  datatype Option<+T> = None | Some(value: T)

  datatype Side = Buy | Sell
  datatype TimeInForce = GTC | IOC

  /** A resting order; its time priority is its position within its price level. */
  datatype Order = Order(id: OrderId, side: Side, price: Price, quantity: Quantity)

  /** One fill. It executes at the resting maker's price. */
  datatype Trade = Trade(takerId: OrderId, makerId: OrderId, price: Price, quantity: Quantity)

  /** Aggregate resting quantity at one price. */
  datatype LevelView = LevelView(price: Price, quantity: nat)

  function Opposite(side: Side): Side {
    if side.Buy? then Sell else Buy
  }

  function Min(a: nat, b: nat): nat {
    if a <= b then a else b
  }
}
