/**
 * The reference semantics of a single-symbol order book: each side is one sequence of orders in
 * price-time priority. The three storages are proved against these functions.
 */
module BookSpec {
  import opened Types

  datatype Book = Book(bids: seq<Order>, asks: seq<Order>)

  const EMPTY_BOOK := Book([], [])

  /** The incoming order, as far as matching looks at it. */
  datatype Taker = Taker(id: OrderId, side: Side, isMarket: bool, limit: Price)

  datatype MatchOutcome = MatchOutcome(trades: seq<Trade>, makers: seq<Order>, remainder: Quantity)

  /** Where resting state lives, and hence which remainders can be refused. */
  datatype Storage =
    | Baseline
    | Intrusive(capacity: nat)
    | Contiguous(minPrice: Price, maxPrice: Price)

  datatype Applied = Applied(book: Book, trades: seq<Trade>)

  // ---- Priority -----------------------------------------------------------------------------

  /** `p` has strictly better price priority than `q` among resting orders of `side`. */
  predicate Better(side: Side, p: Price, q: Price) {
    if side.Buy? then p > q else p < q
  }

  predicate Crosses(t: Taker, levelPrice: Price) {
    t.isMarket || (if t.side.Buy? then levelPrice <= t.limit else levelPrice >= t.limit)
  }

  function SideOf(b: Book, side: Side): seq<Order> {
    if side.Buy? then b.bids else b.asks
  }

  function WithSide(b: Book, side: Side, q: seq<Order>): Book {
    if side.Buy? then Book(q, b.asks) else Book(b.bids, q)
  }

  // ---- Queue primitives ---------------------------------------------------------------------

  predicate Has(q: seq<Order>, id: OrderId) {
    exists i :: 0 <= i < |q| && q[i].id == id
  }

  predicate Contains(b: Book, id: OrderId) {
    Has(b.bids, id) || Has(b.asks, id)
  }

  function Lookup(q: seq<Order>, id: OrderId): Order
    requires Has(q, id)
  {
    if q[0].id == id then q[0] else Lookup(q[1..], id)
  }

  function Find(b: Book, id: OrderId): Order
    requires Contains(b, id)
  {
    if Has(b.bids, id) then Lookup(b.bids, id) else Lookup(b.asks, id)
  }

  function Remove(q: seq<Order>, id: OrderId): seq<Order> {
    if q == [] then [] else if q[0].id == id then q[1..] else [q[0]] + Remove(q[1..], id)
  }

  function Resize(q: seq<Order>, id: OrderId, quantity: Quantity): seq<Order> {
    if q == [] then []
    else if q[0].id == id then [q[0].(quantity := quantity)] + q[1..]
    else [q[0]] + Resize(q[1..], id, quantity)
  }

  /** Behind every order that is not worse priced: the tail of its own price level. */
  function Insert(q: seq<Order>, o: Order): seq<Order> {
    if q == [] then [o]
    else if Better(o.side, o.price, q[0].price) then [o] + q
    else [q[0]] + Insert(q[1..], o)
  }

  // ---- Matching -----------------------------------------------------------------------------

  function Match(t: Taker, makers: seq<Order>, quantity: Quantity): MatchOutcome {
    if quantity == 0 || makers == [] || !Crosses(t, makers[0].price) then
      MatchOutcome([], makers, quantity)
    else
      var maker := makers[0];
      var traded := Min(quantity, maker.quantity);
      var trade := Trade(t.id, maker.id, maker.price, traded);
      if traded == maker.quantity then
        var rest := Match(t, makers[1..], quantity - traded);
        rest.(trades := [trade] + rest.trades)
      else
        MatchOutcome([trade], [maker.(quantity := maker.quantity - traded)] + makers[1..], 0)
  }

  /** The outcome `m` with the trades already made in front. */
  function After(made: seq<Trade>, m: MatchOutcome): MatchOutcome {
    m.(trades := made + m.trades)
  }

  function LimitTaker(id: OrderId, side: Side, price: Price): Taker {
    Taker(id, side, false, price)
  }

  function MatchIn(b: Book, t: Taker, quantity: Quantity): MatchOutcome {
    Match(t, SideOf(b, Opposite(t.side)), quantity)
  }

  /** How many trades the taker would make. */
  function FillCount(b: Book, t: Taker, quantity: Quantity): nat {
    |MatchIn(b, t, quantity).trades|
  }

  function OrderCount(b: Book): nat {
    |b.bids| + |b.asks|
  }

  // ---- Storage gates ------------------------------------------------------------------------

  predicate InBand(st: Storage, price: Price)
    requires st.Contiguous?
  {
    st.minPrice <= price <= st.maxPrice
  }

  predicate CanStoreLimit(st: Storage, b: Book, id: OrderId, side: Side, price: Price, quantity: Quantity,
                          tif: TimeInForce)
  {
    var m := MatchIn(b, LimitTaker(id, side, price), quantity);
    match st
    case Baseline => true
    case Intrusive(capacity) =>
      tif.IOC? || OrderCount(b) < capacity || m.remainder == 0
      || |m.makers| < |SideOf(b, Opposite(side))|
    case Contiguous(_, _) =>
      tif.IOC? || InBand(st, price) || m.remainder == 0
  }

  predicate ReducesInPlace(o: Order, price: Price, quantity: Quantity) {
    price == o.price && quantity <= o.quantity
  }

  predicate CanApplyModify(st: Storage, b: Book, id: OrderId, price: Price, quantity: Quantity) {
    match st
    case Baseline => true
    case Intrusive(_) => true
    case Contiguous(_, _) =>
      || !Contains(b, id)
      || quantity == 0
      || ReducesInPlace(Find(b, id), price, quantity)
      || InBand(st, price)
      || MatchIn(b, LimitTaker(id, Find(b, id).side, price), quantity).remainder == 0
  }

  // ---- Operations ---------------------------------------------------------------------------

  function AddLimit(st: Storage, b: Book, id: OrderId, side: Side, price: Price, quantity: Quantity,
                    tif: TimeInForce): Applied
  {
    if Contains(b, id) || !CanStoreLimit(st, b, id, side, price, quantity, tif) then Applied(b, [])
    else
      var m := MatchIn(b, LimitTaker(id, side, price), quantity);
      var crossed := WithSide(b, Opposite(side), m.makers);
      if m.remainder == 0 || tif.IOC? then Applied(crossed, m.trades)
      else
        var o := Order(id, side, price, m.remainder);
        Applied(WithSide(crossed, side, Insert(SideOf(crossed, side), o)), m.trades)
  }

  function AddMarket(b: Book, id: OrderId, side: Side, quantity: Quantity): Applied {
    if Contains(b, id) then Applied(b, [])
    else
      var m := MatchIn(b, Taker(id, side, true, 0), quantity);
      Applied(WithSide(b, Opposite(side), m.makers), m.trades)
  }

  function Cancel(b: Book, id: OrderId): Book {
    if Has(b.bids, id) then Book(Remove(b.bids, id), b.asks) else Book(b.bids, Remove(b.asks, id))
  }

  function Modify(st: Storage, b: Book, id: OrderId, price: Price, quantity: Quantity): Applied {
    if !Contains(b, id) || !CanApplyModify(st, b, id, price, quantity) then Applied(b, [])
    else if quantity == 0 then Applied(Cancel(b, id), [])
    else
      var o := Find(b, id);
      if ReducesInPlace(o, price, quantity) then
        Applied(WithSide(b, o.side, Resize(SideOf(b, o.side), id, quantity)), [])
      else
        AddLimit(st, Cancel(b, id), id, o.side, price, quantity, GTC)
  }

  // ---- Queries ------------------------------------------------------------------------------

  function BestPrice(q: seq<Order>): Option<Price> {
    if q == [] then None else Some(q[0].price)
  }

  function TotalQuantity(q: seq<Order>): nat {
    if q == [] then 0 else q[0].quantity + TotalQuantity(q[1..])
  }

  /** Resting quantity at exactly `price`. */
  function QuantityAt(q: seq<Order>, price: Price): nat {
    if q == [] then 0
    else (if q[0].price == price then q[0].quantity else 0) + QuantityAt(q[1..], price)
  }

  /** The run-length view of a side: one entry per distinct consecutive price, best first. */
  function Levels(q: seq<Order>): seq<LevelView> {
    if q == [] then []
    else
      var rest := Levels(q[1..]);
      if rest != [] && rest[0].price == q[0].price then
        [LevelView(q[0].price, q[0].quantity + rest[0].quantity)] + rest[1..]
      else [LevelView(q[0].price, q[0].quantity)] + rest
  }

  function RestingOrders(b: Book): seq<Order> {
    b.bids + b.asks
  }

  // ---- What every reachable book satisfies --------------------------------------------------

  ghost predicate Sorted(side: Side, q: seq<Order>) {
    forall i, j :: 0 <= i < j < |q| ==> !Better(side, q[j].price, q[i].price)
  }

  ghost predicate LiveOn(side: Side, q: seq<Order>) {
    forall i :: 0 <= i < |q| ==> q[i].side == side && q[i].quantity > 0
  }

  ghost predicate DistinctIds(q: seq<Order>) {
    forall i, j :: 0 <= i < j < |q| ==> q[i].id != q[j].id
  }

  ghost predicate DisjointIds(p: seq<Order>, q: seq<Order>) {
    forall i, j :: 0 <= i < |p| && 0 <= j < |q| ==> p[i].id != q[j].id
  }

  ghost predicate SideOk(side: Side, q: seq<Order>) {
    Sorted(side, q) && LiveOn(side, q) && DistinctIds(q)
  }

  ghost predicate Uncrossed(b: Book) {
    b.bids != [] && b.asks != [] ==> b.bids[0].price < b.asks[0].price
  }

  ghost predicate BookOk(b: Book) {
    && SideOk(Buy, b.bids)
    && SideOk(Sell, b.asks)
    && DisjointIds(b.bids, b.asks)
    && Uncrossed(b)
  }

  // ---- Commands against one book ------------------------------------------------------------

  datatype BookCommand =
    | LimitCmd(id: OrderId, side: Side, price: Price, quantity: Quantity, tif: TimeInForce)
    | MarketCmd(id: OrderId, side: Side, quantity: Quantity)
    | CancelCmd(id: OrderId)
    | ModifyCmd(id: OrderId, price: Price, quantity: Quantity)

  function Apply(st: Storage, b: Book, c: BookCommand): Applied {
    match c
    case LimitCmd(id, side, price, quantity, tif) => AddLimit(st, b, id, side, price, quantity, tif)
    case MarketCmd(id, side, quantity) => AddMarket(b, id, side, quantity)
    case CancelCmd(id) => Applied(Cancel(b, id), [])
    case ModifyCmd(id, price, quantity) => Modify(st, b, id, price, quantity)
  }

  /** The storage declines the command because a remainder could not be kept. */
  predicate Refuses(st: Storage, b: Book, c: BookCommand) {
    match c
    case LimitCmd(id, side, price, quantity, tif) => !CanStoreLimit(st, b, id, side, price, quantity, tif)
    case MarketCmd(_, _, _) => false
    case CancelCmd(_) => false
    case ModifyCmd(id, price, quantity) => !CanApplyModify(st, b, id, price, quantity)
  }

  /** Trades of every command in turn, and the book at the end. */
  function Run(st: Storage, b: Book, cs: seq<BookCommand>): (Book, seq<seq<Trade>>)
    decreases |cs|
  {
    if cs == [] then (b, [])
    else
      var a := Apply(st, b, cs[0]);
      var (end, rest) := Run(st, a.book, cs[1..]);
      (end, [a.trades] + rest)
  }

  predicate NeverRefuses(st: Storage, b: Book, cs: seq<BookCommand>)
    decreases |cs|
  {
    cs == [] || (!Refuses(st, b, cs[0]) && NeverRefuses(st, Apply(st, b, cs[0]).book, cs[1..]))
  }
}
