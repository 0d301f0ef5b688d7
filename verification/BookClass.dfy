/** One symbol's book on a storage chosen at construction, forwarding every call to that storage. */
module BookClass {
  import opened Types
  import opened BookSpec
  import BaselineStore
  import ContiguousStore
  import IntrusiveStore

  const COMPACT_MIN := 16

  datatype AnyStore =
    | Listed(listed: BaselineStore.Store)
    | Flat(flat: ContiguousStore.Store)
    | Linked(linked: IntrusiveStore.Store)

  /** A contiguous band has at least one price. */
  predicate Constructible(storage: Storage) {
    storage.Contiguous? ==> storage.minPrice <= storage.maxPrice
  }

  /** The objects a storage keeps its orders in. */
  ghost function Footprint(store: AnyStore): set<object> {
    match store
    case Listed(b) => {b}
    case Flat(c) => {c, c.bidBits.words, c.askBits.words}
    case Linked(p) => p.Repr()
  }

  class OrderBook {
    const store: AnyStore
    ghost const Repr: set<object>

    ghost predicate Valid()
      reads Repr
    {
      && Repr == Footprint(store)
      && match store
      case Listed(b) => b.Valid()
      case Flat(c) => c.Valid()
      case Linked(p) => p.Valid()
    }

    ghost function Mode(): Storage {
      match store
      case Listed(_) => Baseline
      case Flat(c) => c.Mode()
      case Linked(p) => p.Mode()
    }

    ghost function Book(): Book
      reads Repr
      requires Valid()
    {
      match store
      case Listed(b) => b.Book()
      case Flat(c) => c.Book()
      case Linked(p) => p.Book()
    }

    constructor (storage: Storage)
      requires Constructible(storage)
      ensures Valid() && Book() == EMPTY_BOOK && Mode() == storage && fresh(Repr)
    {
      hide BaselineStore.Store.Valid, BaselineStore.Store.Book, ContiguousStore.Store.Valid, ContiguousStore.Store.Book;
      hide IntrusiveStore.Store.Valid, IntrusiveStore.Store.Book;
      match storage
      case Baseline =>
        var b := new BaselineStore.Store();
        store := Listed(b);
        Repr := Footprint(Listed(b));
      case Contiguous(minPrice, maxPrice) =>
        var c := new ContiguousStore.Store(minPrice, maxPrice, COMPACT_MIN);
        store := Flat(c);
        Repr := Footprint(Flat(c));
      case Intrusive(capacity) =>
        var p := new IntrusiveStore.Store(capacity);
        store := Linked(p);
        Repr := Footprint(Linked(p));
    }

    // ---- Queries -----------------------------------------------------------------------------

    method ContainsOrder(id: OrderId) returns (found: bool)
      requires Valid()
      ensures Valid() && found == Contains(Book(), id)
    {
      hide BaselineStore.Store.Valid, BaselineStore.Store.Book, ContiguousStore.Store.Valid, ContiguousStore.Store.Book;
      hide IntrusiveStore.Store.Valid, IntrusiveStore.Store.Book;
      match store
      case Listed(b) => found := b.ContainsOrder(id);
      case Flat(c) => found := c.ContainsOrder(id);
      case Linked(p) => found := p.ContainsOrder(id);
    }

    method BestPriceOf(side: Side) returns (best: Option<Price>)
      requires Valid()
      ensures Valid() && best == BestPrice(SideOf(Book(), side))
    {
      hide BaselineStore.Store.Valid, BaselineStore.Store.Book, ContiguousStore.Store.Valid, ContiguousStore.Store.Book;
      hide IntrusiveStore.Store.Valid, IntrusiveStore.Store.Book;
      match store
      case Listed(b) => best := b.BestPriceOf(side);
      case Flat(c) => best := c.BestPriceOf(side);
      case Linked(p) => best := p.BestPriceOf(side);
    }

    method QuantityAtPrice(side: Side, price: Price) returns (total: nat)
      requires Valid()
      ensures Valid() && total == QuantityAt(SideOf(Book(), side), price)
    {
      hide BaselineStore.Store.Valid, BaselineStore.Store.Book, ContiguousStore.Store.Valid, ContiguousStore.Store.Book;
      hide IntrusiveStore.Store.Valid, IntrusiveStore.Store.Book;
      match store
      case Listed(b) => total := b.QuantityAtPrice(side, price);
      case Flat(c) => total := c.QuantityAtPrice(side, price);
      case Linked(p) => total := p.QuantityAtPrice(side, price);
    }

    method LevelViews(side: Side) returns (views: seq<LevelView>)
      requires Valid()
      ensures Valid() && views == BookSpec.Levels(SideOf(Book(), side))
    {
      hide BaselineStore.Store.Valid, BaselineStore.Store.Book, ContiguousStore.Store.Valid, ContiguousStore.Store.Book;
      hide IntrusiveStore.Store.Valid, IntrusiveStore.Store.Book;
      match store
      case Listed(b) => views := b.LevelViews(side);
      case Flat(c) => views := c.LevelViews(side);
      case Linked(p) => views := p.LevelViews(side);
    }

    method RestingOrders() returns (out: seq<Order>)
      requires Valid()
      ensures Valid() && out == BookSpec.RestingOrders(Book())
    {
      hide BaselineStore.Store.Valid, BaselineStore.Store.Book, ContiguousStore.Store.Valid, ContiguousStore.Store.Book;
      hide IntrusiveStore.Store.Valid, IntrusiveStore.Store.Book;
      match store
      case Listed(b) => out := b.RestingOrders();
      case Flat(c) => out := c.RestingOrders();
      case Linked(p) => out := p.RestingOrders();
    }

    method Count() returns (n: nat)
      requires Valid()
      ensures Valid() && n == OrderCount(Book())
    {
      hide BaselineStore.Store.Valid, BaselineStore.Store.Book, ContiguousStore.Store.Valid, ContiguousStore.Store.Book;
      hide IntrusiveStore.Store.Valid, IntrusiveStore.Store.Book;
      match store
      case Listed(b) => n := b.Count();
      case Flat(c) => n := c.Count();
      case Linked(p) => n := p.Count();
    }

    method FillCount(t: Taker, quantity: Quantity) returns (count: nat)
      requires Valid()
      ensures Valid() && count == BookSpec.FillCount(Book(), t, quantity)
    {
      hide BaselineStore.Store.Valid, BaselineStore.Store.Book, ContiguousStore.Store.Valid, ContiguousStore.Store.Book;
      hide IntrusiveStore.Store.Valid, IntrusiveStore.Store.Book;
      match store
      case Listed(b) => count := b.FillCount(t, quantity);
      case Flat(c) => count := c.FillCount(t, quantity);
      case Linked(p) => count := p.FillCount(t, quantity);
    }

    /** The baseline stores anything. */
    method CanStoreLimit(side: Side, price: Price, quantity: Quantity, tif: TimeInForce, ghost id: OrderId)
      returns (ok: bool)
      requires Valid()
      ensures Valid() && ok == BookSpec.CanStoreLimit(Mode(), Book(), id, side, price, quantity, tif)
    {
      hide BaselineStore.Store.Valid, BaselineStore.Store.Book, ContiguousStore.Store.Valid, ContiguousStore.Store.Book;
      hide IntrusiveStore.Store.Valid, IntrusiveStore.Store.Book;
      match store
      case Listed(b) => ok := true;
      case Flat(c) => ok := c.CanStoreLimit(side, price, quantity, tif, id);
      case Linked(p) => ok := p.CanStoreLimit(side, price, quantity, tif, id);
    }

    /** Only a price band can refuse a modify. */
    method CanApplyModify(id: OrderId, price: Price, quantity: Quantity) returns (ok: bool)
      requires Valid()
      ensures Valid() && ok == BookSpec.CanApplyModify(Mode(), Book(), id, price, quantity)
    {
      hide BaselineStore.Store.Valid, BaselineStore.Store.Book, ContiguousStore.Store.Valid, ContiguousStore.Store.Book;
      hide IntrusiveStore.Store.Valid, IntrusiveStore.Store.Book;
      match store
      case Listed(b) => ok := true;
      case Flat(c) => ok := c.CanApplyModify(id, price, quantity);
      case Linked(p) => ok := true;
    }

    // ---- Operations --------------------------------------------------------------------------

    method AddLimit(id: OrderId, side: Side, price: Price, quantity: Quantity, tif: TimeInForce)
      returns (trades: seq<Trade>)
      requires Valid()
      modifies Repr
      ensures Valid()
      ensures Applied(Book(), trades) == BookSpec.AddLimit(Mode(), old(Book()), id, side, price, quantity, tif)
    {
      hide BaselineStore.Store.Valid, BaselineStore.Store.Book, ContiguousStore.Store.Valid, ContiguousStore.Store.Book;
      hide IntrusiveStore.Store.Valid, IntrusiveStore.Store.Book;
      hide BookSpec.AddLimit;
      match store
      case Listed(b) => trades := b.AddLimit(id, side, price, quantity, tif);
      case Flat(c) => trades := c.AddLimit(id, side, price, quantity, tif);
      case Linked(p) => trades := p.AddLimit(id, side, price, quantity, tif);
    }

    method AddMarket(id: OrderId, side: Side, quantity: Quantity) returns (trades: seq<Trade>)
      requires Valid()
      modifies Repr
      ensures Valid() && Applied(Book(), trades) == BookSpec.AddMarket(old(Book()), id, side, quantity)
    {
      hide BaselineStore.Store.Valid, BaselineStore.Store.Book, ContiguousStore.Store.Valid, ContiguousStore.Store.Book;
      hide IntrusiveStore.Store.Valid, IntrusiveStore.Store.Book;
      hide BookSpec.AddMarket;
      match store
      case Listed(b) => trades := b.AddMarket(id, side, quantity);
      case Flat(c) => trades := c.AddMarket(id, side, quantity);
      case Linked(p) => trades := p.AddMarket(id, side, quantity);
    }

    method Cancel(id: OrderId) returns (ok: bool)
      requires Valid()
      modifies Repr
      ensures Valid() && ok == Contains(old(Book()), id) && Book() == BookSpec.Cancel(old(Book()), id)
    {
      hide BaselineStore.Store.Valid, BaselineStore.Store.Book, ContiguousStore.Store.Valid, ContiguousStore.Store.Book;
      hide IntrusiveStore.Store.Valid, IntrusiveStore.Store.Book;
      hide BookSpec.Cancel, Contains;
      match store
      case Listed(b) => ok := b.Cancel(id);
      case Flat(c) => ok := c.Cancel(id);
      case Linked(p) => ok := p.Cancel(id);
    }

    method Modify(id: OrderId, price: Price, quantity: Quantity) returns (trades: seq<Trade>)
      requires Valid()
      modifies Repr
      ensures Valid() && Applied(Book(), trades) == BookSpec.Modify(Mode(), old(Book()), id, price, quantity)
    {
      hide BaselineStore.Store.Valid, BaselineStore.Store.Book, ContiguousStore.Store.Valid, ContiguousStore.Store.Book;
      hide IntrusiveStore.Store.Valid, IntrusiveStore.Store.Book;
      hide BookSpec.Modify;
      match store
      case Listed(b) => trades := b.Modify(id, price, quantity);
      case Flat(c) => trades := c.Modify(id, price, quantity);
      case Linked(p) => trades := p.Modify(id, price, quantity);
    }

    method Apply(c: BookCommand) returns (trades: seq<Trade>)
      requires Valid()
      modifies Repr
      ensures Valid() && Applied(Book(), trades) == BookSpec.Apply(Mode(), old(Book()), c)
    {
      hide BaselineStore.Store.Valid, BaselineStore.Store.Book, ContiguousStore.Store.Valid, ContiguousStore.Store.Book;
      hide IntrusiveStore.Store.Valid, IntrusiveStore.Store.Book;
      hide BookSpec.Apply;
      match store
      case Listed(b) => trades := b.Apply(c);
      case Flat(f) => trades := f.Apply(c);
      case Linked(p) => trades := p.Apply(c);
    }
  }
}
