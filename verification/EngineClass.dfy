/** The engine and the gateway as the objects the program mutates, proved against the transition functions. */
module EngineClass {
  import opened Types
  import opened BookSpec
  import opened MatchSteps
  import opened BookClass
  import opened Engine
  import opened Gateway

  class MatchingEngine {
    const storage: Storage
    var names: map<string, SymbolId>
    var next: SymbolId
    var books: map<SymbolId, OrderBook>
    var seqNo: nat
    var events: seq<Event>
    ghost var Repr: set<object>

    /** Every book is owned by the engine alone, and no two books share an object. */
    ghost predicate Valid()
      reads this`books, this`Repr, Repr
    {
      && Constructible(storage) && this !in Repr
      && (forall s :: s in books ==> books[s].Repr <= Repr && books[s].Valid() && books[s].Mode() == storage)
      && (forall s, t :: s in books && t in books && s != t ==> books[s].Repr !! books[t].Repr)
    }

    ghost function Books(): map<SymbolId, Book>
      reads this`books, this`Repr, Repr
      requires Valid()
    {
      map s | s in books :: books[s].Book()
    }

    ghost function State(): Engine
      reads this, Repr
      requires Valid()
    {
      Engine(storage, names, next, Books(), seqNo)
    }

    constructor (storage: Storage)
      requires Constructible(storage)
      ensures Valid() && fresh(Repr) && State() == Fresh(storage) && events == []
    {
      this.storage := storage;
      names, next, books, seqNo, events := map[], 0, map[], 0, [];
      Repr := {};
    }

    lemma {:induction false} OneBook(symbol: SymbolId)
      requires Valid()
      ensures Constructible(storage) && this !in Repr && (symbol in books <==> symbol in Books())
      ensures symbol in books ==>
                var book := books[symbol];
                && book.Valid() && book.Mode() == storage && book.Repr <= Repr
                && Books()[symbol] == book.Book()
    {
      hide OrderBook.Valid, OrderBook.Book, OrderBook.Mode;
    }

    /** What happened inside one book shows in that book only. */
    twostate lemma OneBookChanged(symbol: SymbolId)
      requires old(Valid()) && symbol in books && books == old(books) && Repr == old(Repr) && books[symbol].Valid()
      requires unchanged(Repr - books[symbol].Repr)
      ensures Valid() && Books() == old(Books())[symbol := books[symbol].Book()]
    {
      hide OrderBook.Valid, OrderBook.Book, OrderBook.Mode;
    }

    /** A new empty book is nobody else's. */
    twostate lemma BookAdded(symbol: SymbolId, new book: OrderBook)
      requires old(Valid()) && symbol !in old(books) && books == old(books)[symbol := book]
      requires book.Valid() && book.Mode() == storage && fresh(book.Repr) && Repr == old(Repr) + book.Repr
      requires unchanged(old(Repr))
      ensures Valid() && Books() == old(Books())[symbol := book.Book()]
    {
      hide OrderBook.Valid, OrderBook.Book, OrderBook.Mode;
    }

    method RegisterSymbol(name: string) returns (id: SymbolId)
      requires Valid()
      modifies this
      ensures Valid() && fresh(Repr - old(Repr))
      ensures State() == Register(old(State()), name) && events == old(events)
      ensures name in names && id == names[name] && id in books
    {
      hide MatchingEngine.Valid, MatchingEngine.Books, OrderBook.Valid, OrderBook.Book;
      OneBook(next);
      if name in names {
        id := names[name];
      } else {
        id := next;
        next := next + 1;
        names := names[name := id];
      }
      OneBook(id);
      if id !in books {
        var book := new OrderBook(storage);
        books := books[id := book];
        Repr := Repr + book.Repr;
        BookAdded(id, book);
      }
    }

    // ---- Queries: an unknown symbol answers as an empty book -----------------------------------

    method HasSymbol(symbol: SymbolId) returns (known: bool)
      requires Valid()
      ensures Valid() && known == (symbol in State().books)
    {
      hide MatchingEngine.Valid, MatchingEngine.Books, OrderBook.Valid, OrderBook.Book, OrderBook.Mode;
      OneBook(symbol);
      known := symbol in books;
    }

    method ContainsOrder(symbol: SymbolId, id: OrderId) returns (found: bool)
      requires Valid()
      ensures Valid() && found == (symbol in State().books && Contains(State().books[symbol], id))
    {
      hide MatchingEngine.Valid, MatchingEngine.Books, OrderBook.Valid, OrderBook.Book, OrderBook.Mode, Contains;
      OneBook(symbol);
      if symbol !in books {
        return false;
      }
      found := books[symbol].ContainsOrder(id);
    }

    method CanStoreLimit(symbol: SymbolId, side: Side, price: Price, quantity: Quantity, tif: TimeInForce,
                         ghost id: OrderId)
      returns (ok: bool)
      requires Valid()
      ensures Valid()
      ensures ok == (symbol in State().books
                     && BookSpec.CanStoreLimit(storage, State().books[symbol], id, side, price, quantity, tif))
    {
      hide MatchingEngine.Valid, MatchingEngine.Books;
      hide OrderBook.Valid, OrderBook.Book, OrderBook.Mode, BookSpec.CanStoreLimit;
      OneBook(symbol);
      if symbol !in books {
        return false;
      }
      ok := books[symbol].CanStoreLimit(side, price, quantity, tif, id);
    }

    method CanApplyModify(symbol: SymbolId, id: OrderId, price: Price, quantity: Quantity) returns (ok: bool)
      requires Valid()
      ensures Valid()
      ensures ok == (symbol in State().books
                     && BookSpec.CanApplyModify(storage, State().books[symbol], id, price, quantity))
    {
      hide MatchingEngine.Valid, MatchingEngine.Books;
      hide OrderBook.Valid, OrderBook.Book, OrderBook.Mode, BookSpec.CanApplyModify;
      OneBook(symbol);
      if symbol !in books {
        return false;
      }
      ok := books[symbol].CanApplyModify(id, price, quantity);
    }

    method FillCount(symbol: SymbolId, t: Taker, quantity: Quantity) returns (count: nat)
      requires Valid()
      ensures Valid()
      ensures count == if symbol in State().books then BookSpec.FillCount(State().books[symbol], t, quantity) else 0
    {
      hide MatchingEngine.Valid, MatchingEngine.Books;
      hide OrderBook.Valid, OrderBook.Book, OrderBook.Mode, BookSpec.FillCount;
      OneBook(symbol);
      if symbol !in books {
        return 0;
      }
      count := books[symbol].FillCount(t, quantity);
    }

    method BestPriceOf(symbol: SymbolId, side: Side) returns (best: Option<Price>)
      requires Valid()
      ensures Valid()
      ensures best == if symbol in State().books then BestPrice(SideOf(State().books[symbol], side)) else None
    {
      hide MatchingEngine.Valid, MatchingEngine.Books, OrderBook.Valid, OrderBook.Book, OrderBook.Mode, BestPrice;
      OneBook(symbol);
      if symbol !in books {
        return None;
      }
      best := books[symbol].BestPriceOf(side);
    }

    // ---- Commands ------------------------------------------------------------------------------

    /** Number the head event and one event per trade into the scratch buffer. */
    method EmitTrades(symbol: SymbolId, trades: seq<Trade>)
      modifies this`seqNo, this`events
      ensures seqNo == old(seqNo) + |trades| && events == old(events) + TradeEvents(old(seqNo), symbol, trades)
    {
      var i := 0;
      assert trades[0..] == trades;
      while i < |trades|
        invariant 0 <= i <= |trades| && seqNo == old(seqNo) + i
        invariant old(events) + TradeEvents(old(seqNo), symbol, trades)
                  == events + TradeEvents(seqNo, symbol, trades[i..])
      {
        var t := trades[i];
        assert trades[i..][0] == t && trades[i..][1..] == trades[i + 1..];
        seqNo := seqNo + 1;
        ghost var rest := TradeEvents(seqNo, symbol, trades[i + 1..]);
        assert events + ([Traded(seqNo, symbol, t.takerId, t.makerId, t.price, t.quantity)] + rest)
            == events + [Traded(seqNo, symbol, t.takerId, t.makerId, t.price, t.quantity)] + rest;
        events := events + [Traded(seqNo, symbol, t.takerId, t.makerId, t.price, t.quantity)];
        i := i + 1;
      }
    }

    method NewLimit(symbol: SymbolId, id: OrderId, side: Side, price: Price, quantity: Quantity, tif: TimeInForce)
      requires Valid()
      modifies this, Repr
      ensures Valid() && Repr == old(Repr)
      ensures Step(State(), events) == Limit(old(State()), symbol, id, side, price, quantity, tif)
    {
      hide MatchingEngine.Valid, MatchingEngine.Books, OrderBook.Valid, OrderBook.Book, OrderBook.Mode;
      hide BookSpec.CanStoreLimit, Contains, AddLimit, TradeEvents;
      OneBook(symbol);
      events := [];
      if symbol !in books {
        return;
      }
      var book := books[symbol];
      var known := book.ContainsOrder(id);
      if known {
        return;
      }
      var room := book.CanStoreLimit(side, price, quantity, tif, id);
      if !room {
        return;
      }
      seqNo := seqNo + 1;
      events := events + [Accepted(seqNo, symbol, id)];
      var trades := book.AddLimit(id, side, price, quantity, tif);
      OneBookChanged(symbol);
      EmitTrades(symbol, trades);
    }

    method NewMarket(symbol: SymbolId, id: OrderId, side: Side, quantity: Quantity)
      requires Valid()
      modifies this, Repr
      ensures Valid() && Repr == old(Repr)
      ensures Step(State(), events) == Market(old(State()), symbol, id, side, quantity)
    {
      hide MatchingEngine.Valid, MatchingEngine.Books, OrderBook.Valid, OrderBook.Book, OrderBook.Mode;
      hide Contains, AddMarket, TradeEvents;
      OneBook(symbol);
      events := [];
      if symbol !in books {
        return;
      }
      var book := books[symbol];
      var known := book.ContainsOrder(id);
      if known {
        return;
      }
      seqNo := seqNo + 1;
      events := events + [Accepted(seqNo, symbol, id)];
      var trades := book.AddMarket(id, side, quantity);
      OneBookChanged(symbol);
      EmitTrades(symbol, trades);
    }

    method CancelOrder(symbol: SymbolId, id: OrderId)
      requires Valid()
      modifies this, Repr
      ensures Valid() && Repr == old(Repr)
      ensures Step(State(), events) == CancelIn(old(State()), symbol, id)
    {
      hide MatchingEngine.Valid, MatchingEngine.Books, OrderBook.Valid, OrderBook.Book, OrderBook.Mode;
      hide Contains, Cancel;
      OneBook(symbol);
      events := [];
      if symbol !in books {
        return;
      }
      ghost var was := books[symbol].Book();
      var removed := books[symbol].Cancel(id);
      OneBookChanged(symbol);
      if removed {
        seqNo := seqNo + 1;
        events := events + [Canceled(seqNo, symbol, id)];
      } else {
        CancelAbsent(was, id);
      }
    }

    method ModifyOrder(symbol: SymbolId, id: OrderId, price: Price, quantity: Quantity)
      requires Valid()
      modifies this, Repr
      ensures Valid() && Repr == old(Repr)
      ensures Step(State(), events) == ModifyIn(old(State()), symbol, id, price, quantity)
    {
      hide MatchingEngine.Valid, MatchingEngine.Books, OrderBook.Valid, OrderBook.Book, OrderBook.Mode;
      hide BookSpec.CanApplyModify, Contains, Modify, TradeEvents;
      OneBook(symbol);
      events := [];
      if symbol !in books {
        return;
      }
      var book := books[symbol];
      var known := book.ContainsOrder(id);
      if !known {
        return;
      }
      var room := book.CanApplyModify(id, price, quantity);
      if !room {
        return;
      }
      seqNo := seqNo + 1;
      events := events + [Modified(seqNo, symbol, id)];
      var trades := book.Modify(id, price, quantity);
      OneBookChanged(symbol);
      EmitTrades(symbol, trades);
    }

    /** `apply`: dispatch one recorded command straight to the engine. */
    method Apply(c: Command) returns (produced: seq<Event>)
      requires Valid()
      modifies this, Repr
      ensures Valid() && fresh(Repr - old(Repr))
      ensures Step(State(), produced) == Perform(old(State()), c)
    {
      hide MatchingEngine.Valid, MatchingEngine.Books;
      hide Limit, Market, CancelIn, ModifyIn, Register;
      match c
      case RegisterSymbol(name) =>
        var id := RegisterSymbol(name);
        produced := [];
      case NewLimit(symbol, id, side, price, quantity, tif) =>
        NewLimit(symbol, id, side, price, quantity, tif);
        produced := events;
      case NewMarket(symbol, id, side, quantity) =>
        NewMarket(symbol, id, side, quantity);
        produced := events;
      case CancelOrder(symbol, id) =>
        CancelOrder(symbol, id);
        produced := events;
      case ModifyOrder(symbol, id, price, quantity) =>
        ModifyOrder(symbol, id, price, quantity);
        produced := events;
    }
  }

  class OrderGateway {
    const engine: MatchingEngine
    const config: RiskConfig

    constructor (engine: MatchingEngine, config: RiskConfig)
      ensures this.engine == engine && this.config == config
    {
      this.engine := engine;
      this.config := config;
    }

    static function Refusal(reason: RejectReason): GatewayResult {
      GatewayResult(false, reason, [])
    }

    static function Acceptance(events: seq<Event>): GatewayResult {
      GatewayResult(true, NoReason, events)
    }

    method NewLimit(symbol: SymbolId, id: OrderId, side: Option<Side>, price: Price, quantity: Quantity,
                    tif: TimeInForce)
      returns (r: GatewayResult)
      requires engine.Valid()
      modifies engine, engine.Repr
      ensures engine.Valid() && engine.Repr == old(engine.Repr)
      ensures Submitted(engine.State(), r)
              == if side.None? then WithoutSide(old(engine.State()), symbol, id)
                 else Submit(old(engine.State()), config,
                             Command.NewLimit(symbol, id, side.value, price, quantity, tif))
    {
      hide Contains, CanStoreLimit, CheckLimitValues, Limit, MatchingEngine.Valid, MatchingEngine.Books;
      var listed := engine.HasSymbol(symbol);
      if !listed {
        return Refusal(UnknownSymbol);
      }
      var known := engine.ContainsOrder(symbol, id);
      if known {
        return Refusal(DuplicateOrderId);
      }
      if side.None? {
        return Refusal(InvalidSide);
      }
      var reason := CheckLimitValues(config, price, quantity);
      if reason != NoReason {
        return Refusal(reason);
      }
      var room := engine.CanStoreLimit(symbol, side.value, price, quantity, tif, id);
      if !room {
        return Refusal(StorageExhausted);
      }
      engine.NewLimit(symbol, id, side.value, price, quantity, tif);
      return Acceptance(engine.events);
    }

    method NewMarket(symbol: SymbolId, id: OrderId, side: Option<Side>, quantity: Quantity) returns (r: GatewayResult)
      requires engine.Valid()
      modifies engine, engine.Repr
      ensures engine.Valid() && engine.Repr == old(engine.Repr)
      ensures Submitted(engine.State(), r)
              == if side.None? then WithoutSide(old(engine.State()), symbol, id)
                 else Submit(old(engine.State()), config, Command.NewMarket(symbol, id, side.value, quantity))
    {
      hide Contains, CheckMarket, Market, MatchingEngine.Valid, MatchingEngine.Books;
      var listed := engine.HasSymbol(symbol);
      if !listed {
        return Refusal(UnknownSymbol);
      }
      var known := engine.ContainsOrder(symbol, id);
      if known {
        return Refusal(DuplicateOrderId);
      }
      if side.None? {
        return Refusal(InvalidSide);
      }
      var reason := CheckMarket(config, quantity);
      if reason != NoReason {
        return Refusal(reason);
      }
      engine.NewMarket(symbol, id, side.value, quantity);
      return Acceptance(engine.events);
    }

    method CancelOrder(symbol: SymbolId, id: OrderId) returns (r: GatewayResult)
      requires engine.Valid()
      modifies engine, engine.Repr
      ensures engine.Valid() && engine.Repr == old(engine.Repr)
      ensures Submitted(engine.State(), r) == Submit(old(engine.State()), config, Command.CancelOrder(symbol, id))
    {
      hide Contains, CancelIn, MatchingEngine.Valid, MatchingEngine.Books;
      var listed := engine.HasSymbol(symbol);
      if !listed {
        return Refusal(UnknownSymbol);
      }
      var known := engine.ContainsOrder(symbol, id);
      if !known {
        return Refusal(UnknownOrder);
      }
      engine.CancelOrder(symbol, id);
      return Acceptance(engine.events);
    }

    method ModifyOrder(symbol: SymbolId, id: OrderId, price: Price, quantity: Quantity) returns (r: GatewayResult)
      requires engine.Valid()
      modifies engine, engine.Repr
      ensures engine.Valid() && engine.Repr == old(engine.Repr)
      ensures Submitted(engine.State(), r)
              == Submit(old(engine.State()), config, Command.ModifyOrder(symbol, id, price, quantity))
    {
      hide Contains, CanApplyModify, CheckLimitValues, ModifyIn, MatchingEngine.Valid, MatchingEngine.Books;
      var listed := engine.HasSymbol(symbol);
      if !listed {
        return Refusal(UnknownSymbol);
      }
      var known := engine.ContainsOrder(symbol, id);
      if !known {
        return Refusal(UnknownOrder);
      }
      if quantity > 0 {
        var reason := CheckLimitValues(config, price, quantity);
        if reason != NoReason {
          return Refusal(reason);
        }
        var room := engine.CanApplyModify(symbol, id, price, quantity);
        if !room {
          return Refusal(StorageExhausted);
        }
      }
      engine.ModifyOrder(symbol, id, price, quantity);
      return Acceptance(engine.events);
    }

    /** `preview_new_order`: ask the engine, change nothing. */
    method PreviewNewOrder(c: Command) returns (preview: Preview)
      requires engine.Valid() && (c.NewLimit? || c.NewMarket?)
      ensures engine.Valid() && preview == Gateway.PreviewNewOrder(engine.State(), config, c)
    {
      hide Contains, CanStoreLimit, CheckLimitValues, CheckMarket, FillCount;
      hide MatchingEngine.Valid, MatchingEngine.Books;
      var listed := engine.HasSymbol(c.symbol);
      var known := engine.ContainsOrder(c.symbol, c.id);
      if !listed || known {
        return Preview(false, 0);
      }
      var reason := if c.NewMarket? then CheckMarket(config, c.quantity)
                    else CheckLimitValues(config, c.price, c.quantity);
      if reason != NoReason {
        return Preview(false, 0);
      }
      if c.NewLimit? {
        var room := engine.CanStoreLimit(c.symbol, c.side, c.price, c.quantity, c.tif, c.id);
        if !room {
          return Preview(false, 0);
        }
      }
      var fills := engine.FillCount(c.symbol, TakerOf(c), c.quantity);
      return Preview(true, fills);
    }

    /** `apply_command`: every command of a recorded stream through the gateway. */
    method ApplyCommand(c: Command) returns (r: GatewayResult)
      requires engine.Valid()
      modifies engine, engine.Repr
      ensures engine.Valid() && fresh(engine.Repr - old(engine.Repr))
      ensures Submitted(engine.State(), r) == Submit(old(engine.State()), config, c)
    {
      hide Submit, MatchingEngine.Valid, MatchingEngine.Books;
      match c
      case RegisterSymbol(name) =>
        RegisterIsAccepted(engine.State(), config, name);
        var id := engine.RegisterSymbol(name);
        r := Acceptance([]);
      case NewLimit(symbol, id, side, price, quantity, tif) =>
        r := NewLimit(symbol, id, Some(side), price, quantity, tif);
      case NewMarket(symbol, id, side, quantity) => r := NewMarket(symbol, id, Some(side), quantity);
      case CancelOrder(symbol, id) => r := CancelOrder(symbol, id);
      case ModifyOrder(symbol, id, price, quantity) => r := ModifyOrder(symbol, id, price, quantity);
    }
  }
}
