/** The widths of the program's integers: what fits its fields keeps fitting them through every command. */
module FieldWidths {
  import opened Types
  import opened Bytes
  import opened BookSpec
  import opened Engine
  import opened Gateway

  const TWO32 := 0x1_0000_0000

  predicate OrderFits(o: Order) {
    o.id < TWO64 && IsInt64(o.price) && o.quantity < TWO32
  }

  predicate TradeFits(t: Trade) {
    t.takerId < TWO64 && t.makerId < TWO64 && IsInt64(t.price) && t.quantity < TWO32
  }

  ghost predicate OrdersFit(q: seq<Order>) {
    forall i :: 0 <= i < |q| ==> OrderFits(q[i])
  }

  ghost predicate TradesFit(trades: seq<Trade>) {
    forall i :: 0 <= i < |trades| ==> TradeFits(trades[i])
  }

  ghost predicate BookFits(b: Book) {
    OrdersFit(b.bids) && OrdersFit(b.asks)
  }

  ghost predicate EngineFits(e: Engine) {
    forall s :: s in e.books ==> BookFits(e.books[s])
  }

  predicate BookCommandFits(c: BookCommand) {
    match c
    case LimitCmd(id, _, price, quantity, _) => id < TWO64 && IsInt64(price) && quantity < TWO32
    case MarketCmd(id, _, quantity) => id < TWO64 && quantity < TWO32
    case CancelCmd(id) => id < TWO64
    case ModifyCmd(id, price, quantity) => id < TWO64 && IsInt64(price) && quantity < TWO32
  }

  predicate CommandFits(c: Command) {
    c.RegisterSymbol? || (c.symbol < TWO32 && BookCommandFits(ForBook(c)))
  }

  /** All but the sequence number, which grows with every event. */
  ghost predicate EventFits(v: Event) {
    v.Traded? ==> v.takerId < TWO64 && v.makerId < TWO64 && IsInt64(v.price) && v.quantity < TWO32
  }

  // ---- One book ------------------------------------------------------------------------------

  lemma {:induction false} MatchFits(t: Taker, makers: seq<Order>, quantity: Quantity)
    requires OrdersFit(makers) && t.id < TWO64
    ensures var m := Match(t, makers, quantity);
            OrdersFit(m.makers) && TradesFit(m.trades) && m.remainder <= quantity
    decreases |makers|
  {
    if quantity > 0 && makers != [] && Crosses(t, makers[0].price) {
      var traded := Min(quantity, makers[0].quantity);
      assert OrderFits(makers[0]);
      if traded == makers[0].quantity {
        MatchFits(t, makers[1..], quantity - traded);
      }
    }
  }

  lemma {:induction false} InsertFits(q: seq<Order>, o: Order)
    requires OrdersFit(q) && OrderFits(o)
    ensures OrdersFit(Insert(q, o))
    decreases |q|
  {
    hide OrderFits;
    if q != [] && !Better(o.side, o.price, q[0].price) {
      InsertFits(q[1..], o);
    }
  }

  lemma {:induction false} RemoveFits(q: seq<Order>, id: OrderId)
    requires OrdersFit(q)
    ensures OrdersFit(Remove(q, id))
    decreases |q|
  {
    hide OrderFits;
    if q != [] && q[0].id != id {
      RemoveFits(q[1..], id);
    }
  }

  lemma {:induction false} ResizeFits(q: seq<Order>, id: OrderId, quantity: Quantity)
    requires OrdersFit(q) && quantity < TWO32
    ensures OrdersFit(Resize(q, id, quantity))
    decreases |q|
  {
    if q != [] {
      assert OrderFits(q[0]);
      if q[0].id != id {
        ResizeFits(q[1..], id, quantity);
      }
    }
  }

  lemma {:induction false} LimitFits(st: Storage, b: Book, id: OrderId, side: Side, price: Price, quantity: Quantity,
                                     tif: TimeInForce)
    requires BookFits(b) && id < TWO64 && IsInt64(price) && quantity < TWO32
    ensures var a := AddLimit(st, b, id, side, price, quantity, tif); BookFits(a.book) && TradesFit(a.trades)
  {
    hide Contains, CanStoreLimit, Match, Insert, OrdersFit, TradesFit;
    NoTradesFit();
    var t := LimitTaker(id, side, price);
    MatchFits(t, SideOf(b, Opposite(side)), quantity);
    InsertFits(SideOf(b, side), Order(id, side, price, MatchIn(b, t, quantity).remainder));
  }

  lemma {:induction false} NoTradesFit()
    ensures TradesFit([])
  {
  }

  lemma {:induction false} CancelFits(b: Book, id: OrderId)
    requires BookFits(b)
    ensures BookFits(Cancel(b, id))
  {
    hide OrdersFit;
    RemoveFits(b.bids, id);
    RemoveFits(b.asks, id);
  }

  lemma {:induction false} ApplyFits(st: Storage, b: Book, c: BookCommand)
    requires BookFits(b) && BookCommandFits(c)
    ensures BookFits(Apply(st, b, c).book) && TradesFit(Apply(st, b, c).trades)
  {
    hide Contains, Find, CanApplyModify, AddLimit, Cancel, Match, Resize, OrdersFit, TradesFit;
    NoTradesFit();
    match c
    case LimitCmd(id, side, price, quantity, tif) =>
      LimitFits(st, b, id, side, price, quantity, tif);
    case MarketCmd(id, side, quantity) =>
      MatchFits(Taker(id, side, true, 0), SideOf(b, Opposite(side)), quantity);
    case CancelCmd(id) =>
      CancelFits(b, id);
    case ModifyCmd(id, price, quantity) =>
      CancelFits(b, id);
      if Contains(b, id) {
        var side := Find(b, id).side;
        ResizeFits(SideOf(b, side), id, quantity);
        LimitFits(st, Cancel(b, id), id, side, price, quantity, GTC);
      }
  }

  // ---- The engine ----------------------------------------------------------------------------

  lemma {:induction false} TradeEventsFit(last: nat, symbol: SymbolId, trades: seq<Trade>)
    requires TradesFit(trades)
    ensures forall i :: 0 <= i < |trades| ==> EventFits(TradeEvents(last, symbol, trades)[i])
  {
    TradesNumbered(last, symbol, trades);
    forall i | 0 <= i < |trades| ensures EventFits(TradeEvents(last, symbol, trades)[i]) {
      assert TradeFits(trades[i]);
    }
  }

  /** An order command's events are nothing, or one head and the trades its book made. */
  lemma {:induction false} EventsAreTheBooks(e: Engine, c: Command)
    requires !c.RegisterSymbol?
    ensures var events := Perform(e, c).events;
            events != [] ==>
              && c.symbol in e.books && !events[0].Traded?
              && events[1..]
                 == TradeEvents(e.seqNo + 1, c.symbol, Apply(e.storage, e.books[c.symbol], ForBook(c)).trades)
  {
    hide Contains, CanStoreLimit, CanApplyModify, AddLimit, AddMarket, Cancel, Modify, TradeEvents;
    NoTradesNoEvents(e.seqNo + 1, if c.symbol in e.books then c.symbol else 0);
  }

  lemma {:induction false} NoTradesNoEvents(last: nat, symbol: SymbolId)
    ensures TradeEvents(last, symbol, []) == []
  {
  }

  lemma {:induction false} PerformFits(e: Engine, c: Command)
    requires EngineFits(e) && CommandFits(c)
    ensures var s := Perform(e, c);
            && EngineFits(s.engine) && e.seqNo <= s.engine.seqNo
            && forall i :: 0 <= i < |s.events| ==> EventFits(s.events[i]) && s.events[i].seqNo <= s.engine.seqNo
  {
    hide Perform, Apply, BookFits, TradesFit, TradeEvents, EventFits;
    var s := Perform(e, c);
    PerformNumbers(e, c);
    if c.RegisterSymbol? {
      PerformIs(e, c);
      EmptyFits();
    } else {
      PerformRoutes(e, c);
      EventsAreTheBooks(e, c);
      if c.symbol in e.books {
        var b := e.books[c.symbol];
        ApplyFits(e.storage, b, ForBook(c));
        TradeEventsFit(e.seqNo + 1, c.symbol, Apply(e.storage, b, ForBook(c)).trades);
      }
      forall i | 0 <= i < |s.events| ensures EventFits(s.events[i]) {
        if i == 0 { HeadFits(s.events[0]); } else { assert s.events[i] == s.events[1..][i - 1]; }
      }
    }
  }

  lemma {:induction false} EmptyFits()
    ensures BookFits(EMPTY_BOOK)
  {
  }

  lemma {:induction false} HeadFits(v: Event)
    requires !v.Traded?
    ensures EventFits(v)
  {
  }

  /** What the gateway accepts or refuses keeps the widths too. */
  lemma {:induction false} SubmitFits(e: Engine, config: RiskConfig, c: Command)
    requires EngineFits(e) && CommandFits(c)
    ensures var s := Submit(e, config, c);
            && EngineFits(s.engine) && e.seqNo <= s.engine.seqNo
            && forall i :: 0 <= i < |s.result.events| ==>
                 EventFits(s.result.events[i]) && s.result.events[i].seqNo <= s.engine.seqNo
  {
    hide Perform, Submit, EngineFits, EventFits;
    SubmitIsSafe(e, config, c);
    PerformFits(e, c);
  }
}
