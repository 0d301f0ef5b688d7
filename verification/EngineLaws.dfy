/**
 * What the gateway accepts and what the engine reports, in terms of the configured limits, the registered
 * symbols and the resting orders alone.
 */
module EngineLaws {
  import opened Types
  import opened BookSpec
  import opened BookTheorems
  import opened Engine
  import opened Gateway

  // ---- Verdicts ------------------------------------------------------------------------------

  /** The symbol is registered and no order with this id rests in it. */
  predicate IsNew(e: Engine, symbol: SymbolId, id: OrderId) {
    symbol in e.books && !Contains(e.books[symbol], id)
  }

  predicate IsResting(e: Engine, symbol: SymbolId, id: OrderId) {
    symbol in e.books && Contains(e.books[symbol], id)
  }

  /** A positive price and quantity within both limits of the configuration. */
  predicate WithinLimits(config: RiskConfig, price: Price, quantity: Quantity) {
    0 < price && 0 < quantity <= config.maxQuantity && price * quantity <= config.maxNotional
  }

  /** Which value check of a limit order or a modify is the first to fail, if any does. */
  ghost predicate ValueReason(config: RiskConfig, price: Price, quantity: Quantity, reason: RejectReason) {
    && (reason.InvalidPrice? <==> price <= 0)
    && (reason.InvalidQuantity? <==> price > 0 && quantity == 0)
    && (reason.MaxQuantityExceeded? <==> price > 0 && quantity > config.maxQuantity)
    && (reason.MaxNotionalExceeded? <==>
          price > 0 && 0 < quantity <= config.maxQuantity && price * quantity > config.maxNotional)
  }

  lemma {:induction false} ValuesAreChecked(config: RiskConfig, price: Price, quantity: Quantity)
    ensures var r := CheckLimitValues(config, price, quantity);
            && (r.NoReason? <==> WithinLimits(config, price, quantity)) && ValueReason(config, price, quantity, r)
            && (r.NoReason? || r.InvalidPrice? || r.InvalidQuantity? || r.MaxQuantityExceeded?
                || r.MaxNotionalExceeded?)
  {
    NotionalIsExact(config, price, quantity);
  }

  /** A new limit order is accepted exactly when its id is new, its values are within limits and it can be stored. */
  lemma {:induction false} LimitVerdict(e: Engine, config: RiskConfig, symbol: SymbolId, id: OrderId, side: Side,
                                        price: Price, quantity: Quantity, tif: TimeInForce)
    ensures var r := Submit(e, config, NewLimit(symbol, id, side, price, quantity, tif)).result;
            && (r.accepted <==>
                  IsNew(e, symbol, id) && WithinLimits(config, price, quantity)
                  && CanStoreLimit(e.storage, e.books[symbol], id, side, price, quantity, tif))
            && (r.reason.UnknownSymbol? <==> symbol !in e.books)
            && (r.reason.DuplicateOrderId? <==> IsResting(e, symbol, id))
            && (IsNew(e, symbol, id) ==> ValueReason(config, price, quantity, r.reason))
            && (r.reason.StorageExhausted? <==>
                  IsNew(e, symbol, id) && WithinLimits(config, price, quantity)
                  && !CanStoreLimit(e.storage, e.books[symbol], id, side, price, quantity, tif))
            && (r.reason.NoReason? <==> r.accepted) && !r.reason.InvalidSide? && !r.reason.UnknownOrder?
  {
    hide Contains, CanStoreLimit, CheckLimitValues, Limit;
    ValuesAreChecked(config, price, quantity);
  }

  /** A new market order is accepted exactly when its id is new and its quantity is positive and within the limit. */
  lemma {:induction false} MarketVerdict(e: Engine, config: RiskConfig, symbol: SymbolId, id: OrderId, side: Side,
                                         quantity: Quantity)
    ensures var r := Submit(e, config, NewMarket(symbol, id, side, quantity)).result;
            && (r.accepted <==> IsNew(e, symbol, id) && 0 < quantity <= config.maxQuantity)
            && (r.reason.UnknownSymbol? <==> symbol !in e.books)
            && (r.reason.DuplicateOrderId? <==> IsResting(e, symbol, id))
            && (r.reason.InvalidQuantity? <==> IsNew(e, symbol, id) && quantity == 0)
            && (r.reason.MaxQuantityExceeded? <==> IsNew(e, symbol, id) && quantity > config.maxQuantity)
            && (r.reason.NoReason? <==> r.accepted)
  {
    hide Contains, Market;
  }

  /** A cancel is accepted exactly when its order rests. */
  lemma {:induction false} CancelVerdict(e: Engine, config: RiskConfig, symbol: SymbolId, id: OrderId)
    ensures var r := Submit(e, config, CancelOrder(symbol, id)).result;
            && (r.accepted <==> IsResting(e, symbol, id))
            && (r.reason.UnknownSymbol? <==> symbol !in e.books)
            && (r.reason.UnknownOrder? <==> IsNew(e, symbol, id))
            && (r.reason.NoReason? <==> r.accepted)
  {
    hide Contains, CancelIn;
  }

  /** A modify is accepted exactly when its order rests and it is to nothing, or within limits and storable. */
  lemma {:induction false} ModifyVerdict(e: Engine, config: RiskConfig, symbol: SymbolId, id: OrderId, price: Price,
                                         quantity: Quantity)
    ensures var r := Submit(e, config, ModifyOrder(symbol, id, price, quantity)).result;
            && (r.accepted <==>
                  IsResting(e, symbol, id)
                  && (quantity == 0
                      || (WithinLimits(config, price, quantity)
                          && CanApplyModify(e.storage, e.books[symbol], id, price, quantity))))
            && (r.reason.UnknownSymbol? <==> symbol !in e.books)
            && (r.reason.UnknownOrder? <==> IsNew(e, symbol, id))
            && (IsResting(e, symbol, id) && quantity > 0 ==> ValueReason(config, price, quantity, r.reason))
            && (r.reason.StorageExhausted? <==>
                  IsResting(e, symbol, id) && WithinLimits(config, price, quantity)
                  && !CanApplyModify(e.storage, e.books[symbol], id, price, quantity))
            && (r.reason.NoReason? <==> r.accepted) && !r.reason.DuplicateOrderId? && !r.reason.InvalidSide?
  {
    hide Contains, CanApplyModify, CheckLimitValues, ModifyIn;
    ValuesAreChecked(config, price, quantity);
  }

  /** A byte that names no side is refused whatever else the order says, and nothing changes. */
  lemma {:induction false} SidelessVerdict(e: Engine, symbol: SymbolId, id: OrderId)
    ensures var s := WithoutSide(e, symbol, id);
            && s.engine == e && !s.result.accepted && s.result.events == []
            && (s.result.reason.UnknownSymbol? <==> symbol !in e.books)
            && (s.result.reason.DuplicateOrderId? <==> IsResting(e, symbol, id))
            && (s.result.reason.InvalidSide? <==> IsNew(e, symbol, id))
  {
    hide Contains;
  }

  // ---- Reports -------------------------------------------------------------------------------

  /** The event that opens an order command's report. */
  ghost predicate Opens(v: Event, c: Command)
    requires !c.RegisterSymbol?
  {
    && v.symbol == c.symbol
    && match c
       case NewLimit(_, id, _, _, _, _) => v.Accepted? && v.id == id
       case NewMarket(_, id, _, _) => v.Accepted? && v.id == id
       case CancelOrder(_, id) => v.Canceled? && v.id == id
       case ModifyOrder(_, id, _, _) => v.Modified? && v.id == id
  }

  /** Each trade of the book, in order, with its own number. */
  ghost predicate ReportsTrades(events: seq<Event>, last: nat, symbol: SymbolId, trades: seq<Trade>) {
    && |events| == 1 + |trades|
    && forall i :: 0 <= i < |trades| ==>
         var t := trades[i];
         events[i + 1] == Traded(last + 2 + i, symbol, t.takerId, t.makerId, t.price, t.quantity)
  }

  /** What the engine applies without being asked to check any limit. */
  predicate Takes(e: Engine, c: Command)
    requires !c.RegisterSymbol?
  {
    && c.symbol in e.books
    && var b := e.books[c.symbol];
       match c
       case NewLimit(_, id, side, price, quantity, tif) =>
         !Contains(b, id) && CanStoreLimit(e.storage, b, id, side, price, quantity, tif)
       case NewMarket(_, id, _, _) => !Contains(b, id)
       case CancelOrder(_, id) => Contains(b, id)
       case ModifyOrder(_, id, price, quantity) =>
         Contains(b, id) && CanApplyModify(e.storage, b, id, price, quantity)
  }

  /**
   * A command the engine takes is reported by one opening event of its own kind, symbol and id and then by
   * exactly the trades its book made; any other leaves no event and no change.
   */
  lemma {:induction false} PerformReports(e: Engine, c: Command)
    requires !c.RegisterSymbol?
    ensures var s := Perform(e, c);
            if Takes(e, c) then
              && s.events != [] && Opens(s.events[0], c) && s.events[0].seqNo == e.seqNo + 1
              && ReportsTrades(s.events, e.seqNo, c.symbol, Apply(e.storage, e.books[c.symbol], ForBook(c)).trades)
            else s == Step(e, [])
  {
    hide Contains, CanStoreLimit, CanApplyModify, AddLimit, AddMarket, Cancel, Modify, Emit, ReportsTrades;
    if Takes(e, c) {
      var a, n := Apply(e.storage, e.books[c.symbol], ForBook(c)), e.seqNo + 1;
      var head := if c.CancelOrder? then Canceled(n, c.symbol, c.id)
                  else if c.ModifyOrder? then Modified(n, c.symbol, c.id) else Accepted(n, c.symbol, c.id);
      EmitReports(e, c.symbol, head, a);
    }
  }

  lemma {:induction false} EmitReports(e: Engine, symbol: SymbolId, head: Event, a: Applied)
    ensures var events := Emit(e, symbol, head, a).events;
            events != [] && events[0] == head && ReportsTrades(events, e.seqNo, symbol, a.trades)
  {
    hide TradeEvents;
    TradesNumbered(e.seqNo + 1, symbol, a.trades);
  }
}
