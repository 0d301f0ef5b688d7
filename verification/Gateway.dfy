/** Risk checks and the order gateway in front of the engine. */
module Gateway {
  import opened Types
  import opened BookSpec
  import opened BookTheorems
  import opened Engine

  datatype RejectReason =
    | NoReason
    | UnknownSymbol
    | InvalidPrice
    | InvalidQuantity
    | InvalidSide
    | MaxQuantityExceeded
    | MaxNotionalExceeded
    | DuplicateOrderId
    | UnknownOrder
    | StorageExhausted

  datatype RiskConfig = RiskConfig(maxQuantity: Quantity, maxNotional: nat)

  /** A rejection carries a reason and no events. */
  datatype GatewayResult = GatewayResult(accepted: bool, reason: RejectReason, events: seq<Event>)

  datatype Submitted = Submitted(engine: Engine, result: GatewayResult)

  function Reject(e: Engine, reason: RejectReason): Submitted {
    Submitted(e, GatewayResult(false, reason, []))
  }

  function Accept(s: Step): Submitted {
    Submitted(s.engine, GatewayResult(true, NoReason, s.events))
  }

  function CheckLimitValues(config: RiskConfig, price: Price, quantity: Quantity): RejectReason {
    if price <= 0 then InvalidPrice
    else if quantity == 0 then InvalidQuantity
    else if quantity > config.maxQuantity then MaxQuantityExceeded
    else if quantity > config.maxNotional / price then MaxNotionalExceeded
    else NoReason
  }

  function CheckMarket(config: RiskConfig, quantity: Quantity): RejectReason {
    if quantity == 0 then InvalidQuantity
    else if quantity > config.maxQuantity then MaxQuantityExceeded
    else NoReason
  }

  /** The division decides the notional limit exactly. */
  lemma {:induction false} NotionalIsExact(config: RiskConfig, price: Price, quantity: Quantity)
    ensures CheckLimitValues(config, price, quantity) == NoReason <==>
              price > 0 && 0 < quantity <= config.maxQuantity && price * quantity <= config.maxNotional
  {
    if price > 0 {
      var q, m := config.maxNotional / price, config.maxNotional % price;
      assert config.maxNotional == price * q + m && 0 <= m < price;
      if quantity <= q {
        assert price * quantity <= price * q by { MulGrows(price, quantity, q); }
      } else {
        assert price * quantity >= price * (q + 1) by { MulGrows(price, q + 1, quantity); }
        assert price * (q + 1) == price * q + price;
      }
    }
  }

  lemma {:induction false} MulGrows(p: nat, a: nat, b: nat)
    requires a <= b
    ensures p * a <= p * b
  {
    assert p * b == p * a + p * (b - a);
  }

  function Submit(e: Engine, config: RiskConfig, c: Command): Submitted {
    match c
    case RegisterSymbol(name) => Accept(Step(Register(e, name), []))
    case NewLimit(symbol, id, side, price, quantity, tif) =>
      if symbol !in e.books then Reject(e, UnknownSymbol)
      else if Contains(e.books[symbol], id) then Reject(e, DuplicateOrderId)
      else if CheckLimitValues(config, price, quantity) != NoReason then
        Reject(e, CheckLimitValues(config, price, quantity))
      else if !CanStoreLimit(e.storage, e.books[symbol], id, side, price, quantity, tif) then
        Reject(e, StorageExhausted)
      else Accept(Limit(e, symbol, id, side, price, quantity, tif))
    case NewMarket(symbol, id, side, quantity) =>
      if symbol !in e.books then Reject(e, UnknownSymbol)
      else if Contains(e.books[symbol], id) then Reject(e, DuplicateOrderId)
      else if CheckMarket(config, quantity) != NoReason then Reject(e, CheckMarket(config, quantity))
      else Accept(Market(e, symbol, id, side, quantity))
    case CancelOrder(symbol, id) =>
      if symbol !in e.books then Reject(e, UnknownSymbol)
      else if !Contains(e.books[symbol], id) then Reject(e, UnknownOrder)
      else Accept(CancelIn(e, symbol, id))
    case ModifyOrder(symbol, id, price, quantity) =>
      if symbol !in e.books then Reject(e, UnknownSymbol)
      else if !Contains(e.books[symbol], id) then Reject(e, UnknownOrder)
      else if quantity == 0 then Accept(ModifyIn(e, symbol, id, price, quantity))
      else if CheckLimitValues(config, price, quantity) != NoReason then
        Reject(e, CheckLimitValues(config, price, quantity))
      else if !CanApplyModify(e.storage, e.books[symbol], id, price, quantity) then Reject(e, StorageExhausted)
      else Accept(ModifyIn(e, symbol, id, price, quantity))
  }

  /** A new order whose side byte names no side is refused, after the symbol and the id are looked up. */
  function WithoutSide(e: Engine, symbol: SymbolId, id: OrderId): Submitted {
    if symbol !in e.books then Reject(e, UnknownSymbol)
    else if Contains(e.books[symbol], id) then Reject(e, DuplicateOrderId)
    else Reject(e, InvalidSide)
  }

  /**
   * A rejection changes nothing and emits nothing; an acceptance is the unchecked engine step, and
   * the engine never silently ignores an order command the gateway let through.
   */
  lemma {:induction false} SubmitIsSafe(e: Engine, config: RiskConfig, c: Command)
    ensures var s := Submit(e, config, c);
            && (s.result.accepted <==> s.result.reason.NoReason?)
            && (!s.result.accepted ==> s.engine == e && s.result.events == [])
            && (s.result.accepted ==> Step(s.engine, s.result.events) == Perform(e, c))
            && (s.result.accepted && !c.RegisterSymbol? ==> s.result.events != [] && !s.result.events[0].Traded?)
  {
    hide Contains, CanStoreLimit, AddLimit, AddMarket, Modify, Cancel, TradeEvents;
    if c.ModifyOrder? && c.quantity == 0 && c.symbol in e.books {
      ZeroModifyApplies(e.storage, e.books[c.symbol], c.id, c.price);
    }
  }

  lemma {:induction false} ZeroModifyApplies(st: Storage, b: Book, id: OrderId, price: Price)
    ensures CanApplyModify(st, b, id, price, 0)
  {
  }

  lemma {:induction false} RegisterIsAccepted(e: Engine, config: RiskConfig, name: string)
    ensures Submit(e, config, RegisterSymbol(name)) == Submitted(Register(e, name), GatewayResult(true, NoReason, []))
  {
  }

  // ---- Preview -------------------------------------------------------------------------------

  datatype Preview = Preview(accepted: bool, fillCount: nat)

  function TakerOf(c: Command): Taker
    requires c.NewLimit? || c.NewMarket?
  {
    if c.NewLimit? then LimitTaker(c.id, c.side, c.price) else Taker(c.id, c.side, true, 0)
  }

  /** Dry run of a new order: would it be accepted, and how many fills would it make? */
  function PreviewNewOrder(e: Engine, config: RiskConfig, c: Command): Preview
    requires c.NewLimit? || c.NewMarket?
  {
    if c.symbol !in e.books || Contains(e.books[c.symbol], c.id) then Preview(false, 0)
    else
      var reason := if c.NewMarket? then CheckMarket(config, c.quantity)
                    else CheckLimitValues(config, c.price, c.quantity);
      if reason != NoReason then Preview(false, 0)
      else if c.NewLimit?
              && !CanStoreLimit(e.storage, e.books[c.symbol], c.id, c.side, c.price, c.quantity, c.tif) then
        Preview(false, 0)
      else Preview(true, FillCount(e.books[c.symbol], TakerOf(c), c.quantity))
  }

  ghost predicate OneAckThenTrades(events: seq<Event>, fills: nat) {
    && |events| == 1 + fills && events[0].Accepted?
    && forall i :: 1 <= i < |events| ==> events[i].Traded?
  }

  lemma {:induction false} TradeEventsAreTrades(last: nat, symbol: SymbolId, trades: seq<Trade>)
    ensures forall i :: 0 <= i < |trades| ==> TradeEvents(last, symbol, trades)[i].Traded?
    decreases |trades|
  {
    if trades != [] {
      TradeEventsAreTrades(last + 1, symbol, trades[1..]);
    }
  }

  /** The preview says exactly what submitting then does. */
  lemma {:induction false} PreviewIsExact(e: Engine, config: RiskConfig, c: Command)
    requires c.NewLimit? || c.NewMarket?
    ensures var p := PreviewNewOrder(e, config, c);
            var s := Submit(e, config, c);
            && p.accepted == s.result.accepted
            && (p.accepted ==> OneAckThenTrades(s.result.events, p.fillCount))
  {
    hide Contains, CanStoreLimit, Match, TradeEvents, CheckLimitValues, CheckMarket, Insert;
    if PreviewNewOrder(e, config, c).accepted {
      TradeEventsAreTrades(e.seqNo + 1, c.symbol, MatchIn(e.books[c.symbol], TakerOf(c), c.quantity).trades);
    }
  }

  // ---- Whole runs ----------------------------------------------------------------------------

  datatype GatewayRun = GatewayRun(engine: Engine, results: seq<GatewayResult>)

  function SubmitAll(e: Engine, config: RiskConfig, cs: seq<Command>): GatewayRun
    decreases |cs|
  {
    if cs == [] then GatewayRun(e, [])
    else
      var s := Submit(e, config, cs[0]);
      var rest := SubmitAll(s.engine, config, cs[1..]);
      GatewayRun(rest.engine, [s.result] + rest.results)
  }

  function EventsOf(results: seq<GatewayResult>): seq<Event> {
    if results == [] then [] else results[0].events + EventsOf(results[1..])
  }

  /** The commands the gateway accepted, in order: what a session records. */
  function AcceptedOf(e: Engine, config: RiskConfig, cs: seq<Command>): seq<Command>
    decreases |cs|
  {
    if cs == [] then []
    else
      var s := Submit(e, config, cs[0]);
      (if s.result.accepted then [cs[0]] else []) + AcceptedOf(s.engine, config, cs[1..])
  }

  /** Replaying only the accepted commands, without risk checks, repeats the session. */
  lemma {:induction false} AcceptedReplay(e: Engine, config: RiskConfig, cs: seq<Command>)
    ensures var run := SubmitAll(e, config, cs);
            PerformAll(e, AcceptedOf(e, config, cs)) == Step(run.engine, EventsOf(run.results))
    decreases |cs|
  {
    hide Submit, Perform;
    if cs != [] {
      var s := Submit(e, config, cs[0]);
      SubmitIsSafe(e, config, cs[0]);
      AcceptedReplay(s.engine, config, cs[1..]);
      var kept := AcceptedOf(s.engine, config, cs[1..]);
      var run := SubmitAll(s.engine, config, cs[1..]);
      assert ([s.result] + run.results)[1..] == run.results;
      if s.result.accepted {
        assert ([cs[0]] + kept)[1..] == kept;
      } else {
        assert [] + kept == kept && [] + EventsOf(run.results) == EventsOf(run.results);
      }
    }
  }
}
